/** A bundle directory, its manifest, and `verify_bundle`. */
module PackageBundle {
  import opened Text
  import opened PackagePaths

  type Byte = b: int | 0 <= b < 256

  type Bytes = seq<Byte>

  datatype Node = Directory(mode: nat) | File(mode: nat, data: Bytes) | Special

  /** The entries below a directory, by relative path. */
  type Tree = map<Path, Node>

  /** What a file system guarantees: the parent of every entry is a directory. */
  predicate IsTree(t: Tree) {
    forall p <- t :: p != [] && forall k | 1 <= k < |p| :: p[..k] in t && t[p[..k]].Directory?
  }

  // ---------------------------------------------------------------------------
  // Manifests

  datatype FileEntry = FileEntry(path: Path, isTypeScript: bool, size: nat, sha256: string, mode: nat)

  /** `rest` stands for everything else a manifest says: schema, target, modules, build. */
  datatype Manifest = Manifest(files: seq<FileEntry>, rest: string)

  /** Hashing, JSON and the checks of nested archives, which the model does not look into: `decode` stands
  for parsing and for the manifest checks that `IsManifest` does not list. */
  datatype Env = Env(
    sha: Bytes -> string,
    decode: Bytes -> Option<Manifest>,
    encode: Manifest -> Bytes,
    isTypeScriptPackage: Bytes -> bool,
    matchesTarget: Manifest -> bool)

  const MODE_644 := 0x1A4
  const MODE_755 := 0x1ED

  const MANIFEST_JSON: Path := ["manifest.json"]
  const MANIFEST_SHA: Path := ["manifest.sha256"]

  /** Below `sdk/amber-typescript/` and ending in `.tgz`. */
  predicate IsTypeScriptPath(p: Path) {
    |p| >= 3 && p[0] == "sdk" && p[1] == "amber-typescript" && StripSuffix(p[|p| - 1], ".tgz").Some?
  }

  predicate IsMetadata(p: Path) { p == MANIFEST_JSON || p == MANIFEST_SHA }

  predicate IsManifest(m: Manifest) {
    && (forall e <- m.files :: e.path != [] && IsSafe(e.path) && !IsMetadata(e.path))
    && (forall e <- m.files :: e.mode == MODE_644 || e.mode == MODE_755)
    && (forall e <- m.files :: e.isTypeScript <==> IsTypeScriptPath(e.path))
    && (forall i, j | 0 <= i < j < |m.files| :: m.files[i].path != m.files[j].path)
    && (exists e <- m.files :: e.isTypeScript)
    && (forall d <- m.files, e <- m.files :: d.isTypeScript && e.isTypeScript ==> d == e)
  }

  /** The manifest that canonical bytes hold. */
  function Load(env: Env, bytes: Bytes): Option<Manifest> {
    match env.decode(bytes)
    case None => None
    case Some(m) => if env.encode(m) == bytes && IsManifest(m) then Some(m) else None
  }

  predicate IsHexDigit(c: char) { '0' <= c <= '9' || 'a' <= c <= 'f' }

  predicate IsDigest(digest: string) { |digest| == 64 && forall c <- digest :: IsHexDigit(c) }

  function Ascii(s: string): (r: Bytes)
    ensures |r| == |s|
  {
    seq(|s|, i requires 0 <= i < |s| => s[i] as int % 128)
  }

  function Sidecar(digest: string): Bytes { Ascii(digest + "\n") }

  function PathsOf(files: seq<FileEntry>): set<Path> { set e | e in files :: e.path }

  function EntryPaths(m: Manifest): set<Path> { PathsOf(m.files) }

  function ExpectedFiles(m: Manifest): set<Path> { EntryPaths(m) + {MANIFEST_JSON, MANIFEST_SHA} }

  // ---------------------------------------------------------------------------
  // `verify_bundle`

  predicate HasFile(t: Tree, p: Path) { p in t && t[p].File? }

  /** A file with the size, digest and mode that the manifest lists. */
  predicate MatchesEntry(env: Env, t: Tree, e: FileEntry) {
    && HasFile(t, e.path)
    && |t[e.path].data| == e.size && env.sha(t[e.path].data) == e.sha256 && t[e.path].mode == e.mode
    && (e.isTypeScript ==> env.isTypeScriptPackage(t[e.path].data))
  }

  function Files(t: Tree): set<Path> { set p | p in t && t[p].File? }

  predicate HasManifest(env: Env, t: Tree, digest: string, m: Manifest) {
    && IsDigest(digest)
    && HasFile(t, MANIFEST_JSON) && HasFile(t, MANIFEST_SHA)
    && env.sha(t[MANIFEST_JSON].data) == digest
    && t[MANIFEST_SHA].data == Sidecar(digest)
    && Load(env, t[MANIFEST_JSON].data) == Some(m)
    && env.matchesTarget(m)
  }

  /** What `verify_bundle` accepts, with the manifest it returns. */
  predicate AcceptsBundle(env: Env, t: Tree, digest: string, m: Manifest) {
    && HasManifest(env, t, digest, m)
    && (forall e <- m.files :: MatchesEntry(env, t, e))
    && (forall p <- t :: !t[p].Special?)
    && Files(t) == ExpectedFiles(m)
    && (forall p <- t :: t[p].Directory? ==> exists f <- ExpectedFiles(m) :: IsAbove(p, f))
  }

  method VerifyBundle(env: Env, t: Tree, digest: string) returns (r: Option<Manifest>)
    ensures r.Some? ==> AcceptsBundle(env, t, digest, r.value)
    ensures r.None? ==> forall m :: !AcceptsBundle(env, t, digest, m)
  {
    hide IsManifest, IsDigest, MatchesEntry;
    if !IsDigest(digest) || !HasFile(t, MANIFEST_JSON) || !HasFile(t, MANIFEST_SHA) {
      return None;
    }
    var manifestBytes := t[MANIFEST_JSON].data;
    if env.sha(manifestBytes) != digest || t[MANIFEST_SHA].data != Sidecar(digest) {
      return None;
    }
    var loaded := Load(env, manifestBytes);
    if loaded.None? || !env.matchesTarget(loaded.value) {
      return None;
    }
    var m := loaded.value;
    var verified: set<Path> := {MANIFEST_JSON, MANIFEST_SHA};
    for i := 0 to |m.files|
      invariant verified == {MANIFEST_JSON, MANIFEST_SHA} + PathsOf(m.files[..i])
      invariant forall e <- m.files[..i] :: MatchesEntry(env, t, e)
    {
      assert m.files[..i + 1] == m.files[..i] + [m.files[i]];
      if !MatchesEntry(env, t, m.files[i]) {
        assert m.files[i] in m.files;
        return None;
      }
      verified := verified + {m.files[i].path};
    }
    assert m.files[..|m.files|] == m.files;
    var actual: set<Path> := {};
    var rest := t.Keys;
    while rest != {}
      invariant rest <= t.Keys
      invariant forall p <- t :: p in rest || !t[p].Special?
      invariant actual == set p | p in t && p !in rest && t[p].File?
      decreases |rest|
    {
      var p :| p in rest;
      rest := rest - {p};
      if t[p].Special? {
        return None;
      }
      if t[p].File? {
        actual := actual + {p};
      }
    }
    assert actual == Files(t);
    if actual != verified {
      return None;
    }
    rest := t.Keys;
    while rest != {}
      invariant rest <= t.Keys
      invariant forall p <- t :: p in rest || (t[p].Directory? ==> exists f <- verified :: IsAbove(p, f))
      decreases |rest|
    {
      var p :| p in rest;
      rest := rest - {p};
      if t[p].Directory? && !(exists f <- verified :: IsAbove(p, f)) {
        return None;
      }
    }
    return Some(m);
  }

  /** A verified tree holds its files, the directories above them, and nothing else. */
  lemma VerifiedTreeIsClosed(env: Env, t: Tree, digest: string, m: Manifest)
    requires IsTree(t) && AcceptsBundle(env, t, digest, m)
    ensures t.Keys == ExpectedFiles(m) + DirectoriesByPrefix(ExpectedFiles(m))
    ensures forall p <- t :: t[p].Directory? <==> p in DirectoriesByPrefix(ExpectedFiles(m))
  {
    hide IsManifest, IsDigest, MatchesEntry, HasManifest;
    var files := ExpectedFiles(m);
    ClosuresCoincide(files);
    forall p | p in t ensures t[p].Directory? <==> p in DirectoriesByPrefix(files) {
      if t[p].Directory? {
        var f :| f in files && IsAbove(p, f);
        assert f in Files(t);
      }
      if p in DirectoriesByPrefix(files) {
        var f :| f in files && IsAbove(p, f) && p != f;
        assert f in Files(t) && p == f[..|p|];
      }
    }
    forall p | p in DirectoriesByPrefix(files) ensures p in t {
      var f :| f in files && IsAbove(p, f) && p != f;
      assert f in Files(t) && p == f[..|p|];
    }
    forall p | p in files ensures p in t {
      assert p in Files(t);
    }
    forall p | p in t ensures p in files || p in DirectoriesByPrefix(files) {
      if t[p].File? {
        assert p in Files(t);
      }
    }
  }

  // ---------------------------------------------------------------------------
  // What an accepted bundle looks like, file by file

  /** The 64 digits of a digest and a line feed. */
  predicate IsDigestLine(data: Bytes, digest: string) {
    && |data| == 65 && |digest| == 64
    && (forall i | 0 <= i < 64 :: data[i] == digest[i] as int)
    && data[64] == 10
  }

  predicate IsListed(t: Tree, m: Manifest, p: Path) {
    p == ["manifest.json"] || p == ["manifest.sha256"] || exists e <- m.files :: e.path == p
  }

  /** What a manifest may list: files with plain paths, each once, of mode 0644 or 0755, and exactly one package below
  `sdk/amber-typescript/`. */
  predicate ListsFiles(m: Manifest) {
    && (forall e <- m.files ::
      && |e.path| >= 1 && e.path != ["manifest.json"] && e.path != ["manifest.sha256"]
      && (forall part <- e.path ::
        part != "" && part != "." && part != ".." && '/' !in part && '\\' !in part && '\0' !in part)
      && (e.mode == 0x1A4 || e.mode == 0x1ED)
      && (e.isTypeScript <==>
        && |e.path| >= 3 && e.path[0] == "sdk" && e.path[1] == "amber-typescript"
        && EndsWith(e.path[|e.path| - 1], ".tgz")))
    && (forall i, j | 0 <= i < j < |m.files| :: m.files[i].path != m.files[j].path)
    && (exists i | 0 <= i < |m.files| :: IsOnlyPackage(m, i))
  }

  predicate IsOnlyPackage(m: Manifest, i: int) {
    forall j | 0 <= j < |m.files| :: m.files[j].isTypeScript <==> j == i
  }

  predicate EndsWith(s: string, suffix: string) { |s| >= |suffix| && s[|s| - |suffix|..] == suffix }

  lemma ManifestLists(m: Manifest)
    ensures IsManifest(m) <==> ListsFiles(m)
  {
    forall e <- m.files ensures IsTypeScriptPath(e.path) <==>
      |e.path| >= 3 && e.path[0] == "sdk" && e.path[1] == "amber-typescript" && EndsWith(e.path[|e.path| - 1], ".tgz")
    {
    }
    hide IsTypeScriptPath, EndsWith;
    if IsManifest(m) {
      OneIsTypeScript(m);
    }
    if ListsFiles(m) {
      var i :| 0 <= i < |m.files| && IsOnlyPackage(m, i);
      assert m.files[i] in m.files && m.files[i].isTypeScript;
    }
  }

  lemma OneIsTypeScript(m: Manifest)
    requires IsManifest(m)
    ensures exists i | 0 <= i < |m.files| :: IsOnlyPackage(m, i)
  {
    hide IsSafe, IsMetadata, IsTypeScriptPath;
    var e :| e in m.files && e.isTypeScript;
    var i :| 0 <= i < |m.files| && m.files[i] == e;
    forall j | 0 <= j < |m.files| ensures m.files[j].isTypeScript <==> j == i {
      assert m.files[j] in m.files;
    }
    assert IsOnlyPackage(m, i);
  }

  /** Every listed file with its size, digest and mode, the canonical bytes of the manifest, the line with their
  digest, directories only above files, and nothing else. */
  predicate IsLaidOut(env: Env, t: Tree, digest: string, m: Manifest) {
    && |digest| == 64 && (forall c <- digest :: '0' <= c <= '9' || 'a' <= c <= 'f')
    && ListsFiles(m) && env.matchesTarget(m)
    && env.decode(env.encode(m)) == Some(m) && env.sha(env.encode(m)) == digest
    && ["manifest.json"] in t && t[["manifest.json"]].File? && t[["manifest.json"]].data == env.encode(m)
    && ["manifest.sha256"] in t && t[["manifest.sha256"]].File? && IsDigestLine(t[["manifest.sha256"]].data, digest)
    && (forall e <- m.files ::
      && e.path in t && t[e.path].File?
      && |t[e.path].data| == e.size && env.sha(t[e.path].data) == e.sha256 && t[e.path].mode == e.mode
      && (e.isTypeScript ==> env.isTypeScriptPackage(t[e.path].data)))
    && forall p <- t ::
      if t[p].File? then IsListed(t, m, p)
      else t[p].Directory? && exists f <- t :: t[f].File? && IsAbove(p, f)
  }

  lemma DigestLineIsSidecar(data: Bytes, digest: string)
    requires IsDigest(digest)
    ensures data == Sidecar(digest) <==> IsDigestLine(data, digest)
  {
    var line := digest + "\n";
    assert forall i | 0 <= i < 64 :: digest[i] in digest && line[i] == digest[i];
    assert line[64] == '\n' && '\n' as int == 10;
    var sidecar := Sidecar(digest);
    assert forall i | 0 <= i < 64 :: sidecar[i] == digest[i] as int;
  }

  lemma LaidOutFiles(env: Env, t: Tree, digest: string, m: Manifest)
    requires IsLaidOut(env, t, digest, m)
    ensures Files(t) == ExpectedFiles(m)
  {
    hide ListsFiles, IsDigestLine, IsAbove;
  }

  lemma AcceptedIsLaidOut(env: Env, t: Tree, digest: string, m: Manifest)
    requires AcceptsBundle(env, t, digest, m)
    ensures IsLaidOut(env, t, digest, m)
  {
    DigestLineIsSidecar(t[MANIFEST_SHA].data, digest);
    ManifestLists(m);
    hide IsManifest, ListsFiles, IsDigestLine, IsAbove, Sidecar;
    forall e <- m.files ensures MatchesEntry(env, t, e) && e.path in t {
    }
    forall p <- t
      ensures if t[p].File? then IsListed(t, m, p) else t[p].Directory? && exists f <- t :: t[f].File? && IsAbove(p, f)
    {
      if t[p].File? {
        assert p in Files(t);
      } else {
        var f :| f in ExpectedFiles(m) && IsAbove(p, f);
        assert f in Files(t);
      }
    }
  }

  lemma LaidOutIsAccepted(env: Env, t: Tree, digest: string, m: Manifest)
    requires IsLaidOut(env, t, digest, m)
    ensures AcceptsBundle(env, t, digest, m)
  {
    LaidOutFiles(env, t, digest, m);
    assert IsDigest(digest);
    DigestLineIsSidecar(t[MANIFEST_SHA].data, digest);
    ManifestLists(m);
    hide IsManifest, ListsFiles, IsDigestLine, IsAbove, Sidecar, IsDigest, IsListed;
    forall p <- t | t[p].Directory? ensures exists f <- ExpectedFiles(m) :: IsAbove(p, f) {
      var f :| f in t && t[f].File? && IsAbove(p, f);
      assert f in Files(t);
    }
  }

  /** A bundle is accepted with a manifest exactly when it is laid out so, and then with no other. */
  lemma AcceptedIffLaidOut(env: Env, t: Tree, digest: string, m: Manifest)
    ensures AcceptsBundle(env, t, digest, m) <==> IsLaidOut(env, t, digest, m)
    ensures AcceptsBundle(env, t, digest, m) ==> forall n | AcceptsBundle(env, t, digest, n) :: n == m
  {
    hide IsLaidOut, IsDigest, MatchesEntry, IsManifest;
    if AcceptsBundle(env, t, digest, m) {
      AcceptedIsLaidOut(env, t, digest, m);
    }
    if IsLaidOut(env, t, digest, m) {
      LaidOutIsAccepted(env, t, digest, m);
    }
  }
}
