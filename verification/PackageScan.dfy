/** The first pass over an archive, as the loop it is. */
module PackageScan {
  import opened Text
  import opened PackagePaths
  import opened PackageBundle
  import opened PackageArchive

  datatype Observed = Observed(size: nat, mode: nat, sha256: string)

  function Observe(env: Env, node: Node): Observed
    requires node.File?
  {
    Observed(|node.data|, node.mode, env.sha(node.data))
  }

  /** The variables of the loop. */
  datatype Scan = Scan(
    seenFiles: map<Path, Observed>,
    directories: set<Path>,
    totalSize: nat,
    manifestBytes: Option<Bytes>,
    sidecarBytes: Option<Bytes>,
    typeScript: Option<Bytes>)

  function FileData(t: Tree, p: Path): Option<Bytes> { if HasFile(t, p) then Some(t[p].data) else None }

  /** The variables describe the members read so far. */
  ghost predicate Describes(env: Env, members: seq<Member>, s: Scan) {
    var t := TreeOf(members);
    && IsScanned(members)
    && s.seenFiles.Keys == Files(t) && (forall p <- s.seenFiles :: s.seenFiles[p] == Observe(env, t[p]))
    && s.directories == Directories(t)
    && s.totalSize == TotalSize(members)
    && s.manifestBytes == FileData(t, MANIFEST_JSON) && s.sidecarBytes == FileData(t, MANIFEST_SHA)
    && HoldsTypeScript(members, s.typeScript)
  }

  function AddFile(env: Env, s: Scan, x: Member): Scan {
    var p := PathOf(x);
    Scan(
      s.seenFiles[p := Observed(x.size, x.mode, env.sha(x.data))], s.directories, s.totalSize + x.size,
      if p == MANIFEST_JSON then Some(x.data) else s.manifestBytes,
      if p == MANIFEST_SHA then Some(x.data) else s.sidecarBytes,
      if IsTypeScriptPath(p) then Some(x.data) else s.typeScript)
  }

  lemma OneMoreMember(members: seq<Member>, x: Member)
    ensures TreeOf(members + [x]) == TreeOf(members)[PathOf(x) := NodeOf(x)]
    ensures TotalSize(members + [x]) == TotalSize(members) + if x.kind.FileMember? then x.size else 0
  {
    assert (members + [x])[..|members|] == members;
  }

  lemma DistinctMore(members: seq<Member>, x: Member)
    requires DistinctPaths(members) && PathOf(x) !in TreeOf(members)
    ensures DistinctPaths(members + [x])
  {
    TreeEntries(members);
    hide PathOf, TreeOf;
    var all := members + [x];
    forall i, j | 0 <= i < j < |all| ensures PathOf(all[i]) != PathOf(all[j]) {
      assert all[i] in members;
    }
  }

  lemma OneTypeScriptMore(members: seq<Member>, x: Member)
    requires OneTypeScriptMember(members) && (IsTypeScriptMember(x) ==> forall y <- members :: !IsTypeScriptMember(y))
    ensures OneTypeScriptMember(members + [x])
  {
    hide IsTypeScriptMember;
    var all := members + [x];
    forall i, j | 0 <= i < j < |all| ensures !(IsTypeScriptMember(all[i]) && IsTypeScriptMember(all[j])) {
      assert all[i] in members;
    }
  }

  lemma ScannedMore(members: seq<Member>, x: Member)
    requires IsScanned(members) && IsPlausible(x) && |members| < MAX_ARCHIVE_MEMBERS
    requires PathOf(x) !in TreeOf(members)
    requires TotalSize(members) + (if x.kind.FileMember? then x.size else 0) <= MAX_EXPANDED_BYTES
    requires IsTypeScriptMember(x) ==> forall y <- members :: !IsTypeScriptMember(y)
    ensures IsScanned(members + [x])
  {
    hide IsPlausible, PathOf, IsTypeScriptMember, OneTypeScriptMember, DistinctPaths, TreeOf, TotalSize;
    OneMoreMember(members, x);
    DistinctMore(members, x);
    OneTypeScriptMore(members, x);
  }

  lemma PutDirectory(t: Tree, p: Path)
    requires p !in t
    ensures Files(t[p := Directory(MODE_755)]) == Files(t)
    ensures Directories(t[p := Directory(MODE_755)]) == Directories(t) + {p}
    ensures forall q :: FileData(t[p := Directory(MODE_755)], q) == FileData(t, q)
    ensures forall q <- Files(t) :: q != p && q in t && t[q].File?
  {
  }

  lemma PutFile(t: Tree, p: Path, mode: nat, data: Bytes)
    requires p !in t
    ensures Files(t[p := File(mode, data)]) == Files(t) + {p}
    ensures Directories(t[p := File(mode, data)]) == Directories(t)
    ensures forall q :: FileData(t[p := File(mode, data)], q) == if q == p then Some(data) else FileData(t, q)
    ensures forall q <- Files(t) :: q != p && q in t && t[q].File?
  {
    var more := t[p := File(mode, data)];
    assert more[p] == File(mode, data);
    forall q ensures FileData(more, q) == if q == p then Some(data) else FileData(t, q) {
      assert q != p ==> HasFile(more, q) == HasFile(t, q);
    }
  }

  /** What `typeScript` holds: nothing before the package, its bytes after. */
  ghost predicate HoldsTypeScript(members: seq<Member>, ts: Option<Bytes>) {
    && (ts.None? ==> forall x <- members :: !IsTypeScriptMember(x))
    && (ts.Some? ==> exists x <- members :: IsTypeScriptMember(x) && x.data == ts.value)
  }

  lemma TypeScriptMore(members: seq<Member>, ts: Option<Bytes>, x: Member)
    requires HoldsTypeScript(members, ts)
    ensures HoldsTypeScript(members + [x], if IsTypeScriptMember(x) then Some(x.data) else ts)
  {
    hide IsTypeScriptMember;
    assert x in members + [x] && forall y <- members :: y in members + [x];
    assert forall y <- members + [x] :: y in members || y == x;
  }

  lemma AddedDirectory(env: Env, members: seq<Member>, s: Scan, x: Member)
    requires Describes(env, members, s) && x.kind.DirectoryMember? && IsPlausible(x)
    requires PathOf(x) !in TreeOf(members) && |members| < MAX_ARCHIVE_MEMBERS
    ensures Describes(env, members + [x], s.(directories := s.directories + {PathOf(x)}))
  {
    hide IsPlausible, PathOf, IsScanned, TreeOf, TotalSize, Files, Directories, FileData, HoldsTypeScript;
    TotalIsBounded(members);
    assert !IsTypeScriptMember(x);
    ScannedMore(members, x);
    OneMoreMember(members, x);
    TypeScriptMore(members, s.typeScript, x);
    PutDirectory(TreeOf(members), PathOf(x));
  }

  lemma TotalIsBounded(members: seq<Member>)
    requires IsScanned(members)
    ensures TotalSize(members) <= MAX_EXPANDED_BYTES
  {
  }

  lemma AddedFile(env: Env, members: seq<Member>, s: Scan, x: Member)
    requires Describes(env, members, s) && x.kind.FileMember? && IsPlausible(x)
    requires PathOf(x) !in TreeOf(members) && |members| < MAX_ARCHIVE_MEMBERS
    requires s.totalSize + x.size <= MAX_EXPANDED_BYTES
    requires IsTypeScriptPath(PathOf(x)) ==> s.typeScript.None?
    ensures Describes(env, members + [x], AddFile(env, s, x))
  {
    hide IsScanned, TreeOf, TotalSize, Files, Directories, FileData, HoldsTypeScript, IsTypeScriptPath, PathOf;
    hide IsPlausible;
    SizeIsLength(x);
    NoTypeScriptYet(members, s.typeScript);
    ScannedMore(members, x);
    OneMoreMember(members, x);
    TypeScriptMore(members, s.typeScript, x);
    PutFile(TreeOf(members), PathOf(x), x.mode, x.data);
  }

  lemma SizeIsLength(x: Member)
    requires IsPlausible(x) && x.kind.FileMember?
    ensures |x.data| == x.size && NodeOf(x) == File(x.mode, x.data)
  {
  }

  lemma NoTypeScriptYet(members: seq<Member>, ts: Option<Bytes>)
    requires HoldsTypeScript(members, ts)
    ensures ts.None? ==> forall x <- members :: !IsTypeScriptMember(x)
  {
  }

  /** What the longer list keeps of the shorter one. */
  lemma ScannedPrefix(members: seq<Member>, i: nat)
    requires i < |members| && IsScanned(members)
    ensures IsPlausible(members[i]) && PathOf(members[i]) !in TreeOf(members[..i])
    ensures TotalSize(members[..i]) + (if members[i].kind.FileMember? then members[i].size else 0) <= MAX_EXPANDED_BYTES
    ensures IsTypeScriptMember(members[i]) ==> forall y <- members[..i] :: !IsTypeScriptMember(y)
  {
    hide IsPlausible, PathOf, IsTypeScriptMember, TreeOf, TotalSize;
    assert members[i] in members;
    var front := members[..i];
    assert forall j, k | 0 <= j < k < |front| :: front[j] == members[j] && front[k] == members[k];
    TreeEntries(front);
    forall y | y in front ensures PathOf(y) != PathOf(members[i]) {
      var j :| 0 <= j < i && members[j] == y;
    }
    if IsTypeScriptMember(members[i]) {
      forall y | y in front ensures !IsTypeScriptMember(y) {
        var j :| 0 <= j < i && members[j] == y;
      }
    }
    TotalGrows(members, i + 1);
    assert members[..i + 1] == front + [members[i]];
    OneMoreMember(front, members[i]);
  }

  lemma {:induction false} TotalGrows(members: seq<Member>, i: nat)
    requires i <= |members|
    ensures TotalSize(members[..i]) <= TotalSize(members)
    decreases |members|
  {
    if i < |members| {
      TotalGrows(members[..|members| - 1], i);
      assert members[..|members| - 1][..i] == members[..i];
    } else {
      assert members[..i] == members;
    }
  }

  /** The loop of `verify_archive` over the members. */
  method ScanMembers(env: Env, members: seq<Member>) returns (r: Option<Scan>)
    ensures r.Some? ==> Describes(env, members, r.value)
    ensures r.None? ==> !IsScanned(members)
  {
    hide IsPlausible, PathOf, IsTypeScriptPath, IsScanned, TreeOf, TotalSize;
    var s := Scan(map[], {}, 0, None, None, None);
    NothingScanned(env);
    for i := 0 to |members|
      invariant Describes(env, members[..i], s) && i <= MAX_ARCHIVE_MEMBERS
    {
      var x := members[i];
      assert members[..i + 1] == members[..i] + [x];
      if i == MAX_ARCHIVE_MEMBERS {
        TooMany(members);
        return None;
      }
      if !IsPlausible(x) {
        Implausible(members, i);
        return None;
      }
      var p := PathOf(x);
      if p in s.directories || p in s.seenFiles {
        Repeated(members, i);
        return None;
      }
      NotSeen(env, members[..i], s, p);
      if x.kind.DirectoryMember? {
        AddedDirectory(env, members[..i], s, x);
        s := s.(directories := s.directories + {p});
        continue;
      }
      FileIsFile(x);
      if s.totalSize + x.size > MAX_EXPANDED_BYTES {
        TooLarge(members, i);
        return None;
      }
      if IsTypeScriptPath(p) && s.typeScript.Some? {
        SecondTypeScript(members, i);
        return None;
      }
      AddedFile(env, members[..i], s, x);
      s := AddFile(env, s, x);
    }
    assert members[..|members|] == members;
    r := Some(s);
  }

  lemma NothingScanned(env: Env)
    ensures Describes(env, [], Scan(map[], {}, 0, None, None, None))
  {
    assert Files(TreeOf([])) == {};
  }

  lemma TooMany(members: seq<Member>)
    requires |members| > MAX_ARCHIVE_MEMBERS
    ensures !IsScanned(members)
  {
  }

  lemma Implausible(members: seq<Member>, i: nat)
    requires i < |members| && !IsPlausible(members[i])
    ensures !IsScanned(members)
  {
    hide IsPlausible;
    assert members[i] in members;
  }

  lemma FileIsFile(x: Member)
    requires IsPlausible(x) && !x.kind.DirectoryMember?
    ensures x.kind.FileMember?
  {
  }

  lemma NotSeen(env: Env, members: seq<Member>, s: Scan, p: Path)
    requires Describes(env, members, s) && p !in s.directories && p !in s.seenFiles
    ensures p !in TreeOf(members)
  {
    TreeEntries(members);
    hide TreeOf, PathOf, IsPlausible;
    var t := TreeOf(members);
    forall q | q in t ensures q in Files(t) || q in Directories(t) {
      var x :| x in members && PathOf(x) == q;
      assert t[q] == NodeOf(x);
    }
  }

  lemma Repeated(members: seq<Member>, i: nat)
    requires i < |members| && PathOf(members[i]) in TreeOf(members[..i])
    ensures !IsScanned(members)
  {
    if IsScanned(members) {
      ScannedPrefix(members, i);
    }
  }

  lemma TooLarge(members: seq<Member>, i: nat)
    requires i < |members| && members[i].kind.FileMember?
    requires TotalSize(members[..i]) + members[i].size > MAX_EXPANDED_BYTES
    ensures !IsScanned(members)
  {
    if IsScanned(members) {
      ScannedPrefix(members, i);
    }
  }

  lemma SecondTypeScript(members: seq<Member>, i: nat)
    requires i < |members| && IsTypeScriptMember(members[i]) && exists y <- members[..i] :: IsTypeScriptMember(y)
    ensures !IsScanned(members)
  {
    if IsScanned(members) {
      ScannedPrefix(members, i);
    }
  }

  // ---------------------------------------------------------------------------
  // The checks after the loop

  method CollectDirectories(files: seq<Path>) returns (directories: set<Path>)
    ensures directories == DirectoriesByChain(set p | p in files)
  {
    directories := {};
    for i := 0 to |files|
      invariant directories == DirectoriesByChain(set p | p in files[..i])
    {
      assert files[..i + 1] == files[..i] + [files[i]];
      directories := CollectParents(files[i], directories);
    }
    assert files[..|files|] == files;
  }

  function PathList(m: Manifest): (r: seq<Path>)
    ensures |r| == |m.files| && forall i | 0 <= i < |r| :: r[i] == m.files[i].path
  {
    seq(|m.files|, i requires 0 <= i < |m.files| => m.files[i].path)
  }

  lemma ListedPaths(m: Manifest)
    ensures (set p | p in PathList(m) + [MANIFEST_JSON, MANIFEST_SHA]) == ExpectedFiles(m)
  {
    forall p ensures p in PathList(m) <==> p in EntryPaths(m) {
      if p in EntryPaths(m) {
        var e :| e in m.files && e.path == p;
        var i :| 0 <= i < |m.files| && m.files[i] == e;
        assert PathList(m)[i] == p;
      }
    }
  }

  /** The comparison of every observed file with the manifest. */
  predicate ObservedMatch(env: Env, seen: map<Path, Observed>, digest: string, manifestSize: nat, m: Manifest)
    requires seen.Keys == ExpectedFiles(m)
  {
    && (forall e <- m.files :: e.path in seen && seen[e.path] == Observed(e.size, e.mode, e.sha256))
    && seen[MANIFEST_JSON] == Observed(manifestSize, MODE_644, digest)
    && seen[MANIFEST_SHA] == Observed(|digest| + 1, MODE_644, env.sha(Sidecar(digest)))
  }

  lemma TypeScriptIsTheEntry(env: Env, members: seq<Member>, s: Scan, m: Manifest, e: FileEntry)
    requires Describes(env, members, s) && Files(TreeOf(members)) == ExpectedFiles(m) && IsManifest(m)
    requires e in m.files && e.isTypeScript
    ensures s.typeScript.Some? && HasFile(TreeOf(members), e.path) && TreeOf(members)[e.path].data == s.typeScript.value
  {
    TreeEntries(members);
    hide TreeOf, PathOf, IsPlausible, IsTypeScriptPath, IsSafe, TotalSize, OneTypeScriptMember;
    var t := TreeOf(members);
    assert e.path in Files(t);
    var x :| x in members && PathOf(x) == e.path;
    assert t[e.path] == NodeOf(x);
    assert IsPlausible(x);
    KindOfNode(x);
    assert IsTypeScriptMember(x);
    var y :| y in members && IsTypeScriptMember(y) && y.data == s.typeScript.value;
    OnlyOne(members, x, y);
  }

  lemma KindOfNode(x: Member)
    requires IsPlausible(x) && NodeOf(x).File?
    ensures x.kind.FileMember?
  {
  }

  lemma OnlyOne(members: seq<Member>, x: Member, y: Member)
    requires OneTypeScriptMember(members) && x in members && y in members && IsTypeScriptMember(x)
      && IsTypeScriptMember(y)
    ensures x == y
  {
    hide IsTypeScriptMember;
    var i :| 0 <= i < |members| && members[i] == x;
    var j :| 0 <= j < |members| && members[j] == y;
    assert i == j;
  }

  /** Given what the loop has established, the remaining checks decide acceptance. */
  lemma RemainingChecks(env: Env, members: seq<Member>, s: Scan, digest: string, m: Manifest)
    requires members != [] && Describes(env, members, s)
    requires HasManifest(env, TreeOf(members), digest, m)
    requires s.seenFiles.Keys == ExpectedFiles(m) && s.directories == DirectoriesByChain(ExpectedFiles(m))
    ensures AcceptsArchive(env, members, digest, m) <==> (
      && ObservedMatch(env, s.seenFiles, digest, |s.manifestBytes.value|, m)
      && s.typeScript.Some? && env.isTypeScriptPackage(s.typeScript.value))
  {
    var t := TreeOf(members);
    hide IsScanned, TreeOf, IsTypeScriptMember, Load, IsDigest;
    ManifestIsChecked(env, t, digest, m);
    forall e | e in m.files ensures e.path in t && t[e.path].File? {
      assert e.path in Files(t);
    }
    var ts :| ts in m.files && ts.isTypeScript;
    TypeScriptIsTheEntry(env, members, s, m, ts);
    hide IsManifest;
    assert forall e <- m.files :: s.seenFiles[e.path] == Observe(env, t[e.path]);
    assert s.seenFiles[MANIFEST_JSON] == Observe(env, t[MANIFEST_JSON]);
    assert s.seenFiles[MANIFEST_SHA] == Observe(env, t[MANIFEST_SHA]);
    forall e | e in m.files && e.isTypeScript
      ensures t[e.path].data == s.typeScript.value
    {
      TypeScriptIsTheEntry(env, members, s, m, e);
    }
  }

  method VerifyArchive(env: Env, members: seq<Member>, digest: string) returns (r: Option<Manifest>)
    ensures r.Some? ==> AcceptsArchive(env, members, digest, r.value)
    ensures r.None? ==> forall m :: !AcceptsArchive(env, members, digest, m)
  {
    hide IsScanned, TreeOf, IsDigest, MatchesEntry, IsManifest, IsTypeScriptMember, DirectoriesByChain;
    if !IsDigest(digest) {
      return None;
    }
    var scanned := ScanMembers(env, members);
    if scanned.None? || members == [] {
      return None;
    }
    var s := scanned.value;
    if s.manifestBytes.None? || s.sidecarBytes.None? {
      return None;
    }
    if env.sha(s.manifestBytes.value) != digest || s.sidecarBytes.value != Sidecar(digest) {
      return None;
    }
    var loaded := Load(env, s.manifestBytes.value);
    if loaded.None? || !env.matchesTarget(loaded.value) {
      return None;
    }
    var m := loaded.value;
    var expectedDirectories := CollectDirectories(PathList(m) + [MANIFEST_JSON, MANIFEST_SHA]);
    ListedPaths(m);
    if s.seenFiles.Keys != ExpectedFiles(m) || s.directories != expectedDirectories {
      return None;
    }
    assert HasManifest(env, TreeOf(members), digest, m);
    RemainingChecks(env, members, s, digest, m);
    if !ObservedMatch(env, s.seenFiles, digest, |s.manifestBytes.value|, m) {
      return None;
    }
    if s.typeScript.None? || !env.isTypeScriptPackage(s.typeScript.value) {
      return None;
    }
    return Some(m);
  }
}
