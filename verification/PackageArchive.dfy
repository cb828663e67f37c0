/** Distribution archives: export, the check of `verify_archive`, and the second pass that extracts. */
module PackageArchive {
  import opened StringOrder
  import opened PackagePaths
  import opened PackageBundle

  datatype Kind = DirectoryMember | FileMember | OtherMember

  /** A member of the tar stream; `data` is what its stream yields, which may end before `size`. */
  datatype Member = Member(name: string, kind: Kind, mode: nat, size: nat, data: Bytes)

  const MAX_ARCHIVE_MEMBERS := 100_000
  const MAX_EXPANDED_BYTES := 2 * 1024 * 1024 * 1024
  const MAX_METADATA_BYTES := 16 * 1024 * 1024

  /** The permission bits, `stat.S_IMODE`. */
  function PermissionBits(mode: nat): nat { mode % 0x1000 }

  // ---------------------------------------------------------------------------
  // Members

  predicate IsNamed(x: Member) { SafeRelative(x.name).Some? }

  function PathOf(x: Member): Path { if IsNamed(x) then SafeRelative(x.name).value else [] }

  /** The metadata checks of the first pass on one member. */
  predicate IsPlausible(x: Member) {
    IsNamed(x) && match x.kind
      case DirectoryMember => x.size == 0 && PermissionBits(x.mode) == MODE_755
      case FileMember =>
        && (x.mode == MODE_644 || x.mode == MODE_755)
        && x.size <= MAX_EXPANDED_BYTES && |x.data| == x.size
        && (IsMetadata(PathOf(x)) ==> x.size <= MAX_METADATA_BYTES)
      case OtherMember => false
  }

  function TotalSize(members: seq<Member>): nat {
    if members == [] then 0
    else
      var x := members[|members| - 1];
      TotalSize(members[..|members| - 1]) + if x.kind.FileMember? then x.size else 0
  }

  predicate DistinctPaths(members: seq<Member>) {
    forall i, j | 0 <= i < j < |members| :: PathOf(members[i]) != PathOf(members[j])
  }

  /** Comparing parsed paths finds the same repetitions as comparing names. */
  lemma DistinctPathsAreDistinctNames(members: seq<Member>)
    requires forall x <- members :: IsNamed(x)
    ensures DistinctPaths(members) <==> forall i, j | 0 <= i < j < |members| :: members[i].name != members[j].name
  {
    hide SafeRelative;
    forall i | 0 <= i < |members| ensures Join(PathOf(members[i])) == members[i].name {
      assert members[i] in members;
      PathDeterminesName(members[i].name);
    }
    if DistinctPaths(members) {
      forall i, j | 0 <= i < j < |members| ensures members[i].name != members[j].name {
        assert PathOf(members[i]) != PathOf(members[j]);
      }
    }
  }

  predicate IsTypeScriptMember(x: Member) { x.kind.FileMember? && IsTypeScriptPath(PathOf(x)) }

  predicate OneTypeScriptMember(members: seq<Member>) {
    forall i, j | 0 <= i < j < |members| :: !(IsTypeScriptMember(members[i]) && IsTypeScriptMember(members[j]))
  }

  predicate IsScanned(members: seq<Member>) {
    && |members| <= MAX_ARCHIVE_MEMBERS
    && (forall x <- members :: IsPlausible(x))
    && DistinctPaths(members)
    && TotalSize(members) <= MAX_EXPANDED_BYTES
    && OneTypeScriptMember(members)
  }

  function NodeOf(x: Member): Node {
    if x.kind.DirectoryMember? then Directory(MODE_755) else File(x.mode, x.data)
  }

  /** The tree that the members describe. */
  function TreeOf(members: seq<Member>): Tree {
    if members == [] then map[]
    else
      var x := members[|members| - 1];
      TreeOf(members[..|members| - 1])[PathOf(x) := NodeOf(x)]
  }

  function Directories(t: Tree): set<Path> { set p | p in t && t[p].Directory? }

  /** What `verify_archive` accepts, with the manifest it returns. */
  predicate AcceptsArchive(env: Env, members: seq<Member>, digest: string, m: Manifest) {
    var t := TreeOf(members);
    && members != [] && IsScanned(members)
    && HasManifest(env, t, digest, m)
    && Files(t) == ExpectedFiles(m)
    && Directories(t) == DirectoriesByChain(ExpectedFiles(m))
    && (forall e <- m.files :: MatchesEntry(env, t, e))
    && t[MANIFEST_JSON].mode == MODE_644 && t[MANIFEST_SHA].mode == MODE_644
  }

  // ---------------------------------------------------------------------------
  // Trees of members

  lemma {:induction false} TreeEntries(members: seq<Member>)
    requires DistinctPaths(members)
    ensures forall p :: p in TreeOf(members) <==> exists x <- members :: PathOf(x) == p
    ensures forall x <- members :: PathOf(x) in TreeOf(members) && TreeOf(members)[PathOf(x)] == NodeOf(x)
  {
    hide NodeOf, PathOf;
    if members != [] {
      var front, last := members[..|members| - 1], members[|members| - 1];
      assert members == front + [last];
      TreeEntries(front);
      forall x | x in front ensures PathOf(x) != PathOf(last) {
        var i :| 0 <= i < |front| && front[i] == x;
        assert members[i] == x;
      }
    }
  }

  // ---------------------------------------------------------------------------
  // Export

  /** The directory entries as members, in the order of their names. */
  ghost function Names(t: Tree): seq<string> { SortedSet(set p | p in t :: Join(p)) }

  function Exported(t: Tree, name: string): Member {
    var p := PathOf(Member(name, DirectoryMember, 0, 0, []));
    if p in t && t[p].File? then Member(name, FileMember, t[p].mode, |t[p].data|, t[p].data)
    else Member(name, DirectoryMember, MODE_755, 0, [])
  }

  function ExportAll(t: Tree, names: seq<string>): (r: seq<Member>)
    ensures |r| == |names| && forall i | 0 <= i < |r| :: r[i] == Exported(t, names[i])
  {
    seq(|names|, i requires 0 <= i < |names| => Exported(t, names[i]))
  }

  ghost function Export(t: Tree): seq<Member> { ExportAll(t, Names(t)) }

  method ExportMembers(t: Tree) returns (members: seq<Member>)
    ensures members == Export(t)
  {
    hide SortedSet, Exported;
    var names := SortKeys(set p | p in t :: Join(p));
    members := [];
    for i := 0 to |names|
      invariant members == ExportAll(t, names)[..i]
    {
      members := members + [Exported(t, names[i])];
    }
    assert ExportAll(t, names)[..|names|] == ExportAll(t, names);
  }

  /** The tree with every directory mode set to 0755. */
  function Normalised(t: Tree): Tree { map p | p in t :: if t[p].Directory? then Directory(MODE_755) else t[p] }

  predicate AreSafe(t: Tree) { forall p <- t :: IsSafe(p) }

  lemma ExportedPath(t: Tree, p: Path)
    requires IsSafe(p)
    ensures PathOf(Exported(t, Join(p))) == p && IsNamed(Exported(t, Join(p)))
    ensures Exported(t, Join(p)).kind == if p in t && t[p].File? then FileMember else DirectoryMember
    ensures p in t && !t[p].Special? ==> NodeOf(Exported(t, Join(p))) == Normalised(t)[p]
    ensures Exported(t, Join(p)).size == |Exported(t, Join(p)).data|
    ensures (p in t && t[p].File?) || (Exported(t, Join(p)).size == 0 && Exported(t, Join(p)).mode == MODE_755)
    ensures p in t && t[p].File? ==> Exported(t, Join(p)).mode == t[p].mode
  {
    hide SafeRelative, Join, IsSafe;
    NameReadsBack(p);
  }

  lemma NameComesFrom(t: Tree, name: string) returns (p: Path)
    requires name in Names(t)
    ensures p in t && Join(p) == name
  {
    p :| p in t && Join(p) == name;
  }

  lemma ExportedPathsDiffer(t: Tree)
    requires AreSafe(t)
    ensures DistinctPaths(Export(t))
  {
    hide IsSafe, Join, PathOf, Exported;
    var names, members := Names(t), Export(t);
    forall i, j | 0 <= i < j < |members| ensures PathOf(members[i]) != PathOf(members[j]) {
      var p := NameComesFrom(t, names[i]);
      var q := NameComesFrom(t, names[j]);
      ExportedPath(t, p);
      ExportedPath(t, q);
      assert Less(names[i], names[j]);
      LessIrreflexive(names[i]);
    }
  }

  /** Every member is the export of an entry, and every entry is exported. */
  lemma ExportedFrom(t: Tree, x: Member) returns (p: Path)
    requires AreSafe(t) && x in Export(t)
    ensures p in t && x == Exported(t, Join(p)) && PathOf(x) == p && IsNamed(x)
  {
    hide IsSafe, Join, PathOf, Exported, IsNamed;
    var i :| 0 <= i < |Export(t)| && Export(t)[i] == x;
    p := NameComesFrom(t, Names(t)[i]);
    ExportedPath(t, p);
  }

  lemma IsExported(t: Tree, p: Path)
    requires AreSafe(t) && p in t
    ensures Exported(t, Join(p)) in Export(t)
  {
    hide IsSafe, Join, Exported;
    assert Join(p) in Names(t);
    var i :| 0 <= i < |Names(t)| && Names(t)[i] == Join(p);
    assert Export(t)[i] == Exported(t, Join(p));
  }

  /** The exported members describe the bundle's own tree. */
  lemma ExportDescribesTree(t: Tree)
    requires AreSafe(t) && forall p <- t :: !t[p].Special?
    ensures DistinctPaths(Export(t)) && TreeOf(Export(t)) == Normalised(t)
  {
    hide IsSafe, Join, PathOf, Exported, NodeOf, TreeOf, Export, DistinctPaths, IsNamed;
    ExportedPathsDiffer(t);
    TreeEntries(Export(t));
    var tree := TreeOf(Export(t));
    forall p | p in tree ensures p in t && tree[p] == Normalised(t)[p] {
      var x :| x in Export(t) && PathOf(x) == p;
      var q := ExportedFrom(t, x);
      ExportedPath(t, q);
    }
    forall p | p in t ensures p in tree {
      IsExported(t, p);
      ExportedPath(t, p);
    }
  }

  // ---------------------------------------------------------------------------
  // An exported bundle passes the check

  /** The limits that the first pass puts on sizes. */
  predicate IsWithinLimits(members: seq<Member>) {
    && |members| <= MAX_ARCHIVE_MEMBERS && TotalSize(members) <= MAX_EXPANDED_BYTES
    && forall x <- members :: x.kind.FileMember? && IsMetadata(PathOf(x)) ==> x.size <= MAX_METADATA_BYTES
  }

  lemma {:induction false} SizeIsBelowTotal(members: seq<Member>, x: Member)
    requires x in members && x.kind.FileMember?
    ensures x.size <= TotalSize(members)
  {
    var front, last := members[..|members| - 1], members[|members| - 1];
    assert members == front + [last];
    if x in front {
      SizeIsBelowTotal(front, x);
    }
  }

  predicate HasPlainMetadata(t: Tree) {
    && HasFile(t, MANIFEST_JSON) && t[MANIFEST_JSON].mode == MODE_644
    && HasFile(t, MANIFEST_SHA) && t[MANIFEST_SHA].mode == MODE_644
  }

  lemma VerifiedPathsAreSafe(env: Env, t: Tree, digest: string, m: Manifest)
    requires IsTree(t) && AcceptsBundle(env, t, digest, m)
    ensures AreSafe(t)
  {
    hide DirectoriesByPrefix, ExpectedFiles, IsSafe, IsManifest, MatchesEntry, IsTree, IsDigest;
    VerifiedTreeIsClosed(env, t, digest, m);
    assert IsManifest(m);
    forall p | p in t ensures IsSafe(p) {
      ExpectedPathIsSafe(m, p);
    }
  }

  lemma ExpectedPathIsSafe(m: Manifest, p: Path)
    requires IsManifest(m) && (p in ExpectedFiles(m) || p in DirectoriesByPrefix(ExpectedFiles(m)))
    ensures IsSafe(p)
  {
    MetadataIsSafe();
    hide IsSafe, ProperPrefixes, IsMetadata, IsTypeScriptPath;
    assert forall f <- ExpectedFiles(m) :: IsSafe(f);
    if p !in ExpectedFiles(m) {
      var f :| f in ExpectedFiles(m) && p in ProperPrefixes(f);
      SafePrefix(f, p);
    }
  }

  lemma MetadataIsSafe()
    ensures IsSafe(MANIFEST_JSON) && IsSafe(MANIFEST_SHA)
  {
  }

  lemma SafePrefix(f: Path, p: Path)
    requires IsSafe(f) && p in ProperPrefixes(f)
    ensures IsSafe(p)
  {
    forall part | part in p ensures part in f {
    }
  }

  /** The permission bits of a file of a verified bundle. */
  lemma VerifiedMode(env: Env, t: Tree, digest: string, m: Manifest, p: Path)
    requires AcceptsBundle(env, t, digest, m) && HasPlainMetadata(t) && p in t && t[p].File?
    ensures t[p].mode == MODE_644 || t[p].mode == MODE_755
  {
    hide HasManifest, IsAbove, IsSafe;
    assert IsManifest(m) by {
      ManifestIsChecked(env, t, digest, m);
    }
    assert p in Files(t);
    if !IsMetadata(p) {
      var e :| e in m.files && e.path == p;
      assert MatchesEntry(env, t, e);
    }
  }

  lemma ManifestIsChecked(env: Env, t: Tree, digest: string, m: Manifest)
    requires HasManifest(env, t, digest, m)
    ensures IsManifest(m)
  {
  }

  lemma ExportIsPlausible(env: Env, t: Tree, digest: string, m: Manifest, x: Member)
    requires AreSafe(t) && AcceptsBundle(env, t, digest, m) && HasPlainMetadata(t) && IsWithinLimits(Export(t))
    requires x in Export(t)
    ensures IsPlausible(x)
  {
    hide IsSafe, Join, Export, IsNamed, AcceptsBundle, HasPlainMetadata, Exported, PathOf, TotalSize;
    var p := ExportedFrom(t, x);
    ExportedPath(t, p);
    if x.kind.FileMember? {
      VerifiedMode(env, t, digest, m, p);
      SizeIsBelowTotal(Export(t), x);
      NoSpecials(env, t, digest, m, p);
    } else {
      assert PermissionBits(MODE_755) == MODE_755;
    }
  }

  lemma NoSpecials(env: Env, t: Tree, digest: string, m: Manifest, p: Path)
    requires AcceptsBundle(env, t, digest, m) && p in t
    ensures !t[p].Special?
  {
  }

  lemma OneTypeScriptExport(env: Env, t: Tree, digest: string, m: Manifest)
    requires AreSafe(t) && AcceptsBundle(env, t, digest, m)
    ensures OneTypeScriptMember(Export(t))
  {
    var members := Export(t);
    ExportedPathsDiffer(t);
    hide AreSafe, IsSafe, Join, Export, IsNamed, HasManifest, IsTypeScriptPath, IsAbove;
    forall i, j | 0 <= i < j < |members| ensures !(IsTypeScriptMember(members[i]) && IsTypeScriptMember(members[j])) {
      if IsTypeScriptMember(members[i]) && IsTypeScriptMember(members[j]) {
        var d := TypeScriptEntry(env, t, digest, m, members[i]);
        var e := TypeScriptEntry(env, t, digest, m, members[j]);
        ManifestIsChecked(env, t, digest, m);
        assert false;
      }
    }
  }

  lemma TypeScriptEntry(env: Env, t: Tree, digest: string, m: Manifest, x: Member) returns (e: FileEntry)
    requires AreSafe(t) && AcceptsBundle(env, t, digest, m) && x in Export(t) && IsTypeScriptMember(x)
    ensures e in m.files && e.path == PathOf(x) && e.isTypeScript
  {
    hide IsSafe, Join, Export, IsNamed, HasManifest, Exported, PathOf, IsAbove, MatchesEntry;
    var p := ExportedFrom(t, x);
    ExportedPath(t, p);
    ManifestIsChecked(env, t, digest, m);
    assert p in Files(t);
    assert !IsMetadata(p) by {
      assert |p| >= 3;
    }
    e :| e in m.files && e.path == p;
  }

  /** Normalising directory modes changes nothing that the checks look at. */
  lemma NormalisedMatches(env: Env, t: Tree, digest: string, m: Manifest)
    requires AcceptsBundle(env, t, digest, m)
    ensures AcceptsBundle(env, Normalised(t), digest, m)
  {
    var n := Normalised(t);
    forall e | e in m.files ensures MatchesEntry(env, n, e) {
      assert MatchesEntry(env, t, e);
    }
    hide IsManifest, IsDigest, MatchesEntry;
    assert Files(n) == Files(t);
  }

  /** The archive of a verified bundle passes the archive check, with the same manifest, exactly when its
  two manifest files have mode 0644; sizes within the limits. */
  lemma ExportPassesVerification(env: Env, t: Tree, digest: string, m: Manifest)
    requires IsTree(t) && AcceptsBundle(env, t, digest, m) && IsWithinLimits(Export(t))
    ensures AcceptsArchive(env, Export(t), digest, m) <==> HasPlainMetadata(t)
  {
    hide AreSafe, IsPlausible, Export, IsTree, AcceptsBundle, IsScanned, TreeOf, Normalised, DistinctPaths, Directories;
    VerifiedPathsAreSafe(env, t, digest, m);
    NothingIsSpecial(env, t, digest, m);
    ExportDescribesTree(t);
    NormalisedMatches(env, t, digest, m);
    NormalisedDirectories(env, t, digest, m);
    if HasPlainMetadata(t) {
      ExportIsScanned(env, t, digest, m);
      IsExported(t, MANIFEST_JSON);
    }
    AcceptedNormalised(env, Normalised(t), digest, m);
    NormalisedMetadata(t);
    hide HasManifest, ExpectedFiles, DirectoriesByChain, Files, MatchesEntry;
  }

  /** The tree with another mode for its `manifest.json`. */
  function WithManifestMode(t: Tree, mode: nat): Tree
    requires HasFile(t, MANIFEST_JSON)
  {
    t[MANIFEST_JSON := File(mode, t[MANIFEST_JSON].data)]
  }

  lemma ManifestModeIsNotChecked(env: Env, t: Tree, digest: string, m: Manifest, mode: nat)
    requires IsTree(t) && AcceptsBundle(env, t, digest, m)
    ensures var u := WithManifestMode(t, mode); IsTree(u) && AcceptsBundle(env, u, digest, m)
  {
    var u := WithManifestMode(t, mode);
    hide IsManifest, IsDigest, MatchesEntry, IsTree;
    WithManifestModeIsTree(t, mode);
    ManifestIsChecked(env, t, digest, m);
    EntriesStillMatch(env, t, m, mode);
    assert Files(u) == Files(t);
  }

  lemma WithManifestModeIsTree(t: Tree, mode: nat)
    requires IsTree(t) && HasFile(t, MANIFEST_JSON)
    ensures IsTree(WithManifestMode(t, mode))
  {
  }

  lemma EntriesStillMatch(env: Env, t: Tree, m: Manifest, mode: nat)
    requires IsManifest(m) && HasFile(t, MANIFEST_JSON) && forall e <- m.files :: MatchesEntry(env, t, e)
    ensures forall e <- m.files :: MatchesEntry(env, WithManifestMode(t, mode), e)
  {
    hide IsSafe, IsTypeScriptPath;
    forall e | e in m.files ensures MatchesEntry(env, WithManifestMode(t, mode), e) {
      assert MatchesEntry(env, t, e) && !IsMetadata(e.path);
    }
  }

  /** Any verified bundle with its `manifest.json` set to mode 0600 still verifies, and its export is refused. */
  lemma PrivateManifest(env: Env, t: Tree, digest: string, m: Manifest)
    requires IsTree(t) && AcceptsBundle(env, t, digest, m)
    ensures var u := WithManifestMode(t, 0x180);
      AcceptsBundle(env, u, digest, m) && !AcceptsArchive(env, Export(u), digest, m)
  {
    var u := WithManifestMode(t, 0x180);
    ManifestModeIsNotChecked(env, t, digest, m, 0x180);
    hide AreSafe, Export, IsTree, AcceptsBundle, IsScanned, TreeOf, DistinctPaths, Directories;
    VerifiedPathsAreSafe(env, u, digest, m);
    NothingIsSpecial(env, u, digest, m);
    ExportDescribesTree(u);
    NormalisedMetadata(u);
  }

  lemma NothingIsSpecial(env: Env, t: Tree, digest: string, m: Manifest)
    requires AcceptsBundle(env, t, digest, m)
    ensures forall p <- t :: !t[p].Special?
    ensures HasFile(t, MANIFEST_JSON) && HasFile(t, MANIFEST_SHA)
  {
  }

  lemma AcceptedNormalised(env: Env, t: Tree, digest: string, m: Manifest)
    requires AcceptsBundle(env, t, digest, m)
    ensures HasManifest(env, t, digest, m) && Files(t) == ExpectedFiles(m)
    ensures forall e <- m.files :: MatchesEntry(env, t, e)
  {
  }

  lemma NormalisedMetadata(t: Tree)
    requires HasFile(t, MANIFEST_JSON) && HasFile(t, MANIFEST_SHA)
    ensures var n := Normalised(t);
      && HasFile(n, MANIFEST_JSON) && n[MANIFEST_JSON].mode == t[MANIFEST_JSON].mode
      && HasFile(n, MANIFEST_SHA) && n[MANIFEST_SHA].mode == t[MANIFEST_SHA].mode
  {
  }

  lemma NormalisedDirectories(env: Env, t: Tree, digest: string, m: Manifest)
    requires IsTree(t) && AcceptsBundle(env, t, digest, m)
    ensures Directories(Normalised(t)) == DirectoriesByChain(ExpectedFiles(m))
  {
    VerifiedTreeIsClosed(env, t, digest, m);
    ClosuresCoincide(ExpectedFiles(m));
    hide IsTree, AcceptsBundle;
  }

  lemma ExportIsScanned(env: Env, t: Tree, digest: string, m: Manifest)
    requires AreSafe(t) && AcceptsBundle(env, t, digest, m) && HasPlainMetadata(t) && IsWithinLimits(Export(t))
    requires DistinctPaths(Export(t))
    ensures IsScanned(Export(t))
  {
    hide AreSafe, IsPlausible, Export, AcceptsBundle, HasPlainMetadata, OneTypeScriptMember, DistinctPaths;
    forall x | x in Export(t) ensures IsPlausible(x) {
      ExportIsPlausible(env, t, digest, m, x);
    }
    OneTypeScriptExport(env, t, digest, m);
  }
}
