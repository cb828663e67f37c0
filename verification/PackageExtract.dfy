/** The second pass of `install_archive`: extract, checking every member again. */
module PackageExtract {
  import opened Text
  import opened PackagePaths
  import opened PackageBundle
  import opened PackageArchive
  import opened PackageScan

  /** What the second pass expects, worked out from the manifest alone. */
  datatype Expectation = Expectation(files: map<Path, Observed>, directories: set<Path>)

  function EntryMap(files: seq<FileEntry>): map<Path, Observed> {
    if files == [] then map[]
    else
      var e := files[|files| - 1];
      EntryMap(files[..|files| - 1])[e.path := Observed(e.size, e.mode, e.sha256)]
  }

  function Expect(env: Env, m: Manifest, digest: string): Expectation {
    var manifestBytes, sidecarBytes := env.encode(m), Sidecar(digest);
    var files := EntryMap(m.files)[
      MANIFEST_JSON := Observed(|manifestBytes|, MODE_644, env.sha(manifestBytes))][
      MANIFEST_SHA := Observed(|sidecarBytes|, MODE_644, env.sha(sidecarBytes))];
    Expectation(files, DirectoriesByPrefix(files.Keys))
  }

  // ---------------------------------------------------------------------------
  // The staging directory

  /** `p` and the directories above it. */
  function Upwards(p: Path): set<Path> { set k | 1 <= k <= |p| :: p[..k] }

  /** `mkdir(parents=True, exist_ok=True)`: fails where a file is in the way. */
  function MakeDirectories(stage: Tree, p: Path): Option<Tree> {
    if exists q <- Upwards(p) :: q in stage && !stage[q].Directory? then None
    else Some(map q | q in stage.Keys + Upwards(p) :: if q in stage then stage[q] else Directory(MODE_755))
  }

  datatype Extraction = Extraction(seen: set<Path>, stage: Tree, total: nat)

  function ExtractMember(env: Env, want: Expectation, e: Extraction, x: Member): Option<Extraction> {
    var p := PathOf(x);
    if !IsNamed(x) || p in e.seen then None
    else match x.kind
      case DirectoryMember =>
        if p !in want.directories || x.mode != MODE_755 || x.size != 0 then None
        else
          (match MakeDirectories(e.stage, p)
           case None => None
           case Some(stage) => Some(Extraction(e.seen + {p}, stage, e.total)))
      case FileMember =>
        if p !in want.files || p == [] then None
        else
          var wanted := want.files[p];
          if x.size != wanted.size || x.mode != wanted.mode || e.total + x.size > MAX_EXPANDED_BYTES then None
          else
            (match MakeDirectories(e.stage, p[..|p| - 1])
             case None => None
             case Some(stage) =>
               if p in stage || |x.data| != x.size || env.sha(x.data) != wanted.sha256 then None
               else Some(Extraction(e.seen + {p}, stage[p := File(x.mode, x.data)], e.total + x.size)))
      case OtherMember => None
  }

  function ExtractAll(env: Env, want: Expectation, members: seq<Member>): Option<Extraction> {
    if members == [] then Some(Extraction({}, map[], 0))
    else match ExtractAll(env, want, members[..|members| - 1])
      case None => None
      case Some(e) => ExtractMember(env, want, e, members[|members| - 1])
  }

  /** The staged tree, if every check of the second pass succeeds. */
  function SecondPass(env: Env, members: seq<Member>, digest: string, m: Manifest): Option<Tree> {
    var want := Expect(env, m, digest);
    if |members| > MAX_ARCHIVE_MEMBERS then None
    else match ExtractAll(env, want, members)
      case None => None
      case Some(e) => if e.seen == want.files.Keys + want.directories then Some(e.stage) else None
  }

  method ExtractArchive(env: Env, members: seq<Member>, digest: string, m: Manifest) returns (r: Option<Tree>)
    ensures r == SecondPass(env, members, digest, m)
  {
    hide ExtractMember, Expect;
    if |members| > MAX_ARCHIVE_MEMBERS {
      return None;
    }
    var want := Expect(env, m, digest);
    var e := Extraction({}, map[], 0);
    for i := 0 to |members|
      invariant ExtractAll(env, want, members[..i]) == Some(e)
    {
      assert members[..i + 1][..i] == members[..i];
      var next := ExtractMember(env, want, e, members[i]);
      if next.None? {
        ExtractionStops(env, want, members, i + 1);
        return None;
      }
      e := next.value;
    }
    assert members[..|members|] == members;
    return if e.seen == want.files.Keys + want.directories then Some(e.stage) else None;
  }

  lemma {:induction false} ExtractionStops(env: Env, want: Expectation, members: seq<Member>, i: nat)
    requires i <= |members| && ExtractAll(env, want, members[..i]).None?
    ensures ExtractAll(env, want, members).None?
    decreases |members|
  {
    if i == |members| {
      assert members[..i] == members;
    } else {
      assert members[..|members| - 1][..i] == members[..i];
      ExtractionStops(env, want, members[..|members| - 1], i);
    }
  }

  // ---------------------------------------------------------------------------
  // The staging directory after some members

  function Listed(members: seq<Member>): set<Path> { set x | x in members :: PathOf(x) }

  /** The listed entries, and the directories that had to be made above them. */
  function StagedTree(t: Tree): Tree {
    map p | p in t.Keys + DirectoriesByPrefix(t.Keys) :: if p in t then t[p] else Directory(MODE_755)
  }

  function Staged(members: seq<Member>): Tree { StagedTree(TreeOf(members)) }

  /** Expected files and expected directories are disjoint, and the members are as expected. */
  ghost predicate Fits(env: Env, want: Expectation, members: seq<Member>) {
    && want.directories == DirectoriesByPrefix(want.files.Keys)
    && want.directories !! want.files.Keys
    && [] !in want.files
    && IsScanned(members)
    && forall x <- members :: FitsMember(env, want, x)
  }

  predicate IsExpectedFile(env: Env, want: Expectation, x: Member) {
    PathOf(x) in want.files && want.files[PathOf(x)] == Observed(x.size, x.mode, env.sha(x.data))
  }

  predicate FitsMember(env: Env, want: Expectation, x: Member) {
    match x.kind
    case DirectoryMember => PathOf(x) in want.directories && x.mode == MODE_755
    case FileMember => IsExpectedFile(env, want, x)
    case OtherMember => false
  }

  lemma PrefixOfPrefix(p: Path, q: Path, r: Path)
    requires q in ProperPrefixes(p) && r in Upwards(q)
    ensures r in ProperPrefixes(p)
  {
    var k :| 1 <= k < |p| && q == p[..k];
    var j :| 1 <= j <= |q| && r == q[..j];
    assert r == p[..j];
  }

  lemma UpwardsIsPrefixes(p: Path)
    ensures p != [] ==> Upwards(p) == ProperPrefixes(p) + {p}
    ensures p != [] ==> Upwards(p[..|p| - 1]) == ProperPrefixes(p)
  {
    if p != [] {
      var parent := p[..|p| - 1];
      forall q ensures q in Upwards(p) <==> q in ProperPrefixes(p) + {p} {
        if q == p {
          assert p[..|p|] == p;
        }
      }
      forall q ensures q in Upwards(parent) <==> q in ProperPrefixes(p) {
        if q in Upwards(parent) {
          var k :| 1 <= k <= |parent| && q == parent[..k];
          assert q == p[..k];
        }
        if q in ProperPrefixes(p) {
          var k :| 1 <= k < |p| && q == p[..k];
          assert q == parent[..k];
        }
      }
    }
  }

  /** The kinds of what is staged: files at expected files, directories at expected directories. */
  lemma StagedKinds(env: Env, want: Expectation, members: seq<Member>)
    requires Fits(env, want, members)
    ensures forall p <- Staged(members) ::
      if Staged(members)[p].File? then p in want.files
      else p in want.directories && Staged(members)[p] == Directory(MODE_755)
    ensures forall p <- Staged(members) :: Staged(members)[p].File? ==> p in TreeOf(members)
  {
    TreeEntries(members);
    hide TreeOf, PathOf, IsPlausible, TotalSize, OneTypeScriptMember;
    var t := TreeOf(members);
    forall p | p in Staged(members)
      ensures
        if Staged(members)[p].File? then p in want.files
        else p in want.directories && Staged(members)[p] == Directory(MODE_755)
    {
      if p in t {
        var x :| x in members && PathOf(x) == p;
      } else {
        var q :| q in t && p in ProperPrefixes(q);
        var x :| x in members && PathOf(x) == q;
        PrefixIsExpected(want, q, p);
      }
    }
  }

  lemma PrefixIsExpected(want: Expectation, q: Path, p: Path)
    requires want.directories == DirectoriesByPrefix(want.files.Keys)
    requires (q in want.files || q in want.directories) && p in ProperPrefixes(q)
    ensures p in want.directories
  {
    if q in want.directories {
      var f :| f in want.files && q in ProperPrefixes(f);
      UpwardsIsPrefixes(q);
      PrefixOfPrefix(f, q, p);
    }
  }

  lemma DirectoriesMore(files: set<Path>, p: Path)
    ensures DirectoriesByPrefix(files + {p}) == DirectoriesByPrefix(files) + ProperPrefixes(p)
  {
    hide ProperPrefixes;
  }

  lemma StagedDirectory(t: Tree, p: Path)
    requires p != [] && p !in t
    requires forall q | q in Upwards(p) && q in StagedTree(t) :: StagedTree(t)[q] == Directory(MODE_755)
    ensures MakeDirectories(StagedTree(t), p) == Some(StagedTree(t[p := Directory(MODE_755)]))
  {
    UpwardsIsPrefixes(p);
    DirectoriesMore(t.Keys, p);
    hide ProperPrefixes, Upwards, DirectoriesByPrefix;
    var more := t[p := Directory(MODE_755)];
    assert more.Keys == t.Keys + {p};
    assert StagedTree(more).Keys == StagedTree(t).Keys + Upwards(p);
    var made := MakeDirectories(StagedTree(t), p).value;
    assert made.Keys == StagedTree(more).Keys;
    forall q | q in made ensures made[q] == StagedTree(more)[q] {
    }
    assert made == StagedTree(more);
  }

  lemma StagedFile(t: Tree, p: Path, file: Node)
    requires p != [] && p !in StagedTree(t) && file.File?
    requires forall q | q in Upwards(p[..|p| - 1]) && q in StagedTree(t) :: StagedTree(t)[q] == Directory(MODE_755)
    ensures var made := MakeDirectories(StagedTree(t), p[..|p| - 1]);
      made.Some? && p !in made.value && made.value[p := file] == StagedTree(t[p := file])
  {
    UpwardsIsPrefixes(p);
    DirectoriesMore(t.Keys, p);
    NotItsOwnPrefix(p);
    hide ProperPrefixes, Upwards, DirectoriesByPrefix;
    var more := t[p := file];
    assert more.Keys == t.Keys + {p};
    var made := MakeDirectories(StagedTree(t), p[..|p| - 1]).value;
    assert made.Keys + {p} == StagedTree(more).Keys;
    forall q | q in made ensures made[q] == StagedTree(more)[q] {
    }
  }

  lemma NotItsOwnPrefix(p: Path)
    ensures p !in ProperPrefixes(p)
  {
  }

  lemma NonEmptyPath(want: Expectation, p: Path)
    requires want.directories == DirectoriesByPrefix(want.files.Keys) && p in want.directories
    ensures p != []
  {
  }

  lemma KeysAreListed(members: seq<Member>)
    requires IsScanned(members)
    ensures TreeOf(members).Keys == Listed(members)
  {
    TreeEntries(members);
    hide TreeOf, PathOf;
  }

  /** What fitting says of the last member. */
  lemma LastFits(env: Env, want: Expectation, members: seq<Member>, x: Member)
    requires Fits(env, want, members + [x]) && Fits(env, want, members)
    ensures IsPlausible(x) && IsNamed(x)
    ensures x.kind.DirectoryMember? ==> PathOf(x) in want.directories && x.mode == MODE_755 && x.size == 0
    ensures x.kind.FileMember? ==> |x.data| == x.size && PathOf(x) in want.files && PathOf(x) != []
    ensures x.kind.FileMember? ==> want.files[PathOf(x)] == Observed(x.size, x.mode, env.sha(x.data))
    ensures TotalSize(members) + (if x.kind.FileMember? then x.size else 0) <= MAX_EXPANDED_BYTES
    ensures TreeOf(members + [x]) == TreeOf(members)[PathOf(x) := NodeOf(x)]
    ensures Listed(members + [x]) == Listed(members) + {PathOf(x)}
    ensures TreeOf(members).Keys == Listed(members) && !x.kind.OtherMember?
  {
    OneMoreMember(members, x);
    TotalIsBounded(members + [x]);
    KeysAreListed(members);
    hide TreeOf, PathOf, TotalSize;
    assert x in members + [x];
  }

  /** Directories above an expected path are staged as directories or not at all. */
  lemma AboveIsDirectory(env: Env, want: Expectation, members: seq<Member>, p: Path)
    requires Fits(env, want, members) && p != [] && (p in want.files || p in want.directories)
    ensures forall q | q in Upwards(p[..|p| - 1]) && q in Staged(members) :: Staged(members)[q] == Directory(MODE_755)
    ensures p in want.directories && p in Staged(members) ==> Staged(members)[p] == Directory(MODE_755)
    ensures p in want.files && p in Staged(members) ==> p in TreeOf(members)
  {
    hide TreeOf, PathOf, IsScanned, Staged, Upwards, ProperPrefixes, DirectoriesByPrefix;
    StagedKinds(env, want, members);
    UpwardsIsPrefixes(p);
    forall q | q in Upwards(p[..|p| - 1]) && q in Staged(members) ensures Staged(members)[q] == Directory(MODE_755) {
      PrefixIsExpected(want, p, q);
    }
  }

  /** Extracting one more fitting member stages one more entry. */
  lemma ExtractStep(env: Env, want: Expectation, members: seq<Member>, x: Member)
    requires Fits(env, want, members + [x]) && Fits(env, want, members)
    requires PathOf(x) !in Listed(members)
    ensures ExtractMember(env, want, Extraction(Listed(members), Staged(members), TotalSize(members)), x)
         == Some(Extraction(Listed(members + [x]), Staged(members + [x]), TotalSize(members + [x])))
  {
    hide TreeOf, PathOf, TotalSize, Listed, StagedTree, MakeDirectories, Upwards, DirectoriesByPrefix, IsPlausible;
    hide IsNamed;
    hide Fits;
    LastFits(env, want, members, x);
    OneMoreMember(members, x);
    var t, p := TreeOf(members), PathOf(x);
    if x.kind.DirectoryMember? {
      ExpectationFits(env, want, members);
      NonEmptyPath(want, p);
      AboveIsDirectory(env, want, members, p);
      UpwardsIsPrefixes(p);
      StagedDirectory(t, p);
    } else {
      AboveIsDirectory(env, want, members, p);
      UpwardsIsPrefixes(p);
      StagedFile(t, p, File(x.mode, x.data));
    }
  }

  lemma ExpectationFits(env: Env, want: Expectation, members: seq<Member>)
    requires Fits(env, want, members)
    ensures want.directories == DirectoriesByPrefix(want.files.Keys) && want.directories !! want.files.Keys
  {
  }

  lemma FitsFront(env: Env, want: Expectation, members: seq<Member>)
    requires members != [] && Fits(env, want, members)
    ensures Fits(env, want, members[..|members| - 1])
    ensures PathOf(members[|members| - 1]) !in Listed(members[..|members| - 1])
  {
    hide PathOf, IsPlausible, IsTypeScriptMember, FitsMember, DirectoriesByPrefix;
    var front, last := members[..|members| - 1], members[|members| - 1];
    assert members == front + [last];
    assert forall x <- front :: x in members;
    TotalGrows(members, |members| - 1);
    assert forall i | 0 <= i < |front| :: front[i] == members[i];
    forall x | x in front ensures PathOf(x) != PathOf(last) {
      var i :| 0 <= i < |front| && front[i] == x;
      assert members[i] == x;
    }
  }

  lemma {:induction false} ExtractsAll(env: Env, want: Expectation, members: seq<Member>)
    requires Fits(env, want, members)
    ensures ExtractAll(env, want, members) == Some(Extraction(Listed(members), Staged(members), TotalSize(members)))
  {
    hide ExtractMember, Fits, Staged, TotalSize, Listed;
    if members == [] {
      NothingExtracted();
    } else {
      var front, last := members[..|members| - 1], members[|members| - 1];
      assert members == front + [last];
      FitsFront(env, want, members);
      ExtractsAll(env, want, front);
      ExtractStep(env, want, front, last);
    }
  }

  lemma NothingExtracted()
    ensures Listed([]) == {} && Staged([]) == map[] && TotalSize([]) == 0
  {
  }

  // ---------------------------------------------------------------------------
  // Whatever the first pass accepts, the second accepts

  lemma {:induction false} EntryMapHolds(files: seq<FileEntry>)
    requires forall i, j | 0 <= i < j < |files| :: files[i].path != files[j].path
    ensures EntryMap(files).Keys == set e | e in files :: e.path
    ensures forall e <- files :: EntryMap(files)[e.path] == Observed(e.size, e.mode, e.sha256)
  {
    if files != [] {
      var front, last := files[..|files| - 1], files[|files| - 1];
      assert files == front + [last];
      EntryMapHolds(front);
      forall e | e in front ensures e.path != last.path {
        var i :| 0 <= i < |front| && front[i] == e;
        assert files[i] == e;
      }
    }
  }

  /** What the second pass expects of a manifest that the first pass has checked. */
  lemma ExpectationOf(env: Env, t: Tree, digest: string, m: Manifest)
    requires HasManifest(env, t, digest, m)
    ensures var want := Expect(env, m, digest);
      && want.files.Keys == ExpectedFiles(m) && want.directories == DirectoriesByPrefix(ExpectedFiles(m))
      && (forall e <- m.files :: want.files[e.path] == Observed(e.size, e.mode, e.sha256))
      && want.files[MANIFEST_JSON] == Observed(|t[MANIFEST_JSON].data|, MODE_644, env.sha(t[MANIFEST_JSON].data))
      && want.files[MANIFEST_SHA] == Observed(|t[MANIFEST_SHA].data|, MODE_644, env.sha(t[MANIFEST_SHA].data))
      && [] !in want.files
  {
    ManifestIsChecked(env, t, digest, m);
    hide IsDigest, IsSafe, IsTypeScriptPath, Sidecar;
    EntryMapHolds(m.files);
    assert MANIFEST_JSON != MANIFEST_SHA by {
      assert |MANIFEST_JSON[0]| != |MANIFEST_SHA[0]|;
    }
  }

  predicate HasPlainDirectories(members: seq<Member>) {
    forall x <- members :: x.kind.DirectoryMember? ==> x.mode == MODE_755
  }

  lemma CheckedNode(env: Env, members: seq<Member>, digest: string, m: Manifest, x: Member)
    requires AcceptsArchive(env, members, digest, m) && x in members
    ensures var t := TreeOf(members);
      PathOf(x) in t && t[PathOf(x)] == NodeOf(x) && !x.kind.OtherMember? && (x.kind.FileMember? ==> x.size == |x.data|)
  {
    hide TreeOf, PathOf, NodeOf, HasManifest, MatchesEntry, IsTypeScriptMember, TotalSize;
    TreeEntries(members);
    assert IsPlausible(x);
  }

  lemma CheckedDirectory(env: Env, members: seq<Member>, digest: string, m: Manifest, x: Member)
    requires AcceptsArchive(env, members, digest, m) && x in members && x.kind.DirectoryMember?
    ensures PathOf(x) in Expect(env, m, digest).directories
  {
    CheckedNode(env, members, digest, m, x);
    hide TreeOf, PathOf, IsScanned, Expect, DirectoriesByChain, DirectoriesByPrefix, HasManifest, MatchesEntry;
    ExpectationOf(env, TreeOf(members), digest, m);
    ClosuresCoincide(ExpectedFiles(m));
    assert PathOf(x) in Directories(TreeOf(members));
  }

  /** A checked file member is what the second pass expects. */
  lemma CheckedFile(env: Env, members: seq<Member>, digest: string, m: Manifest, x: Member)
    requires AcceptsArchive(env, members, digest, m) && x in members && x.kind.FileMember?
    ensures IsExpectedFile(env, Expect(env, m, digest), x)
  {
    CheckedNode(env, members, digest, m, x);
    hide TreeOf, PathOf, IsScanned, Expect, DirectoriesByChain, DirectoriesByPrefix, HasManifest;
    var t := TreeOf(members);
    ExpectationOf(env, t, digest, m);
    var p := PathOf(x);
    assert p in Files(t);
    if !IsMetadata(p) {
      var e :| e in m.files && e.path == p;
      assert MatchesEntry(env, t, e);
    }
  }

  lemma AcceptedFits(env: Env, members: seq<Member>, digest: string, m: Manifest)
    requires AcceptsArchive(env, members, digest, m) && HasPlainDirectories(members)
    ensures Fits(env, Expect(env, m, digest), members)
  {
    hide TreeOf, PathOf, IsScanned, Expect, HasManifest, MatchesEntry, DirectoriesByChain, DirectoriesByPrefix;
    hide IsExpectedFile;
    var t, want := TreeOf(members), Expect(env, m, digest);
    ExpectationOf(env, t, digest, m);
    ClosuresCoincide(ExpectedFiles(m));
    forall x | x in members ensures FitsMember(env, want, x) {
      CheckedNode(env, members, digest, m, x);
      if x.kind.DirectoryMember? {
        CheckedDirectory(env, members, digest, m, x);
      } else {
        CheckedFile(env, members, digest, m, x);
      }
    }
    assert Files(t) !! Directories(t);
  }

  /** With every expected directory listed, nothing had to be made on the way. */
  lemma StagedIsListed(members: seq<Member>)
    requires DirectoriesByPrefix(TreeOf(members).Keys) <= TreeOf(members).Keys
    ensures Staged(members) == TreeOf(members)
  {
    hide TreeOf, DirectoriesByPrefix;
  }

  lemma PrefixesAreListed(files: set<Path>)
    ensures DirectoriesByPrefix(files + DirectoriesByPrefix(files)) == DirectoriesByPrefix(files)
  {
    forall p | p in DirectoriesByPrefix(files + DirectoriesByPrefix(files)) ensures p in DirectoriesByPrefix(files) {
      var q :| (q in files || q in DirectoriesByPrefix(files)) && p in ProperPrefixes(q);
      if q !in files {
        var f :| f in files && q in ProperPrefixes(f);
        UpwardsIsPrefixes(q);
        PrefixOfPrefix(f, q, p);
      }
    }
  }

  lemma AcceptedKeys(env: Env, members: seq<Member>, digest: string, m: Manifest)
    requires AcceptsArchive(env, members, digest, m)
    ensures TreeOf(members).Keys == ExpectedFiles(m) + DirectoriesByPrefix(ExpectedFiles(m))
  {
    var t := TreeOf(members);
    ClosuresCoincide(ExpectedFiles(m));
    TreeEntries(members);
    hide TreeOf, PathOf, IsPlausible, IsScanned, HasManifest, MatchesEntry, DirectoriesByChain, DirectoriesByPrefix;
    forall p | p in t ensures p in Files(t) || p in Directories(t) {
      var x :| x in members && PathOf(x) == p;
      assert t[p] == NodeOf(x);
    }
  }

  lemma SecondPassAccepts(env: Env, members: seq<Member>, digest: string, m: Manifest)
    requires AcceptsArchive(env, members, digest, m) && HasPlainDirectories(members)
    ensures SecondPass(env, members, digest, m) == Some(TreeOf(members))
  {
    hide TreeOf, PathOf, IsScanned, Expect, MatchesEntry, DirectoriesByChain, DirectoriesByPrefix, Listed;
    hide Staged, Fits, ExtractAll, AcceptsArchive, HasManifest;
    var t, want := TreeOf(members), Expect(env, m, digest);
    AcceptedFits(env, members, digest, m);
    AcceptedScan(env, members, digest, m);
    ScannedCount(members);
    ExpectationOf(env, t, digest, m);
    ExtractsAll(env, want, members);
    KeysAreListed(members);
    AcceptedKeys(env, members, digest, m);
    PrefixesAreListed(ExpectedFiles(m));
    StagedIsListed(members);
  }

  lemma SecondPassRefuses(env: Env, members: seq<Member>, digest: string, m: Manifest)
    requires !HasPlainDirectories(members)
    ensures SecondPass(env, members, digest, m).None?
  {
    hide Expect, PathOf, MakeDirectories;
    var want := Expect(env, m, digest);
    var x :| x in members && x.kind.DirectoryMember? && x.mode != MODE_755;
    var i :| 0 <= i < |members| && members[i] == x;
    assert members[..i + 1][..i] == members[..i];
    ExtractionStops(env, want, members, i + 1);
  }

  /** The second pass accepts exactly the archives of the first pass whose directory modes hold nothing but
  permission bits, and extracts the tree that the members describe. */
  lemma SecondPassAgrees(env: Env, members: seq<Member>, digest: string, m: Manifest)
    requires AcceptsArchive(env, members, digest, m)
    ensures SecondPass(env, members, digest, m).Some? <==> HasPlainDirectories(members)
    ensures HasPlainDirectories(members) ==> SecondPass(env, members, digest, m) == Some(TreeOf(members))
  {
    hide AcceptsArchive, SecondPass, HasPlainDirectories, TreeOf;
    if HasPlainDirectories(members) {
      SecondPassAccepts(env, members, digest, m);
    } else {
      SecondPassRefuses(env, members, digest, m);
    }
  }

  /** The members with the file type bits of a directory kept in one directory's mode. */
  function WithTypeBits(members: seq<Member>, i: nat): seq<Member>
    requires i < |members|
  {
    members[i := members[i].(mode := 0x4000 + MODE_755)]
  }

  lemma {:induction false} TypeBitsKeepTree(members: seq<Member>, i: nat)
    requires i < |members| && members[i].kind.DirectoryMember?
    ensures TreeOf(WithTypeBits(members, i)) == TreeOf(members)
    ensures TotalSize(WithTypeBits(members, i)) == TotalSize(members)
  {
    var front, other := members[..|members| - 1], WithTypeBits(members, i);
    if i < |front| {
      TypeBitsKeepTree(front, i);
      assert other[..|other| - 1] == WithTypeBits(front, i);
    } else {
      assert other[..|other| - 1] == front;
    }
  }

  lemma TypeBitsKeepMember(x: Member)
    requires x.kind.DirectoryMember?
    ensures var y := x.(mode := 0x4000 + MODE_755);
      PathOf(y) == PathOf(x) && !IsTypeScriptMember(y) && !IsTypeScriptMember(x) && (IsPlausible(x) ==> IsPlausible(y))
  {
    assert PermissionBits(0x4000 + MODE_755) == MODE_755;
    hide SafeRelative, IsTypeScriptPath;
  }

  lemma TypeBitsKeepScan(members: seq<Member>, i: nat)
    requires i < |members| && members[i].kind.DirectoryMember? && IsScanned(members)
    ensures IsScanned(WithTypeBits(members, i))
  {
    hide PathOf, IsPlausible, IsTypeScriptMember, TotalSize, TreeOf;
    TypeBitsKeepTree(members, i);
    TypeBitsKeepMember(members[i]);
    var other := WithTypeBits(members, i);
    forall j | 0 <= j < |other|
      ensures PathOf(other[j]) == PathOf(members[j]) && IsTypeScriptMember(other[j]) == IsTypeScriptMember(members[j])
      ensures IsPlausible(other[j])
    {
      assert members[j] in members;
      assert j != i ==> other[j] == members[j];
    }
    assert DistinctPaths(other);
    assert OneTypeScriptMember(other);
  }

  /** Any accepted archive with mode 040755 for one of its directories is still accepted by the first pass,
  and refused by the second. */
  lemma DirectoryWithTypeBits(env: Env, members: seq<Member>, digest: string, m: Manifest, i: nat)
    requires AcceptsArchive(env, members, digest, m) && i < |members| && members[i].kind.DirectoryMember?
    ensures var other := WithTypeBits(members, i);
      AcceptsArchive(env, other, digest, m) && SecondPass(env, other, digest, m).None?
  {
    var other := WithTypeBits(members, i);
    TypeBitsKeepTree(members, i);
    TypeBitsKeepScan(members, i);
    assert other[i] in other && !HasPlainDirectories(other);
    hide IsScanned, TreeOf, HasManifest, SecondPass, HasPlainDirectories;
    assert AcceptsArchive(env, other, digest, m);
    SecondPassAgrees(env, other, digest, m);
  }

  lemma ScannedCount(members: seq<Member>)
    ensures IsScanned(members) ==> |members| <= MAX_ARCHIVE_MEMBERS
  {
  }

  lemma AcceptedScan(env: Env, members: seq<Member>, digest: string, m: Manifest)
    requires AcceptsArchive(env, members, digest, m)
    ensures IsScanned(members) && HasManifest(env, TreeOf(members), digest, m)
  {
  }

  // ---------------------------------------------------------------------------
  // Export, verify, extract

  lemma ExportHasPlainDirectories(t: Tree)
    requires AreSafe(t)
    ensures HasPlainDirectories(Export(t))
  {
    hide IsSafe, Join, Export, IsNamed, Exported, PathOf;
    forall x | x in Export(t) && x.kind.DirectoryMember? ensures x.mode == MODE_755 {
      var p := ExportedFrom(t, x);
      ExportedPath(t, p);
    }
  }

  /** Exporting a verified bundle whose manifest files have mode 0644, checking the archive and extracting
  it gives the bundle back: the same paths, file modes and bytes, with directories of mode 0755; and the
  extracted tree verifies again with the same manifest. */
  lemma ExportVerifyExtract(env: Env, t: Tree, digest: string, m: Manifest)
    requires IsTree(t) && AcceptsBundle(env, t, digest, m)
    requires HasPlainMetadata(t) && IsWithinLimits(Export(t))
    ensures AcceptsArchive(env, Export(t), digest, m)
    ensures SecondPass(env, Export(t), digest, m) == Some(Normalised(t))
    ensures Normalised(t).Keys == t.Keys && forall p <- t :: t[p].File? ==> Normalised(t)[p] == t[p]
    ensures AcceptsBundle(env, Normalised(t), digest, m)
  {
    hide IsTree, AcceptsBundle, HasPlainMetadata, IsWithinLimits, AcceptsArchive, Export, SecondPass, AreSafe, TreeOf;
    ExportPassesVerification(env, t, digest, m);
    VerifiedPathsAreSafe(env, t, digest, m);
    NothingIsSpecial(env, t, digest, m);
    ExportDescribesTree(t);
    ExportHasPlainDirectories(t);
    SecondPassAgrees(env, Export(t), digest, m);
    NormalisedMatches(env, t, digest, m);
  }

  /** Any archive that both passes accept extracts to a bundle that verifies with the same manifest. */
  lemma ExtractedBundleVerifies(env: Env, members: seq<Member>, digest: string, m: Manifest)
    requires AcceptsArchive(env, members, digest, m) && HasPlainDirectories(members)
    ensures SecondPass(env, members, digest, m).Some?
    ensures AcceptsBundle(env, SecondPass(env, members, digest, m).value, digest, m)
  {
    SecondPassAgrees(env, members, digest, m);
    AcceptedKeys(env, members, digest, m);
    ClosuresCoincide(ExpectedFiles(m));
    TreeEntries(members);
    hide TreeOf, PathOf, IsPlausible, IsScanned, HasManifest, MatchesEntry, SecondPass, DirectoriesByChain;
    hide DirectoriesByPrefix;
    var t := TreeOf(members);
    forall p | p in t ensures !t[p].Special? {
      var x :| x in members && PathOf(x) == p;
    }
    forall p | p in t && t[p].Directory? ensures exists f <- ExpectedFiles(m) :: IsAbove(p, f) {
      assert p in Directories(t);
    }
  }
}
