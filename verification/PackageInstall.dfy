/** `install_bundle`: copying a bundle into an empty prefix, and undoing whatever was done when any step
fails. */
module PackageInstall {
  import opened Text
  import opened PackagePaths
  import opened PackageBundle
  import opened PackageArchive

  /** What the outside world does at each step: whether the operation fails, and what reading a file of the
  bundle yields, its bytes and its permission bits. */
  datatype World = World(fails: nat -> bool, contents: (nat, Path) -> Bytes, modes: (nat, Path) -> nat)

  /** No step fails, and every read yields what the bundle holds. */
  ghost predicate Calm(world: World, bundle: Tree) {
    && (forall n: nat :: !world.fails(n))
    && forall n: nat, p: Path | p in bundle && bundle[p].File? ::
      world.contents(n, p) == bundle[p].data && world.modes(n, p) == bundle[p].mode
  }

  /** Everything there is as in the bundle, with the modes that directories are given. */
  predicate PartOf(t: Tree, bundle: Tree) { forall q <- t :: q in bundle && t[q] == Normalised(bundle)[q] }

  function ParentOf(p: Path): Path { if p == [] then [] else p[..|p| - 1] }

  predicate IsDirectory(t: Tree, p: Path) { p == [] || (p in t && t[p].Directory?) }

  predicate IsBelow(p: Path, directory: Path) { directory < p }

  /** Entries come after the directories they are in. */
  predicate ParentsFirst(created: seq<Path>) {
    forall i, j | 0 <= i < j < |created| :: created[i] != created[j] && !IsBelow(created[i], created[j])
  }

  function SetOf(created: seq<Path>): set<Path> { set p | p in created }

  predicate NothingSpecial(t: Tree) { forall p <- t :: !t[p].Special? }

  /** A tree of directories and files in which everything was created here, parents first. */
  ghost predicate Made(t: Tree, created: seq<Path>) {
    t.Keys == SetOf(created) && ParentsFirst(created) && IsTree(t) && NothingSpecial(t)
  }

  class Installation {
    const world: World
    var exists_: bool
    var tree: Tree
    var created: seq<Path>
    var step: nat

    constructor (world: World, prefixExists: bool)
      ensures Valid() && this.world == world && exists_ == prefixExists && tree == map[] && created == []
    {
      this.world := world;
      exists_, tree, created, step := prefixExists, map[], [], 0;
    }

    ghost predicate Valid()
      reads this
    {
      Made(tree, created)
    }

    /** The files installed so far, and the directories that lead to them. */
    ghost predicate Holds(files: set<Path>, leading: set<Path>)
      reads this
    {
      && Files(tree) == files
      && forall p <- tree :: tree[p].Directory? ==> p in DirectoriesByPrefix(leading)
    }

    method NextFails() returns (fails: bool)
      modifies `step
      ensures fails == world.fails(old(step)) && step == old(step) + 1
    {
      fails := world.fails(step);
      step := step + 1;
    }

    /** `mkdir`, and its entry in `created`. */
    method MakeDirectory(p: Path) returns (ok: bool)
      requires Valid() && p != []
      modifies this
      ensures Valid() && exists_ == old(exists_)
      ensures ok <==> !world.fails(old(step)) && p !in old(tree) && IsDirectory(old(tree), ParentOf(p))
      ensures ok ==> tree == old(tree)[p := Directory(MODE_755)]
      ensures !ok ==> tree == old(tree)
    {
      var fails := NextFails();
      if fails || p in tree || !IsDirectory(tree, ParentOf(p)) {
        return false;
      }
      AddedEntry(tree, created, p, Directory(MODE_755));
      tree := tree[p := Directory(MODE_755)];
      created := created + [p];
      return true;
    }

    /** `_copy_exact`: create the file, fill it, set its mode; remove it again if anything goes wrong, the
    digest of what was read included. */
    method CopyExact(env: Env, p: Path, entry: Option<FileEntry>) returns (ok: bool)
      requires Valid() && p != []
      modifies this
      ensures Valid() && exists_ == old(exists_)
      ensures ok <==> (
        && !world.fails(old(step)) && !world.fails(old(step) + 1)
        && p !in old(tree) && IsDirectory(old(tree), ParentOf(p))
        && (entry.Some? ==> env.sha(world.contents(old(step) + 1, p)) == entry.value.sha256))
      ensures ok ==>
        var mode := if entry.Some? then entry.value.mode else world.modes(old(step) + 1, p);
        tree == old(tree)[p := File(mode, world.contents(old(step) + 1, p))]
      ensures !ok ==> tree == old(tree)
    {
      hide Made;
      var openFails := NextFails();
      if openFails || p in tree || !IsDirectory(tree, ParentOf(p)) {
        return false;
      }
      ghost var before := tree;
      tree := tree[p := File(0x180, [])];
      var copied := world.contents(step, p);
      var mode := if entry.Some? then entry.value.mode else world.modes(step, p);
      AddedEntry(before, created, p, File(mode, copied));
      var copyFails := NextFails();
      tree := tree[p := File(0x180, copied)];
      if copyFails {
        RemovedAgain(before, p, File(0x180, []), File(0x180, copied));
        tree := tree - {p};
        return false;
      }
      tree := tree[p := File(mode, copied)];
      Overwritten(before, p, File(0x180, []), File(0x180, copied), File(mode, copied));
      if entry.Some? && env.sha(copied) != entry.value.sha256 {
        tree := tree - {p};
        return false;
      }
      created := created + [p];
      return true;
    }

    /** Make the missing directories, outermost first. */
    method MakeParents(p: Path, missing: seq<Path>, ghost files: set<Path>) returns (ok: bool)
      requires Valid() && Holds(files, files + {p}) && forall q <- missing :: q in ProperPrefixes(p)
      modifies this
      ensures Valid() && exists_ == old(exists_)
      ensures ok ==> Holds(files, files + {p}) && AddsDirectories(old(tree), tree, p)
      ensures (forall n: nat :: !world.fails(n)) && LeadsTo(missing, p, old(tree)) ==>
        ok && IsDirectory(tree, ParentOf(p))
    {
      LeadingMore(files, p);
      hide DirectoriesByPrefix, Made, LeadsTo;
      var i := |missing|;
      assert missing[..|missing|] == missing;
      while i > 0
        invariant 0 <= i <= |missing|
        invariant Valid() && exists_ == old(exists_) && Holds(files, files + {p})
        invariant AddsDirectories(old(tree), tree, p)
        invariant (forall n: nat :: !world.fails(n)) && LeadsTo(missing, p, old(tree)) ==>
          LeadsTo(missing[..i], p, tree)
        decreases i
      {
        i := i - 1;
        assert missing[i] in ProperPrefixes(p);
        PrefixIsProper(p, missing[i]);
        ghost var earlier := tree;
        LeadsFurther(missing[..i + 1], p, earlier);
        assert missing[..i + 1][..i] == missing[..i];
        var made := MakeDirectory(missing[i]);
        if !made {
          return false;
        }
        assert Files(tree) == Files(earlier);
      }
      Arrived(p, tree);
      assert missing[..0] == [];
      ok := true;
    }

    /** The missing parents, outermost first, and then the file. */
    method InstallFile(env: Env, p: Path, entry: Option<FileEntry>, ghost files: set<Path>, ghost bundle: Tree)
      returns (ok: bool)
      requires Valid() && p != [] && Holds(files, files)
      modifies this
      ensures Valid() && exists_ == old(exists_)
      ensures ok ==> Holds(files + {p}, files + {p}) && HasFile(tree, p) && p !in files
      ensures ok && entry.Some? ==> tree[p].mode == entry.value.mode && env.sha(tree[p].data) == entry.value.sha256
      ensures ok ==> forall q <- files :: q in old(tree) && q in tree && tree[q] == old(tree)[q]
      ensures Calm(world, bundle) && PartOf(old(tree), bundle) && p !in files && IsSource(env, bundle, p, entry)
        ==> ok && PartOf(tree, bundle)
    {
      hide Made, DirectoriesByPrefix, IsTree;
      LeadingMore(files, p);
      var missing: seq<Path> := [];
      var cursor := ParentOf(p);
      while cursor != [] && cursor !in tree
        invariant cursor <= p && |cursor| == |p| - 1 - |missing|
        invariant forall i | 0 <= i < |missing| :: missing[i] == p[..|p| - 1 - i] && missing[i] !in tree
        invariant forall q <- missing :: q in ProperPrefixes(p)
        decreases |cursor|
      {
        assert cursor == p[..|cursor|];
        missing := missing + [cursor];
        cursor := ParentOf(cursor);
      }
      assert forall q <- files :: q in Files(tree);
      ghost var start := tree;
      assert cursor == p[..|p| - 1 - |missing|];
      WayIsFree(env, start, bundle, p, entry, missing);
      hide LeadsTo, AddsDirectories, PartOf, IsSource;
      ok := MakeParents(p, missing, files);
      if !ok {
        return false;
      }
      ghost var earlier := tree;
      StaysPart(env, start, earlier, bundle, p, entry, files);
      NothingLost(start, earlier, p);
      ok := CopyExact(env, p, entry);
      if ok {
        NowThere(earlier, tree, p);
        FileIsPart(env, earlier, bundle, p, entry, tree);
      }
    }

    /** Remove what was created, last first, then the prefix if it was made here. */
    method Undo(createRoot: bool)
      requires Valid()
      modifies this
      ensures tree == map[] && exists_ == (old(exists_) && !createRoot)
    {
      hide Made;
      var i := |created|;
      assert created[..|created|] == created;
      while i > 0
        invariant 0 <= i <= |created| && created == old(created) && exists_ == old(exists_)
        invariant Made(tree, created[..i])
        decreases i
      {
        i := i - 1;
        var p := created[i];
        assert created[..i + 1] == created[..i] + [p];
        RemovedEntry(tree, created[..i], p);
        if tree[p].File? {
          tree := tree - {p};
        } else if !(exists q <- tree :: IsBelow(q, p)) {
          tree := tree - {p};
        }
      }
      NothingMade(tree);
      if createRoot && tree == map[] {
        exists_ := false;
      }
    }
  }

  // ---------------------------------------------------------------------------
  // Facts about created entries

  lemma AddedEntry(t: Tree, created: seq<Path>, p: Path, node: Node)
    requires Made(t, created) && !node.Special?
    requires p != [] && p !in t && IsDirectory(t, ParentOf(p))
    ensures Made(t[p := node], created + [p])
  {
    var more, all := t[p := node], created + [p];
    forall q, k | q in more && 1 <= k < |q| ensures q[..k] in more && more[q[..k]].Directory? {
      if q == p {
        PrefixOfNew(t, p, k);
      } else {
        assert q in t;
        assert q[..k] in t && q[..k] != p;
      }
    }
    forall i, j | 0 <= i < j < |all| ensures all[i] != all[j] && !IsBelow(all[i], all[j]) {
      if j == |created| {
        assert created[i] in SetOf(created);
        PrefixIn(t, created[i], p);
      }
    }
  }

  lemma RemovedAgain(t: Tree, p: Path, x: Node, y: Node)
    requires p !in t
    ensures t[p := x][p := y] - {p} == t
  {
  }

  lemma Overwritten(t: Tree, p: Path, x: Node, y: Node, z: Node)
    requires p !in t
    ensures t[p := x][p := y][p := z] == t[p := z] && t[p := z] - {p} == t
  {
  }

  // ---------------------------------------------------------------------------
  // The way to a file

  /** The second tree has, besides the first, directories above `p`. */
  predicate AddsDirectories(t: Tree, more: Tree, p: Path) {
    && (forall q <- t :: q in more && more[q] == t[q])
    && forall q <- more :: q in t || (q in ProperPrefixes(p) && more[q] == Directory(MODE_755))
  }

  /** The directories above `p` that are missing, innermost first, up to one that is there. */
  predicate LeadsTo(missing: seq<Path>, p: Path, t: Tree) {
    && |missing| < |p|
    && (forall i | 0 <= i < |missing| :: missing[i] == p[..|p| - 1 - i] && missing[i] !in t)
    && IsDirectory(t, p[..|p| - 1 - |missing|])
  }

  lemma LeadsFurther(missing: seq<Path>, p: Path, t: Tree)
    requires missing != []
    ensures var last := missing[|missing| - 1]; LeadsTo(missing, p, t) ==>
      && last !in t && IsDirectory(t, ParentOf(last))
      && LeadsTo(missing[..|missing| - 1], p, t[last := Directory(MODE_755)])
  {
    var i := |missing| - 1;
    var last := missing[i];
    if LeadsTo(missing, p, t) {
      assert last == p[..|p| - 1 - i] && ParentOf(last) == p[..|p| - 1 - |missing|];
      forall j | 0 <= j < i ensures missing[j] != last && missing[j] !in t[last := Directory(MODE_755)] {
        assert |missing[j]| == |p| - 1 - j;
      }
    }
  }

  lemma Arrived(p: Path, t: Tree)
    ensures LeadsTo([], p, t) ==> IsDirectory(t, ParentOf(p))
  {
  }

  lemma WayIsFree(env: Env, t: Tree, bundle: Tree, p: Path, entry: Option<FileEntry>, missing: seq<Path>)
    requires |missing| < |p|
    requires forall i | 0 <= i < |missing| :: missing[i] == p[..|p| - 1 - i] && missing[i] !in t
    requires var cursor := p[..|p| - 1 - |missing|]; cursor == [] || cursor in t
    ensures PartOf(t, bundle) && IsSource(env, bundle, p, entry) ==> LeadsTo(missing, p, t)
  {
  }

  lemma StaysPart(
      env: Env, t: Tree, more: Tree, bundle: Tree, p: Path, entry: Option<FileEntry>, files: set<Path>)
    requires AddsDirectories(t, more, p) && p != []
    ensures PartOf(t, bundle) && IsSource(env, bundle, p, entry) ==>
      PartOf(more, bundle) && (Files(more) == files && p !in files ==> p !in more)
  {
    if PartOf(t, bundle) && IsSource(env, bundle, p, entry) {
      forall q | q in more ensures q in bundle && more[q] == Normalised(bundle)[q] {
        if q !in t {
          var k :| 1 <= k < |p| && q == p[..k];
        }
      }
      if Files(more) == files && p !in files {
        assert p in more ==> p in Files(more);
      }
    }
  }

  lemma NothingLost(t: Tree, more: Tree, p: Path)
    requires AddsDirectories(t, more, p)
    ensures forall q <- t :: q in more && more[q] == t[q]
  {
  }

  lemma NowThere(t: Tree, more: Tree, p: Path)
    requires p in more && more[p].File? && p !in t && more == t[p := more[p]]
    ensures Files(more) == Files(t) + {p}
  {
  }

  lemma FileIsPart(env: Env, t: Tree, bundle: Tree, p: Path, entry: Option<FileEntry>, more: Tree)
    requires p in more && more == t[p := more[p]]
    ensures PartOf(t, bundle) && IsSource(env, bundle, p, entry) && more[p] == bundle[p] ==> PartOf(more, bundle)
  {
  }

  /** The bundle has this file, with the mode and digest of its entry. */
  predicate IsSource(env: Env, bundle: Tree, p: Path, entry: Option<FileEntry>) {
    && IsTree(bundle) && HasFile(bundle, p)
    && (entry.Some? ==> entry.value.mode == bundle[p].mode && entry.value.sha256 == env.sha(bundle[p].data))
  }

  lemma PrefixIn(t: Tree, q: Path, p: Path)
    requires IsTree(t) && q in t && p != []
    ensures p < q ==> p in t
  {
    if p < q {
      assert q[..|p|] == p;
    }
  }

  lemma PrefixOfNew(t: Tree, p: Path, k: nat)
    requires IsTree(t) && p !in t && IsDirectory(t, ParentOf(p)) && 1 <= k < |p|
    ensures p[..k] in t && t[p[..k]].Directory? && p[..k] != p
  {
    var parent := ParentOf(p);
    if k < |parent| {
      assert parent[..k] == p[..k];
    }
  }

  lemma PrefixIsProper(p: Path, q: Path)
    requires q in ProperPrefixes(p)
    ensures q != []
  {
  }

  lemma LeadingMore(files: set<Path>, p: Path)
    ensures forall q <- DirectoriesByPrefix(files) :: q in DirectoriesByPrefix(files + {p})
    ensures forall q <- ProperPrefixes(p) :: q in DirectoriesByPrefix(files + {p})
  {
  }

  /** Nothing lies below the last entry, and without it the rest is as before. */
  lemma RemovedEntry(t: Tree, created: seq<Path>, p: Path)
    requires Made(t, created + [p])
    ensures p in t && !t[p].Special? && !(exists q <- t :: IsBelow(q, p)) && Made(t - {p}, created)
  {
    var all := created + [p];
    assert all[|created|] == p;
    forall q | q in t ensures !IsBelow(q, p) && (q != p ==> q in created) {
      var j :| 0 <= j < |all| && all[j] == q;
    }
    forall q | q in created ensures q != p && q in t {
      var j :| 0 <= j < |created| && created[j] == q;
      assert all[j] == q;
    }
    forall i, j | 0 <= i < j < |created| ensures created[i] != created[j] && !IsBelow(created[i], created[j]) {
      assert all[i] == created[i] && all[j] == created[j];
    }
    assert IsTree(t - {p}) by {
      WithoutLeaf(t, p);
    }
  }

  lemma WithoutLeaf(t: Tree, p: Path)
    requires IsTree(t) && forall q <- t :: !IsBelow(q, p)
    ensures IsTree(t - {p})
  {
    forall q, k | q in t - {p} && 1 <= k < |q| ensures q[..k] in t - {p} && t[q[..k]].Directory? {
      assert q[..k] < q;
    }
  }

  lemma NothingMade(t: Tree)
    requires Made(t, [])
    ensures t == map[]
  {
  }

  lemma HeldKeys(t: Tree, files: set<Path>)
    requires IsTree(t) && NothingSpecial(t) && Files(t) == files
    requires forall p <- t :: t[p].Directory? ==> p in DirectoriesByPrefix(files)
    ensures t.Keys == files + DirectoriesByPrefix(files)
  {
    forall p | p in DirectoriesByPrefix(files) ensures p in t {
      var f :| f in files && p in ProperPrefixes(f);
      assert f in Files(t);
      var k :| 1 <= k < |f| && p == f[..k];
    }
    forall p | p in t ensures p in files || p in DirectoriesByPrefix(files) {
      if t[p].File? {
        assert p in Files(t);
      }
    }
  }

  // ---------------------------------------------------------------------------
  // The whole installation

  /** What the prefix holds after a successful installation of a manifest. */
  ghost predicate IsInstalled(env: Env, t: Tree, digest: string, m: Manifest) {
    && t.Keys == ExpectedFiles(m) + DirectoriesByPrefix(ExpectedFiles(m))
    && Files(t) == ExpectedFiles(m)
    && (forall e <- m.files :: IsCopied(env, t, e))
    && exists installed :: AcceptsBundle(env, t, digest, installed)
  }

  /** The entry is there with its mode and digest. */
  predicate IsCopied(env: Env, t: Tree, e: FileEntry) {
    HasFile(t, e.path) && t[e.path].mode == e.mode && env.sha(t[e.path].data) == e.sha256
  }

  lemma StillCopied(env: Env, entries: seq<FileEntry>, before: Tree, after: Tree)
    requires forall e <- entries :: IsCopied(env, before, e) && e.path in after && after[e.path] == before[e.path]
    ensures forall e <- entries :: IsCopied(env, after, e)
  {
  }

  lemma ManifestPaths(m: Manifest, i: nat)
    requires IsManifest(m) && i < |m.files|
    ensures m.files[i].path != []
    ensures PathsOf(m.files[..i + 1]) == PathsOf(m.files[..i]) + {m.files[i].path}
    ensures forall e <- m.files[..i] :: e.path in PathsOf(m.files[..i])
  {
    assert m.files[i] in m.files;
    hide IsSafe, IsTypeScriptPath;
    assert m.files[..i + 1] == m.files[..i] + [m.files[i]];
  }

  /** The bundle has the listed files, with their modes and digests. */
  predicate AreSources(env: Env, bundle: Tree, m: Manifest) {
    IsTree(bundle) && forall e <- m.files :: MatchesEntry(env, bundle, e)
  }

  lemma SourceOfEntry(env: Env, bundle: Tree, m: Manifest, i: nat)
    requires i < |m.files|
    ensures AreSources(env, bundle, m) ==> IsSource(env, bundle, m.files[i].path, Some(m.files[i]))
  {
    hide IsTree;
    assert m.files[i] in m.files;
  }

  lemma EntryIsNew(m: Manifest, i: nat)
    requires IsManifest(m) && i < |m.files|
    ensures m.files[i].path !in PathsOf(m.files[..i])
  {
    hide IsSafe, IsMetadata, IsTypeScriptPath;
    forall e <- m.files[..i] ensures e.path != m.files[i].path {
      var j :| 0 <= j < i && m.files[j] == e;
    }
  }

  /** The loop over the manifest's files. */
  method CopyFiles(env: Env, inst: Installation, m: Manifest, ghost bundle: Tree) returns (ok: bool)
    requires inst.Valid() && inst.tree == map[] && IsManifest(m)
    modifies inst
    ensures inst.Valid() && inst.exists_ == old(inst.exists_)
    ensures ok ==> inst.Holds(EntryPaths(m), EntryPaths(m)) && forall e <- m.files :: IsCopied(env, inst.tree, e)
    ensures Calm(inst.world, bundle) && AreSources(env, bundle, m) ==> ok && PartOf(inst.tree, bundle)
  {
    hide IsManifest, PathsOf, DirectoriesByPrefix, IsCopied, Calm, AreSources, IsSource, Normalised;
    NothingHeld(inst);
    for i := 0 to |m.files|
      invariant inst.Valid() && inst.exists_ == old(inst.exists_)
      invariant inst.Holds(PathsOf(m.files[..i]), PathsOf(m.files[..i]))
      invariant forall e <- m.files[..i] :: IsCopied(env, inst.tree, e)
      invariant Calm(inst.world, bundle) && AreSources(env, bundle, m) ==> PartOf(inst.tree, bundle)
    {
      hide PartOf;
      var entry := m.files[i];
      ManifestPaths(m, i);
      SourceOfEntry(env, bundle, m, i);
      EntryIsNew(m, i);
      ghost var before := inst.tree;
      ok := inst.InstallFile(env, entry.path, Some(entry), PathsOf(m.files[..i]), bundle);
      if !ok {
        return false;
      }
      StillCopied(env, m.files[..i], before, inst.tree);
      NowCopied(env, inst.tree, entry);
      assert m.files[..i + 1] == m.files[..i] + [entry];
    }
    assert m.files[..|m.files|] == m.files;
    ok := true;
  }

  lemma NowCopied(env: Env, t: Tree, e: FileEntry)
    requires HasFile(t, e.path) && t[e.path].mode == e.mode && env.sha(t[e.path].data) == e.sha256
    ensures IsCopied(env, t, e)
  {
  }

  lemma AllListed(m: Manifest)
    requires IsManifest(m)
    ensures forall e <- m.files :: e.path in EntryPaths(m)
    ensures EntryPaths(m) + {MANIFEST_JSON} + {MANIFEST_SHA} == ExpectedFiles(m)
    ensures MANIFEST_JSON !in EntryPaths(m) && MANIFEST_SHA !in EntryPaths(m) + {MANIFEST_JSON}
  {
    hide IsSafe, IsTypeScriptPath;
    assert |MANIFEST_JSON[0]| != |MANIFEST_SHA[0]|;
  }

  lemma SourcesOfBundle(env: Env, bundle: Tree, digest: string, m: Manifest)
    ensures IsTree(bundle) && AcceptsBundle(env, bundle, digest, m) ==>
      && AreSources(env, bundle, m)
      && IsSource(env, bundle, MANIFEST_JSON, None) && IsSource(env, bundle, MANIFEST_SHA, None)
  {
    hide IsTree, MatchesEntry, IsManifest, IsDigest;
  }

  /** A tree with the keys of a bundle's closure that is part of the bundle is all of it. */
  lemma PartIsAll(env: Env, t: Tree, bundle: Tree, digest: string, m: Manifest)
    requires t.Keys == ExpectedFiles(m) + DirectoriesByPrefix(ExpectedFiles(m))
    ensures IsTree(bundle) && AcceptsBundle(env, bundle, digest, m) && PartOf(t, bundle) ==>
      t == Normalised(bundle) && AcceptsBundle(env, t, digest, m)
  {
    hide IsTree, AcceptsBundle, DirectoriesByPrefix, ExpectedFiles;
    if IsTree(bundle) && AcceptsBundle(env, bundle, digest, m) && PartOf(t, bundle) {
      VerifiedTreeIsClosed(env, bundle, digest, m);
      NormalisedMatches(env, bundle, digest, m);
      assert t.Keys == Normalised(bundle).Keys;
    }
  }

  /** The two manifest files, after the others. */
  method CopyMetadata(env: Env, inst: Installation, m: Manifest, ghost bundle: Tree) returns (ok: bool)
    requires inst.Valid() && inst.Holds(EntryPaths(m), EntryPaths(m)) && IsManifest(m)
    requires forall e <- m.files :: IsCopied(env, inst.tree, e)
    modifies inst
    ensures inst.Valid() && inst.exists_ == old(inst.exists_)
    ensures ok ==> inst.Holds(ExpectedFiles(m), ExpectedFiles(m)) && forall e <- m.files :: IsCopied(env, inst.tree, e)
    ensures Calm(inst.world, bundle) && PartOf(old(inst.tree), bundle)
      && IsSource(env, bundle, MANIFEST_JSON, None) && IsSource(env, bundle, MANIFEST_SHA, None)
      ==> ok && PartOf(inst.tree, bundle)
  {
    AllListed(m);
    hide IsManifest, EntryPaths, DirectoriesByPrefix, IsCopied, ExpectedFiles, PartOf, IsSource, Calm, Made;
    ghost var before := inst.tree;
    ok := inst.InstallFile(env, MANIFEST_JSON, None, EntryPaths(m), bundle);
    if !ok {
      return false;
    }
    StillCopied(env, m.files, before, inst.tree);
    before := inst.tree;
    ok := inst.InstallFile(env, MANIFEST_SHA, None, EntryPaths(m) + {MANIFEST_JSON}, bundle);
    if !ok {
      return false;
    }
    StillCopied(env, m.files, before, inst.tree);
  }

  /** The manifest's files, then the two manifest files, then the check of the result. */
  method CopyAll(env: Env, inst: Installation, m: Manifest, digest: string, ghost bundle: Tree) returns (ok: bool)
    requires inst.Valid() && inst.tree == map[] && IsManifest(m)
    modifies inst
    ensures inst.Valid() && inst.exists_ == old(inst.exists_)
    ensures ok ==> IsInstalled(env, inst.tree, digest, m)
    ensures Calm(inst.world, bundle) && IsTree(bundle) && AcceptsBundle(env, bundle, digest, m) ==>
      ok && inst.tree == Normalised(bundle)
  {
    hide IsManifest, EntryPaths, DirectoriesByPrefix, IsCopied, ExpectedFiles, AcceptsBundle, PartOf, IsSource;
    hide AreSources;
    hide IsTree, Normalised;
    SourcesOfBundle(env, bundle, digest, m);
    ok := CopyFiles(env, inst, m, bundle);
    if !ok {
      return false;
    }
    ok := CopyMetadata(env, inst, m, bundle);
    if !ok {
      return false;
    }
    HeldKeys(inst.tree, ExpectedFiles(m));
    PartIsAll(env, inst.tree, bundle, digest, m);
    var checkFails := inst.NextFails();
    var verified := VerifyBundle(env, inst.tree, digest);
    return !checkFails && verified.Some?;
  }

  lemma NothingHeld(inst: Installation)
    requires inst.tree == map[]
    ensures inst.Holds(PathsOf([]), PathsOf([]))
  {
    assert PathsOf([]) == {};
  }

  /** Installing a bundle into an absent or empty prefix is all or nothing, whichever step fails and whatever
  the reads yield; and when nothing fails and the bundle stays as it is, a verified bundle is installed. */
  method InstallBundle(env: Env, inst: Installation, bundle: Tree, digest: string) returns (ok: bool)
    requires inst.Valid() && inst.tree == map[]
    modifies inst
    ensures inst.exists_ == (old(inst.exists_) || ok)
    ensures ok ==> exists m :: AcceptsBundle(env, bundle, digest, m) && IsInstalled(env, inst.tree, digest, m)
    ensures !ok ==> inst.tree == map[]
    ensures Calm(inst.world, bundle) && IsTree(bundle) ==>
      (ok <==> exists m :: AcceptsBundle(env, bundle, digest, m)) && (ok ==> inst.tree == Normalised(bundle))
  {
    hide IsInstalled, AcceptsBundle, IsTree, Normalised;
    var verified := VerifyBundle(env, bundle, digest);
    if verified.None? {
      return false;
    }
    var m := verified.value;
    AcceptedManifest(env, bundle, digest, m);
    var createRoot := !inst.exists_;
    if createRoot {
      var fails := inst.NextFails();
      if fails {
        return false;
      }
      inst.exists_ := true;
    }
    ok := CopyAll(env, inst, m, digest, bundle);
    if !ok {
      inst.Undo(createRoot);
    }
  }

  lemma AcceptedManifest(env: Env, t: Tree, digest: string, m: Manifest)
    requires AcceptsBundle(env, t, digest, m)
    ensures IsManifest(m)
  {
    ManifestIsChecked(env, t, digest, m);
  }
}
