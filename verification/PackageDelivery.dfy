/** `install_archive`: check the archive, extract it checking again, and install what was extracted. */
module PackageDelivery {
  import opened Text
  import opened PackagePaths
  import opened PackageBundle
  import opened PackageArchive
  import opened PackageScan
  import opened PackageExtract
  import opened PackageInstall

  /** An accepted archive describes a tree in which every directory has the mode that directories are given. */
  lemma AcceptedTree(env: Env, members: seq<Member>, digest: string, m: Manifest)
    requires AcceptsArchive(env, members, digest, m)
    ensures IsTree(TreeOf(members)) && Normalised(TreeOf(members)) == TreeOf(members)
  {
    AcceptedScan(env, members, digest, m);
    AcceptedPath(env, members, digest, m);
    AcceptedKeys(env, members, digest, m);
    AcceptedDirectories(env, members, digest, m);
    DirectoriesArePlain(members);
    hide TreeOf, AcceptsArchive, ExpectedFiles, DirectoriesByPrefix, IsScanned, HasManifest, Directories;
    ClosedIsTree(TreeOf(members), ExpectedFiles(m));
  }

  lemma AcceptedDirectories(env: Env, members: seq<Member>, digest: string, m: Manifest)
    requires AcceptsArchive(env, members, digest, m)
    ensures Directories(TreeOf(members)) == DirectoriesByPrefix(ExpectedFiles(m))
  {
    hide TreeOf, IsScanned, HasManifest, MatchesEntry, ExpectedFiles;
    ClosuresCoincide(ExpectedFiles(m));
  }

  lemma DirectoriesArePlain(members: seq<Member>)
    requires DistinctPaths(members)
    ensures Normalised(TreeOf(members)) == TreeOf(members)
  {
    TreeEntries(members);
    hide TreeOf, PathOf, DistinctPaths;
    var t := TreeOf(members);
    forall p | p in t ensures Normalised(t)[p] == t[p] {
      var x :| x in members && PathOf(x) == p;
    }
  }

  /** A tree with the keys of a closure, and its directories where the closure has them. */
  lemma ClosedIsTree(t: Tree, files: set<Path>)
    requires t.Keys == files + DirectoriesByPrefix(files) && Directories(t) == DirectoriesByPrefix(files) && [] !in t
    ensures IsTree(t)
  {
    hide DirectoriesByPrefix;
    forall p, k | p in t && 1 <= k < |p| ensures p[..k] in t && t[p[..k]].Directory? {
      PrefixIsDirectory(files, p, k);
      assert p[..k] in Directories(t);
    }
  }

  /** The directories above a directory of a closure are in it. */
  lemma PrefixIsDirectory(files: set<Path>, p: Path, k: nat)
    requires (p in files || p in DirectoriesByPrefix(files)) && 1 <= k < |p|
    ensures p[..k] in DirectoriesByPrefix(files)
  {
    if p in files {
      assert p[..k] in ProperPrefixes(p);
    } else {
      var f :| f in files && p in ProperPrefixes(f);
      assert p[..k] == f[..k] && f[..k] in ProperPrefixes(f);
    }
  }

  lemma AcceptedPath(env: Env, members: seq<Member>, digest: string, m: Manifest)
    requires AcceptsArchive(env, members, digest, m)
    ensures [] !in TreeOf(members)
  {
    AcceptedKeys(env, members, digest, m);
    AcceptedScan(env, members, digest, m);
    ManifestIsChecked(env, TreeOf(members), digest, m);
    hide TreeOf, IsScanned, HasManifest, IsSafe, IsTypeScriptPath;
    assert [] !in ExpectedFiles(m);
  }

  /** The archive of a verified bundle meets the conditions of `InstallArchive` and describes the bundle. */
  lemma ExportCanBeInstalled(env: Env, t: Tree, digest: string, m: Manifest)
    requires IsTree(t) && AcceptsBundle(env, t, digest, m)
    requires HasPlainMetadata(t) && IsWithinLimits(Export(t))
    ensures AcceptsArchive(env, Export(t), digest, m) && HasPlainDirectories(Export(t))
    ensures TreeOf(Export(t)) == Normalised(t) && forall p <- t :: t[p].File? ==> Normalised(t)[p] == t[p]
  {
    hide IsTree, AcceptsBundle, HasPlainMetadata, IsWithinLimits, AcceptsArchive, Export, SecondPass, AreSafe, TreeOf;
    hide HasPlainDirectories;
    ExportVerifyExtract(env, t, digest, m);
    SecondPassAgrees(env, Export(t), digest, m);
  }

  /** Installing an archive is all or nothing too; and when nothing fails and the extracted files stay as they
  are, an archive is installed exactly when the first pass accepts it and its directories have mode 0755, and
  the prefix then holds what the members describe. */
  method InstallArchive(env: Env, inst: Installation, members: seq<Member>, digest: string) returns (ok: bool)
    requires inst.Valid() && inst.tree == map[]
    modifies inst
    ensures inst.exists_ == (old(inst.exists_) || ok)
    ensures ok ==> exists m :: AcceptsArchive(env, members, digest, m) && IsInstalled(env, inst.tree, digest, m)
    ensures !ok ==> inst.tree == map[]
    ensures Calm(inst.world, TreeOf(members)) ==>
      (ok <==> HasPlainDirectories(members) && exists m :: AcceptsArchive(env, members, digest, m))
    ensures Calm(inst.world, TreeOf(members)) && ok ==> inst.tree == TreeOf(members)
  {
    hide TreeOf, AcceptsArchive, SecondPass, HasPlainDirectories, IsInstalled, Calm, AcceptsBundle, IsTree, Normalised;
    var checked := VerifyArchive(env, members, digest);
    if checked.None? {
      return false;
    }
    var m := checked.value;
    SecondPassAgrees(env, members, digest, m);
    AcceptedTree(env, members, digest, m);
    var stage := ExtractArchive(env, members, digest, m);
    if stage.None? {
      return false;
    }
    ExtractedBundleVerifies(env, members, digest, m);
    ok := InstallBundle(env, inst, stage.value, digest);
    if ok {
      AcceptedIffLaidOut(env, stage.value, digest, m);
    }
  }
}
