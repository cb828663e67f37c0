/** Relative paths of a bundle, and the three ways the packaging tool closes them under parents. */
module PackagePaths {
  import opened Text

  /** The parts of a normalised relative path; `[]` is the path `.`. */
  type Path = seq<string>

  predicate IsPart(part: string) { part != "" && part != "." && part != ".." && '/' !in part }

  /** What `_safe_relative` lets through. */
  predicate IsSafe(p: Path) { forall part <- p :: IsPart(part) && '\\' !in part && '\0' !in part }

  function Join(p: Path): string {
    if p == [] then "." else if |p| == 1 then p[0] else p[0] + "/" + Join(p[1..])
  }

  /** `_safe_relative`: refuse what is empty, absolute, not normalised or escaping. */
  function SafeRelative(name: string): Option<Path> {
    if name == "" || '\\' in name || '\0' in name then None
    else if name == "." then Some([])
    else
      var parts := SplitOn(name, '/');
      if forall part <- parts :: part != "" && part != "." && part != ".." then Some(parts) else None
  }

  lemma {:induction false} SplitPlain(part: string)
    requires '/' !in part
    ensures SplitOn(part, '/') == [part]
  {
    if part != "" {
      assert part[0] in part;
      SplitPlain(part[1..]);
    }
  }

  lemma SplitFirst(part: string, rest: string)
    requires '/' !in part
    ensures SplitOn(part + "/" + rest, '/') == [part] + SplitOn(rest, '/')
  {
    SplitOnceAt(part, '/', rest);
  }

  lemma {:induction false} SplitJoined(p: Path)
    requires p != [] && forall part <- p :: '/' !in part
    ensures SplitOn(Join(p), '/') == p
  {
    if |p| == 1 {
      SplitPlain(p[0]);
    } else {
      SplitJoined(p[1..]);
      SplitFirst(p[0], Join(p[1..]));
    }
  }

  lemma {:induction false} JoinedCharacters(p: Path, c: char)
    requires p != [] && c != '/' && c in Join(p)
    ensures exists part <- p :: c in part
  {
    if |p| > 1 && c !in p[0] {
      JoinedCharacters(p[1..], c);
    }
  }

  lemma {:induction false} JoinedIsProper(p: Path)
    requires p != [] && forall part <- p :: IsPart(part)
    ensures Join(p) != "" && Join(p) != "."
  {
    assert p[0] in p;
    if |p| > 1 {
      assert Join(p)[|p[0]|] == '/';
    }
  }

  /** The name of a safe path reads back as the path. */
  lemma NameReadsBack(p: Path)
    requires IsSafe(p)
    ensures SafeRelative(Join(p)) == Some(p)
  {
    if p != [] {
      JoinedIsProper(p);
      SplitJoined(p);
      if '\\' in Join(p) {
        JoinedCharacters(p, '\\');
      }
      if '\0' in Join(p) {
        JoinedCharacters(p, '\0');
      }
    }
  }

  lemma {:induction false} JoinSplit(name: string)
    ensures SplitOn(name, '/') != [] && (SplitOn(name, '/') == [""] || name != "")
    ensures JoinParts(SplitOn(name, '/')) == name
  {
    if name != "" {
      JoinSplit(name[1..]);
    }
  }

  /** Joining any parts, empty ones included. */
  function JoinParts(parts: seq<string>): string
    requires parts != []
  {
    if |parts| == 1 then parts[0] else parts[0] + "/" + JoinParts(parts[1..])
  }

  lemma {:induction false} JoinPartsIsJoin(p: Path)
    requires p != []
    ensures JoinParts(p) == Join(p)
  {
    if |p| > 1 {
      JoinPartsIsJoin(p[1..]);
    }
  }

  /** An accepted name is its parts joined, so two with the same parts are the same name. */
  lemma PathDeterminesName(name: string)
    requires SafeRelative(name).Some?
    ensures Join(SafeRelative(name).value) == name
  {
    if name != "." {
      JoinSplit(name);
      JoinPartsIsJoin(SplitOn(name, '/'));
    }
  }

  /** A name is accepted as a path exactly when it is the name of that path and every part of the path is plain. */
  lemma AcceptedNames(name: string, p: Path)
    ensures SafeRelative(name) == Some(p) <==> (
      && Join(p) == name
      && forall part <- p ::
        part != "" && part != "." && part != ".." && '/' !in part && '\\' !in part && '\0' !in part)
  {
    if SafeRelative(name) == Some(p) {
      PathDeterminesName(name);
      AcceptedParts(name, p);
    }
    if Join(p) == name && IsSafe(p) {
      NameReadsBack(p);
    }
  }

  lemma AcceptedParts(name: string, p: Path)
    requires SafeRelative(name) == Some(p)
    ensures IsSafe(p)
  {
    hide SplitOn;
    if name != "." {
      PiecesAreParts(name, '/');
    }
  }

  /** The pieces of a text hold no separator, and no character that the text lacks. */
  lemma {:induction false} PiecesAreParts(s: string, c: char)
    ensures forall piece <- SplitOn(s, c) :: c !in piece && forall d <- piece :: d in s
    decreases |s|
  {
    match SplitOnce(s, c)
    case None =>
    case Some((a, b)) => PiecesAreParts(b, c);
  }

  // ---------------------------------------------------------------------------
  // Parent directories

  /** The loop of `verify_archive`: take the parent until it is `.`. */
  function ParentChain(p: Path): set<Path> {
    if |p| <= 1 then {} else {p[..|p| - 1]} + ParentChain(p[..|p| - 1])
  }

  /** The comprehension of `install_archive`: all of `parents` but `.`. */
  function ProperPrefixes(p: Path): set<Path> { set k | 1 <= k < |p| :: p[..k] }

  lemma {:induction false} ChainIsPrefixes(p: Path)
    ensures ParentChain(p) == ProperPrefixes(p)
  {
    if |p| > 1 {
      var parent := p[..|p| - 1];
      ChainIsPrefixes(parent);
      forall q ensures q in ParentChain(p) <==> q in ProperPrefixes(p) {
        if q in ProperPrefixes(p) && q != parent {
          var k :| 1 <= k < |p| && q == p[..k];
          assert q == parent[..k];
        }
        if q in ProperPrefixes(parent) {
          var k :| 1 <= k < |parent| && q == parent[..k];
          assert q == p[..k];
        }
        if q == parent {
          assert q == p[..|p| - 1];
        }
      }
    }
  }

  /** `is_relative_to`, as `verify_bundle` asks it of directories. */
  predicate IsAbove(directory: Path, p: Path) { directory <= p }

  lemma AboveIsPrefix(directory: Path, p: Path)
    ensures directory in ProperPrefixes(p) <==> directory != [] && IsAbove(directory, p) && directory != p
  {
    if directory <= p {
      assert directory == p[..|directory|];
    }
  }

  function DirectoriesByChain(files: set<Path>): set<Path> { set p, d | p in files && d in ParentChain(p) :: d }

  function DirectoriesByPrefix(files: set<Path>): set<Path> { set p, d | p in files && d in ProperPrefixes(p) :: d }

  /** The closures written in `verify_archive` and in `install_archive` are the same set, and it is the
  set of directories that `verify_bundle` tolerates, as long as no file is a directory. */
  lemma ClosuresCoincide(files: set<Path>)
    ensures DirectoriesByChain(files) == DirectoriesByPrefix(files)
    ensures forall d :: d in DirectoriesByPrefix(files) <==> d != [] && exists p <- files :: IsAbove(d, p) && d != p
  {
    forall d ensures d in DirectoriesByChain(files) <==> d in DirectoriesByPrefix(files) {
      if d in DirectoriesByChain(files) {
        var p :| p in files && d in ParentChain(p);
        ChainIsPrefixes(p);
      }
      if d in DirectoriesByPrefix(files) {
        var p :| p in files && d in ProperPrefixes(p);
        ChainIsPrefixes(p);
      }
    }
    forall d ensures d in DirectoriesByPrefix(files) <==> d != [] && exists p <- files :: IsAbove(d, p) && d != p {
      if d in DirectoriesByPrefix(files) {
        var p :| p in files && d in ProperPrefixes(p);
        AboveIsPrefix(d, p);
      }
      if p :| p in files && IsAbove(d, p) && d != p && d != [] {
        AboveIsPrefix(d, p);
      }
    }
  }

  /** The parent loop itself. */
  method CollectParents(p: Path, known: set<Path>) returns (directories: set<Path>)
    ensures directories == known + ParentChain(p)
  {
    directories := known;
    var parent := if p == [] then [] else p[..|p| - 1];
    while parent != []
      invariant |parent| <= |p|
      invariant known + ParentChain(p) == directories + (if parent == [] then {} else {parent} + ParentChain(parent))
      decreases |parent|
    {
      directories := directories + {parent};
      parent := parent[..|parent| - 1];
    }
  }
}
