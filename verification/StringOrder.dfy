/** The order in which Go sorts strings, and sorted lists. */
module StringOrder {
  predicate Less(a: string, b: string) {
    b != "" && (a == "" || a[0] < b[0] || (a[0] == b[0] && Less(a[1..], b[1..])))
  }

  lemma {:induction false} LessIrreflexive(a: string)
    ensures !Less(a, a)
  {
    if a != "" {
      LessIrreflexive(a[1..]);
    }
  }

  lemma {:induction false} LessTransitive(a: string, b: string, c: string)
    requires Less(a, b) && Less(b, c)
    ensures Less(a, c)
  {
    if a != "" && a[0] == b[0] && b[0] == c[0] {
      LessTransitive(a[1..], b[1..], c[1..]);
    }
  }

  lemma {:induction false} LessTotal(a: string, b: string)
    ensures Less(a, b) || a == b || Less(b, a)
  {
    if a != "" && b != "" && a[0] == b[0] {
      LessTotal(a[1..], b[1..]);
      assert a == [a[0]] + a[1..] && b == [b[0]] + b[1..];
    }
  }

  /** Where two texts first differ, or where the shorter one ends, decides. */
  lemma {:induction false} LessMeans(a: string, b: string)
    ensures Less(a, b) <==> exists k | 0 <= k <= |a| && k < |b| :: a[..k] == b[..k] && (k == |a| || a[k] < b[k])
  {
    if Less(a, b) {
      var k := FirstDifference(a, b);
      assert a[..k] == b[..k];
    }
    if k :| 0 <= k <= |a| && k < |b| && a[..k] == b[..k] && (k == |a| || a[k] < b[k]) {
      DifferenceDecides(a, b, k);
    }
  }

  lemma {:induction false} FirstDifference(a: string, b: string) returns (k: nat)
    requires Less(a, b)
    ensures k <= |a| && k < |b| && a[..k] == b[..k] && (k == |a| || a[k] < b[k])
  {
    k := 0;
    if a != "" && a[0] == b[0] {
      var rest := FirstDifference(a[1..], b[1..]);
      k := rest + 1;
      assert a[..k] == [a[0]] + a[1..][..rest] && b[..k] == [b[0]] + b[1..][..rest];
    }
  }

  lemma {:induction false} DifferenceDecides(a: string, b: string, k: nat)
    requires k <= |a| && k < |b| && a[..k] == b[..k] && (k == |a| || a[k] < b[k])
    ensures Less(a, b)
  {
    if k > 0 {
      assert a[0] == a[..k][0] && b[0] == b[..k][0];
      assert a[1..][..k - 1] == a[..k][1..] && b[1..][..k - 1] == b[..k][1..];
      DifferenceDecides(a[1..], b[1..], k - 1);
    }
  }

  /** Strictly ascending, hence without repetition. */
  predicate Ascending(xs: seq<string>) {
    forall i, j | 0 <= i < j < |xs| :: Less(xs[i], xs[j])
  }

  /** A set has one ascending list. */
  lemma {:induction false} AscendingUnique(xs: seq<string>, ys: seq<string>)
    requires Ascending(xs) && Ascending(ys)
    requires forall x :: x in xs <==> x in ys
    ensures xs == ys
  {
    assert xs != [] ==> xs[0] in xs;
    assert ys != [] ==> ys[0] in ys;
    if xs != [] {
      HeadIsLeast(xs, ys);
      HeadIsLeast(ys, xs);
      LessIrreflexiveOrEqual(xs[0], ys[0]);
      TailElements(xs, ys);
      AscendingUnique(xs[1..], ys[1..]);
    }
  }

  lemma HeadIsLeast(xs: seq<string>, ys: seq<string>)
    requires Ascending(xs) && xs != [] && ys != [] && ys[0] in xs
    ensures xs[0] == ys[0] || Less(xs[0], ys[0])
  {
  }

  lemma LessIrreflexiveOrEqual(a: string, b: string)
    requires a == b || Less(a, b)
    requires a == b || Less(b, a)
    ensures a == b
  {
    if a != b {
      LessTransitive(a, b, a);
      LessIrreflexive(a);
    }
  }

  lemma TailElements(xs: seq<string>, ys: seq<string>)
    requires Ascending(xs) && Ascending(ys) && xs != [] && ys != [] && xs[0] == ys[0]
    requires forall x :: x in xs <==> x in ys
    ensures forall x :: x in xs[1..] <==> x in ys[1..]
  {
    TailOf(xs);
    TailOf(ys);
  }

  lemma TailOf(xs: seq<string>)
    requires Ascending(xs) && xs != []
    ensures forall x :: x in xs[1..] <==> x in xs && x != xs[0]
  {
    LessIrreflexive(xs[0]);
    assert xs == [xs[0]] + xs[1..];
    forall x | x in xs[1..] ensures x != xs[0] {
      var i :| 0 <= i < |xs[1..]| && xs[1..][i] == x;
      assert Less(xs[0], xs[i + 1]);
    }
  }

  /** `sort.Strings`. */
  function Sort(xs: seq<string>): (r: seq<string>)
    ensures multiset(r) == multiset(xs)
  {
    if xs == [] then []
    else
      assert xs == [xs[0]] + xs[1..];
      Insert(xs[0], Sort(xs[1..]))
  }

  function Insert(x: string, xs: seq<string>): (r: seq<string>)
    ensures multiset(r) == multiset(xs) + multiset{x}
  {
    if xs == [] || !Less(xs[0], x) then [x] + xs
    else
      assert xs == [xs[0]] + xs[1..];
      [xs[0]] + Insert(x, xs[1..])
  }

  predicate NoRepeats(xs: seq<string>) { forall i, j | 0 <= i < j < |xs| :: xs[i] != xs[j] }

  lemma SameElements(xs: seq<string>, ys: seq<string>)
    requires multiset(xs) == multiset(ys)
    ensures forall x :: x in xs <==> x in ys
  {
    forall x ensures x in xs <==> x in ys {
      assert x in xs <==> x in multiset(xs);
      assert x in ys <==> x in multiset(ys);
    }
  }

  lemma Prepend(x: string, xs: seq<string>)
    requires Ascending(xs) && forall y <- xs :: Less(x, y)
    ensures Ascending([x] + xs)
  {
    var all := [x] + xs;
    forall i, j | 0 <= i < j < |all| ensures Less(all[i], all[j]) {
      assert all[j] == xs[j - 1];
    }
  }

  lemma {:induction false} InsertAscends(x: string, xs: seq<string>)
    requires Ascending(xs) && x !in xs
    ensures Ascending(Insert(x, xs))
  {
    SameElements(Insert(x, xs), xs + [x]);
    if xs != [] {
      LessTotal(xs[0], x);
      if Less(xs[0], x) {
        InsertAscends(x, xs[1..]);
        SameElements(Insert(x, xs[1..]), xs[1..] + [x]);
        var tail := Insert(x, xs[1..]);
        forall y | y in tail ensures Less(xs[0], y) {
          assert y in xs[1..] + [x];
        }
        Prepend(xs[0], tail);
      } else {
        forall y | y in xs[1..] ensures Less(x, y) {
          LessTransitive(x, xs[0], y);
        }
        Prepend(x, xs);
      }
    }
  }

  /** Sorting a list without repetition. */
  lemma {:induction false} SortAscends(xs: seq<string>)
    requires NoRepeats(xs)
    ensures Ascending(Sort(xs)) && forall x :: x in Sort(xs) <==> x in xs
  {
    SameElements(Sort(xs), xs);
    if xs != [] {
      SortAscends(xs[1..]);
      InsertAscends(xs[0], Sort(xs[1..]));
    }
  }

  /** The ascending list of a set. */
  ghost function SortedSet(s: set<string>): (r: seq<string>)
    ensures Ascending(r) && forall x :: x in r <==> x in s
  {
    var xs := Enumerate(s);
    SortAscends(xs);
    Sort(xs)
  }

  ghost function Enumerate(s: set<string>): (r: seq<string>)
    ensures NoRepeats(r) && forall x :: x in r <==> x in s
  {
    if s == {} then [] else var x :| x in s; [x] + Enumerate(s - {x})
  }

  /** Collect the keys of a map in any order, then sort them. */
  method SortKeys(s: set<string>) returns (r: seq<string>)
    ensures r == SortedSet(s)
  {
    r := [];
    var rest := s;
    while rest != {}
      invariant NoRepeats(r) && forall x :: x in s <==> (x in r || x in rest)
      invariant forall x <- r :: x !in rest
      decreases |rest|
    {
      var x :| x in rest;
      rest := rest - {x};
      r := r + [x];
    }
    SortAscends(r);
    r := Sort(r);
    AscendingUnique(r, SortedSet(s));
  }
}
