/** Observable changes, their stable keys, their summaries and the stable-ID filter. */
module Changes {
  import opened Text
  import opened StringOrder
  import opened CountMaps
  import J = Json

  /** A JSON value; two values are equal when their JSON texts are. */
  type Value = J.Json

  datatype Change = Change(
    id: string, category: string, field: string, before: Value, after: Value, identity: string)
  {
    function StableID(): string { if id != "" then id else StableChangeID(category, field) }
  }

  function StableChangeID(category: string, field: string): string { category + "." + field }

  function NewChange(category: string, field: string, before: Value, after: Value): Change {
    Change(StableChangeID(category, field), category, field, before, after, "")
  }

  /** Whether the key of one category can be read as a key of another. */
  predicate CanConfuse(c1: string, c2: string) { c1 + "." <= c2 }

  lemma SplitKey(c1: string, f1: string, c2: string, f2: string)
    requires StableChangeID(c1, f1) == StableChangeID(c2, f2)
    ensures |c1| == |c2| ==> c1 == c2 && f1 == f2
    ensures |c1| < |c2| ==> CanConfuse(c1, c2)
  {
    var s := StableChangeID(c1, f1);
    assert c1 == s[..|c1|] && f1 == s[|c1| + 1..] && c1 + "." == s[..|c1| + 1];
    assert c2 == s[..|c2|] && f2 == s[|c2| + 1..];
  }

  lemma ConfusedHasDot(c1: string, c2: string)
    requires CanConfuse(c1, c2)
    ensures '.' in c2 && |c1| < |c2|
  {
    assert c2[|c1|] == '.';
  }

  /** One text can be a key of both categories. */
  lemma ConfusedKey(c1: string, c2: string)
    requires CanConfuse(c1, c2)
    ensures c1 != c2 && StableChangeID(c1, c2[|c1| + 1..] + ".") == StableChangeID(c2, "")
  {
    assert c2 == c1 + "." + c2[|c1| + 1..];
  }

  ghost predicate KeysDetermine(c1: string, c2: string) {
    forall f1: string, f2: string :: StableChangeID(c1, f1) == StableChangeID(c2, f2) ==> c1 == c2 && f1 == f2
  }

  /** The keys of two categories are unambiguous exactly when neither category, with a dot, begins the other. */
  lemma KeysDetermineIff(c1: string, c2: string)
    ensures KeysDetermine(c1, c2) <==> !CanConfuse(c1, c2) && !CanConfuse(c2, c1)
  {
    hide StableChangeID, CanConfuse;
    if CanConfuse(c1, c2) {
      ConfusedHasDot(c1, c2);
      ConfusedKey(c1, c2);
      assert StableChangeID(c1, c2[|c1| + 1..] + ".") == StableChangeID(c2, "");
    } else if CanConfuse(c2, c1) {
      ConfusedHasDot(c2, c1);
      ConfusedKey(c2, c1);
      assert StableChangeID(c1, "") == StableChangeID(c2, c1[|c2| + 1..] + ".");
    } else {
      forall f1: string, f2: string | StableChangeID(c1, f1) == StableChangeID(c2, f2) ensures c1 == c2 && f1 == f2 {
        SplitKey(c1, f1, c2, f2);
        SplitKey(c2, f2, c1, f1);
      }
    }
  }

  /** So they are over a set of categories, when this holds of any two of them. */
  lemma KeysDetermineAmong(categories: set<string>)
    ensures (forall c1 <- categories, c2 <- categories :: KeysDetermine(c1, c2))
      <==> forall c1 <- categories, c2 <- categories :: !CanConfuse(c1, c2)
  {
    hide KeysDetermine, CanConfuse;
    forall c1 <- categories, c2 <- categories
      ensures KeysDetermine(c1, c2) <==> !CanConfuse(c1, c2) && !CanConfuse(c2, c1)
    {
      KeysDetermineIff(c1, c2);
    }
  }

  /** In particular when categories have no dot. */
  lemma DotlessKeysAreInjective(c1: string, f1: string, c2: string, f2: string)
    requires '.' !in c1 && '.' !in c2 && StableChangeID(c1, f1) == StableChangeID(c2, f2)
    ensures c1 == c2 && f1 == f2
  {
    hide StableChangeID, CanConfuse;
    KeysDetermineIff(c1, c2);
    if CanConfuse(c1, c2) {
      ConfusedHasDot(c1, c2);
    }
    if CanConfuse(c2, c1) {
      ConfusedHasDot(c2, c1);
    }
  }

  /** In general they are not. */
  lemma KeysAreNotInjective()
    ensures StableChangeID("rules.a", "status") == StableChangeID("rules", "a.status")
  {
    assert "rules" + ".a" == "rules.a";
  }

  predicate DistinctIDs(changes: seq<Change>) {
    forall i, j | 0 <= i < j < |changes| :: changes[i].id != changes[j].id
  }

  // ---------------------------------------------------------------------------
  // Summaries

  datatype ChangeSummary = ChangeSummary(total: int, byCategory: map<string, int>)

  predicate IsBlank(s: string) { Trim(s) == "" }

  function Categories(changes: seq<Change>): (r: seq<string>)
    ensures |r| == |changes| && forall i | 0 <= i < |r| :: r[i] == changes[i].category
  {
    seq(|changes|, i requires 0 <= i < |changes| => changes[i].category)
  }

  function Summarize(changes: seq<Change>): ChangeSummary {
    ChangeSummary(|changes|, Tally(Categories(changes)))
  }

  method SummarizeChanges(changes: seq<Change>) returns (summary: ChangeSummary)
    ensures summary == Summarize(changes)
  {
    summary := ChangeSummary(|changes|, map[]);
    assert Categories(changes)[..0] == [];
    for i := 0 to |changes|
      invariant summary == ChangeSummary(|changes|, Tally(Categories(changes)[..i]))
    {
      BumpIsTally(Categories(changes)[..i], changes[i].category);
      assert Categories(changes)[..i + 1] == Categories(changes)[..i] + [changes[i].category];
      summary := summary.(byCategory := Bump(summary.byCategory, changes[i].category));
    }
    assert Categories(changes)[..|changes|] == Categories(changes);
  }

  ghost predicate IsValidSummary(summary: ChangeSummary) {
    && summary.total >= 0
    && (forall k <- summary.byCategory :: !IsBlank(k) && summary.byCategory[k] >= 0)
    && Sum(summary.byCategory) == summary.total
  }

  /** `ChangeSummary.Validate`; the categories come in any order. */
  method ValidateSummary(summary: ChangeSummary) returns (ok: bool)
    ensures ok == IsValidSummary(summary)
  {
    if summary.total < 0 {
      return false;
    }
    var total := 0;
    var rest := summary.byCategory;
    while rest != map[]
      invariant Sum(summary.byCategory) == total + Sum(rest)
      invariant forall k <- rest :: k in summary.byCategory && rest[k] == summary.byCategory[k]
      invariant forall k <- summary.byCategory :: k in rest || (!IsBlank(k) && summary.byCategory[k] >= 0)
      decreases |rest|
    {
      var k :| k in rest;
      if IsBlank(k) || rest[k] < 0 {
        return false;
      }
      SumSplits(rest, k);
      total := total + rest[k];
      rest := rest - {k};
    }
    return total == summary.total;
  }

  /** The category counts sum to the number of changes, so a computed summary is valid exactly when no
  change has a blank category. */
  lemma SummaryConserves(changes: seq<Change>)
    ensures Sum(Summarize(changes).byCategory) == |changes|
    ensures IsValidSummary(Summarize(changes)) <==> forall c <- changes :: !IsBlank(c.category)
  {
    TallySum(Categories(changes));
    if IsValidSummary(Summarize(changes)) {
      forall c <- changes ensures !IsBlank(c.category) {
        assert c.category in Categories(changes);
      }
    }
  }

  // ---------------------------------------------------------------------------
  // The filter

  function Normalized(ids: seq<string>): set<string> {
    set id | id in ids && !IsBlank(id) :: Trim(id)
  }

  method NormalizedChangeIDs(ids: seq<string>) returns (selected: set<string>)
    ensures selected == Normalized(ids)
  {
    selected := {};
    for i := 0 to |ids|
      invariant selected == Normalized(ids[..i])
    {
      assert ids[..i + 1] == ids[..i] + [ids[i]];
      var id := Trim(ids[i]);
      if id != "" {
        selected := selected + {id};
      }
    }
    assert ids[..|ids|] == ids;
  }

  method SortedChangeIDs(ids: seq<string>) returns (sorted: seq<string>)
    ensures sorted == SortedSet(Normalized(ids))
  {
    var selected := NormalizedChangeIDs(ids);
    sorted := SortKeys(selected);
  }

  /** A change with its key stored. */
  function Fill(change: Change): Change { if change.id == "" then change.(id := change.StableID()) else change }

  predicate Selects(selected: set<string>, change: Change) { selected == {} || change.StableID() in selected }

  function Keep(changes: seq<Change>, selected: set<string>): seq<Change> {
    if changes == [] then []
    else
      var last := changes[|changes| - 1];
      Keep(changes[..|changes| - 1], selected) + if Selects(selected, last) then [Fill(last)] else []
  }

  method FilterChanges(changes: seq<Change>, ids: seq<string>) returns (filtered: seq<Change>)
    ensures filtered == Keep(changes, Normalized(ids))
  {
    var selected := NormalizedChangeIDs(ids);
    filtered := [];
    for i := 0 to |changes|
      invariant filtered == Keep(changes[..i], selected)
    {
      assert changes[..i + 1][..i] == changes[..i];
      var change := changes[i];
      if change.id == "" {
        change := change.(id := change.StableID());
      }
      if selected == {} {
        filtered := filtered + [change];
        continue;
      }
      if change.StableID() in selected {
        filtered := filtered + [change];
      }
    }
    assert changes[..|changes|] == changes;
  }

  // Laws of the filter

  lemma KeepStep(changes: seq<Change>, selected: set<string>)
    requires changes != []
    ensures var front, last := changes[..|changes| - 1], changes[|changes| - 1];
      && changes == front + [last]
      && Keep(changes, selected)
         == if Selects(selected, last) then Keep(front, selected) + [Fill(last)] else Keep(front, selected)
  {
  }

  lemma {:induction false} KeepAppend(xs: seq<Change>, ys: seq<Change>, selected: set<string>)
    ensures Keep(xs + ys, selected) == Keep(xs, selected) + Keep(ys, selected)
  {
    if ys == [] {
      assert xs + ys == xs;
    } else {
      assert (xs + ys)[..|xs + ys| - 1] == xs + ys[..|ys| - 1];
      KeepAppend(xs, ys[..|ys| - 1], selected);
    }
  }

  /** Filtering twice keeps what both filters select. */
  lemma {:induction false} KeepTwice(changes: seq<Change>, a: set<string>, b: set<string>)
    requires a * b != {} || a == {} || b == {}
    ensures Keep(Keep(changes, a), b) == Keep(changes, if a == {} then b else if b == {} then a else a * b)
  {
    if changes != [] {
      var front, last := changes[..|changes| - 1], changes[|changes| - 1];
      KeepTwice(front, a, b);
      KeepStep(changes, a);
      KeepStep(changes, if a == {} then b else if b == {} then a else a * b);
      if Selects(a, last) {
        assert Keep([Fill(last)], b) == if Selects(b, Fill(last)) then [Fill(Fill(last))] else [] by {
          assert [Fill(last)][..0] == [];
        }
        KeepAppend(Keep(front, a), [Fill(last)], b);
      }
    }
  }

  lemma {:induction false} KeepDisjoint(changes: seq<Change>, a: set<string>, b: set<string>)
    requires a * b == {} && a != {} && b != {}
    ensures Keep(Keep(changes, a), b) == []
  {
    if changes != [] {
      var front, last := changes[..|changes| - 1], changes[|changes| - 1];
      KeepDisjoint(front, a, b);
      KeepStep(changes, a);
      if Selects(a, last) {
        assert last.StableID() !in a * b;
        assert [Fill(last)][..0] == [];
        KeepAppend(Keep(front, a), [Fill(last)], b);
      }
    }
  }

  lemma {:induction false} KeepAll(changes: seq<Change>, selected: set<string>)
    ensures Keep(changes, selected) == Keep(changes, {}) <==> forall c <- changes :: Selects(selected, c)
    ensures |Keep(changes, selected)| <= |changes| && |Keep(changes, {})| == |changes|
  {
    if changes != [] {
      var front, last := changes[..|changes| - 1], changes[|changes| - 1];
      assert changes == front + [last];
      KeepAll(front, selected);
      if Keep(changes, selected) == Keep(changes, {}) {
        assert Keep(changes, {}) == Keep(front, {}) + [Fill(last)];
        assert Selects(selected, last);
        assert Keep(changes, selected)[..|front|] == Keep(front, selected);
        assert Keep(changes, {})[..|front|] == Keep(front, {});
      }
    }
  }

  /** Filtering by A and then by B is filtering by A * B exactly when that set is not empty, or when
  every change is selected by both. An empty selection selects everything, hence the second case. */
  lemma FilterTwice(changes: seq<Change>, a: set<string>, b: set<string>)
    ensures Keep(Keep(changes, a), b) == Keep(changes, a * b)
      <==> a * b != {} || forall c <- changes :: Selects(a, c) && Selects(b, c)
  {
    if a * b != {} {
      KeepTwice(changes, a, b);
    } else if a == {} || b == {} {
      KeepTwice(changes, a, b);
      KeepAll(changes, if a == {} then b else a);
    } else {
      KeepDisjoint(changes, a, b);
      KeepAll(changes, {});
      if changes != [] {
        var c := changes[0];
        assert c.StableID() !in a * b;
      }
    }
  }

  /** Two selections with nothing in common: one after the other they keep nothing, their intersection
  everything. */
  lemma DisjointFilters(change: Change, x: string, y: string)
    requires x != y && change.StableID() != x && change.StableID() != y
    ensures Keep(Keep([change], {x}), {y}) == [] && Keep([change], {x} * {y}) == [Fill(change)]
  {
    var changes := [change];
    assert changes[..0] == [] && {x} * {y} == {};
    assert Keep(changes, {x}) == [];
  }

  /** The changes a nonempty selection leaves out. */
  function Rest(changes: seq<Change>, selected: set<string>): seq<Change> {
    if changes == [] then []
    else
      var last := changes[|changes| - 1];
      Rest(changes[..|changes| - 1], selected) + if Selects(selected, last) then [] else [Fill(last)]
  }

  /** Two lists merged back: each flag says which of them the next change comes from. */
  function Merge(flags: seq<bool>, xs: seq<Change>, ys: seq<Change>): Option<seq<Change>> {
    if flags == [] then if xs == [] && ys == [] then Some([]) else None
    else
      var source := if flags[|flags| - 1] then xs else ys;
      if source == [] then None
      else
        var last, front := source[|source| - 1], source[..|source| - 1];
        match (if flags[|flags| - 1] then Merge(flags[..|flags| - 1], front, ys)
               else Merge(flags[..|flags| - 1], xs, front))
        case None => None
        case Some(merged) => Some(merged + [last])
  }

  function Flags(changes: seq<Change>, selected: set<string>): seq<bool> {
    seq(|changes|, i requires 0 <= i < |changes| => Selects(selected, changes[i]))
  }

  /** The kept and the left-out changes partition the list, each in the order of the list. */
  lemma {:induction false} FilterPartitions(changes: seq<Change>, selected: set<string>)
    ensures Merge(Flags(changes, selected), Keep(changes, selected), Rest(changes, selected)) == Some(Keep(changes, {}))
    ensures |Keep(changes, selected)| + |Rest(changes, selected)| == |changes|
    ensures forall c <- Keep(changes, selected) :: Selects(selected, c)
    ensures forall c <- Rest(changes, selected) :: !Selects(selected, c)
  {
    if changes != [] {
      var front, last := changes[..|changes| - 1], changes[|changes| - 1];
      FilterPartitions(front, selected);
      KeepStep(changes, selected);
      KeepStep(changes, {});
      assert Flags(changes, selected) == Flags(front, selected) + [Selects(selected, last)];
      hide Keep, Merge, Flags, Fill, Selects;
      MergeOne(Flags(front, selected), Keep(front, selected), Rest(front, selected), Keep(front, {}), Fill(last));
      assert Rest(front, selected) + [] == Rest(front, selected);
    }
  }

  lemma MergeOne(flags: seq<bool>, xs: seq<Change>, ys: seq<Change>, merged: seq<Change>, c: Change)
    requires Merge(flags, xs, ys) == Some(merged)
    ensures Merge(flags + [true], xs + [c], ys) == Some(merged + [c])
    ensures Merge(flags + [false], xs, ys + [c]) == Some(merged + [c])
  {
    assert (flags + [true])[..|flags|] == flags && (flags + [false])[..|flags|] == flags;
    assert (xs + [c])[..|xs|] == xs && (ys + [c])[..|ys|] == ys;
  }

  /** What the filter does to a list whose keys are stored: a sublist, hence still without duplicates. */
  lemma {:induction false} KeepIsSublist(changes: seq<Change>, selected: set<string>)
    requires forall c <- changes :: c.id != ""
    ensures forall c :: c in Keep(changes, selected) <==> c in changes && Selects(selected, c)
    ensures DistinctIDs(changes) ==> DistinctIDs(Keep(changes, selected))
  {
    if changes != [] {
      var front, last := changes[..|changes| - 1], changes[|changes| - 1];
      KeepStep(changes, selected);
      KeepIsSublist(front, selected);
      if DistinctIDs(changes) {
        forall c <- Keep(front, selected) ensures c.id != last.id {
          assert c in front;
        }
      }
    }
  }
}
