/** What the counts of a series say: each is the number of places in its points where the counted thing stands. */
module SeriesMeaning {
  import opened Text
  import opened StringOrder
  import opened CountMaps
  import opened Changes
  import opened Reports
  import opened Bundle
  import opened BundleFilter
  import opened Series

  // ---------------------------------------------------------------------------
  // Places in lists of texts

  function Flat(lists: seq<seq<string>>): seq<string> {
    if lists == [] then [] else Flat(lists[..|lists| - 1]) + lists[|lists| - 1]
  }

  predicate IsPlace(lists: seq<seq<string>>, place: (nat, nat)) {
    place.0 < |lists| && place.1 < |lists[place.0]|
  }

  ghost function Row(i: nat, n: nat): (r: set<(nat, nat)>)
    ensures forall place :: place in r <==> place.0 == i && place.1 < n
    ensures |r| == n
  {
    if n == 0 then {} else Row(i, n - 1) + {(i, n - 1)}
  }

  /** The positions of the texts: in which list, and where in it. */
  ghost function AllPlaces(lists: seq<seq<string>>): (r: set<(nat, nat)>)
    ensures forall place :: place in r <==> IsPlace(lists, place)
  {
    if lists == [] then {} else AllPlaces(lists[..|lists| - 1]) + Row(|lists| - 1, |lists[|lists| - 1]|)
  }

  /** Where a text stands. */
  ghost function Places(lists: seq<seq<string>>, text: string): set<(nat, nat)> {
    set place | place in AllPlaces(lists) && lists[place.0][place.1] == text
  }

  ghost function InRow(i: nat, row: seq<string>, text: string): set<(nat, nat)> {
    set place | place in Row(i, |row|) && row[place.1] == text
  }

  lemma NextInRow(i: nat, row: seq<string>, last: string, text: string)
    ensures |InRow(i, row + [last], text)| == |InRow(i, row, text)| + if last == text then 1 else 0
  {
    hide Row;
    assert InRow(i, row + [last], text) == InRow(i, row, text) + if last == text then {(i, |row|)} else {};
  }

  lemma NoneInRow(i: nat, text: string)
    ensures InRow(i, [], text) == {}
  {
  }

  lemma {:induction false} RowCount(i: nat, row: seq<string>, text: string)
    ensures |InRow(i, row, text)| == multiset(row)[text]
  {
    hide InRow;
    if row == [] {
      NoneInRow(i, text);
    } else {
      var front, last := row[..|row| - 1], row[|row| - 1];
      RowCount(i, front, text);
      NextInRow(i, front, last, text);
      assert row == front + [last];
    }
  }

  lemma NextRow(lists: seq<seq<string>>, row: seq<string>, text: string)
    ensures Places(lists + [row], text) == Places(lists, text) + InRow(|lists|, row, text)
    ensures Places(lists, text) !! InRow(|lists|, row, text)
  {
    hide AllPlaces, Row;
  }

  lemma NextPlaces(lists: seq<seq<string>>, row: seq<string>)
    ensures |AllPlaces(lists + [row])| == |AllPlaces(lists)| + |row|
  {
    hide AllPlaces, Row;
    assert AllPlaces(lists + [row]) == AllPlaces(lists) + Row(|lists|, |row|);
    assert AllPlaces(lists) !! Row(|lists|, |row|);
  }

  lemma NoPlaces(text: string)
    ensures |Places([], text)| == 0 && |AllPlaces([])| == 0 && Flat([]) == []
  {
  }

  lemma NextCount(lists: seq<seq<string>>, row: seq<string>, text: string)
    ensures |Places(lists + [row], text)| == |Places(lists, text)| + multiset(row)[text]
  {
    NextRow(lists, row, text);
    RowCount(|lists|, row, text);
    hide Places, InRow;
  }

  lemma NextFlat(lists: seq<seq<string>>, row: seq<string>)
    ensures Flat(lists + [row]) == Flat(lists) + row
  {
    assert (lists + [row])[..|lists|] == lists;
  }

  /** A text stands in as many places as it has occurrences in the lists joined. */
  lemma {:induction false} PlaceCount(lists: seq<seq<string>>, text: string)
    ensures |Places(lists, text)| == multiset(Flat(lists))[text] && |AllPlaces(lists)| == |Flat(lists)|
  {
    hide Places, AllPlaces, Flat;
    if lists == [] {
      NoPlaces(text);
    } else {
      var front, last := lists[..|lists| - 1], lists[|lists| - 1];
      PlaceCount(front, text);
      NextCount(front, last, text);
      NextPlaces(front, last);
      NextFlat(front, last);
      assert lists == front + [last];
    }
  }

  lemma TallyCount(lists: seq<seq<string>>, text: string)
    ensures Lookup(Tally(Flat(lists)), text) == |Places(lists, text)|
  {
    PlaceCount(lists, text);
    hide Places, AllPlaces, Flat;
    assert text !in Flat(lists) ==> multiset(Flat(lists))[text] == 0;
  }

  function ListsOf(points: seq<Point>, keys: Point -> seq<string>): (r: seq<seq<string>>)
    ensures |r| == |points| && forall i | 0 <= i < |r| :: r[i] == keys(points[i])
  {
    seq(|points|, i requires 0 <= i < |points| => keys(points[i]))
  }

  lemma {:induction false} GatherIsFlat(points: seq<Point>, keys: Point -> seq<string>)
    ensures Gather(points, keys) == Flat(ListsOf(points, keys))
  {
    if points != [] {
      var front := points[..|points| - 1];
      GatherIsFlat(front, keys);
      assert ListsOf(points, keys)[..|points| - 1] == ListsOf(front, keys);
    }
  }

  /** Counting what the points list, when `lists` holds for each point what it lists. */
  lemma GatherCount(points: seq<Point>, keys: Point -> seq<string>, lists: seq<seq<string>>, text: string)
    requires |lists| == |points| && forall i | 0 <= i < |points| :: lists[i] == keys(points[i])
    ensures Lookup(Tally(Gather(points, keys)), text) == |Places(lists, text)|
    ensures |Gather(points, keys)| == |AllPlaces(lists)|
  {
    hide Lookup, Tally, Gather, Flat, Places, AllPlaces;
    assert ListsOf(points, keys) == lists;
    GatherIsFlat(points, keys);
    TallyCount(lists, text);
    PlaceCount(lists, text);
  }

  // ---------------------------------------------------------------------------
  // The counts of an accepted series

  /** The entry counts: all points, the compatible and the others. */
  lemma EntriesMean(s: Series)
    requires IsSeries(s)
    ensures s.summary.entries == |s.entries|
    ensures s.summary.compatible == |With(s.entries, true)|
    ensures s.summary.incompatible == |With(s.entries, false)|
  {
    hide IsSeriesSummary, IsPoint, Gather, NoBlanks, SumTotals, SummarizeCorrelations, SummarizeTransitions;
    hide CountMapsEqual, CorrelationSummariesEqual, TransitionMapsEqual, IsBlank, Tally, With;
    CompatibleCount(s.entries);
  }

  predicate IsOne(p: Point, compatible: bool) { p.summary.compatible == compatible }

  /** The compatible points, or the others. */
  ghost function With(points: seq<Point>, compatible: bool): set<nat> {
    set i: nat | i < |points| && IsOne(points[i], compatible)
  }

  lemma WithStep(points: seq<Point>, p: Point, compatible: bool)
    ensures |With(points + [p], compatible)|
      == |With(points, compatible)| + if IsOne(p, compatible) then 1 else 0
  {
    hide IsOne;
    assert With(points + [p], compatible)
      == With(points, compatible) + if IsOne(p, compatible) then {|points|} else {};
  }

  lemma {:induction false} CompatibleCount(points: seq<Point>)
    ensures CountCompatible(points) == |With(points, true)|
    ensures |points| - CountCompatible(points) == |With(points, false)|
  {
    if points == [] {
      assert With(points, true) == {} && With(points, false) == {};
    } else {
      var front, last := points[..|points| - 1], points[|points| - 1];
      CompatibleCount(front);
      WithStep(front, last, true);
      WithStep(front, last, false);
      assert points == front + [last];
      hide With;
    }
  }

  /** The mutation ids: each counted wherever a point lists it. */
  lemma MutationIdsMean(s: Series, lists: seq<seq<string>>, id: string)
    requires IsSeries(s)
    requires |lists| == |s.entries| && forall i | 0 <= i < |lists| :: lists[i] == s.entries[i].mutationIds
    ensures Lookup(s.summary.mutationChangesById, id) == |Places(lists, id)|
  {
    CheckedMapsAreRecounts(s);
    hide IsSeries, Tally, Gather, SummarizeCorrelations, SummarizeTransitions, Lookup, Places;
    GatherCount(s.entries, MutationIdsOf, lists, id);
  }

  /** The rule ids likewise. */
  lemma RuleIdsMean(s: Series, lists: seq<seq<string>>, id: string)
    requires IsSeries(s)
    requires |lists| == |s.entries| && forall i | 0 <= i < |lists| :: lists[i] == s.entries[i].ruleIds
    ensures Lookup(s.summary.ruleChangesById, id) == |Places(lists, id)|
  {
    CheckedMapsAreRecounts(s);
    hide IsSeries, Tally, Gather, SummarizeCorrelations, SummarizeTransitions, Lookup, Places;
    GatherCount(s.entries, RuleIdsOf, lists, id);
  }

  lemma KindLists(points: seq<Point>, kinds: seq<seq<string>>, relations: seq<seq<string>>)
    requires |kinds| == |relations| == |points|
    requires forall i | 0 <= i < |kinds| ::
      && |kinds[i]| == |points[i].correlations|
      && forall j | 0 <= j < |kinds[i]| :: kinds[i][j] == points[i].correlations[j].kind
    requires forall i | 0 <= i < |relations| ::
      && |relations[i]| == |points[i].correlations|
      && forall j | 0 <= j < |relations[i]| :: relations[i][j] == points[i].correlations[j].relation
    ensures forall i | 0 <= i < |points| :: kinds[i] == Kinds(points[i]) && relations[i] == Relations(points[i])
  {
  }

  /** The correlations: each counted once, under its kind and under its relation. */
  lemma CorrelationCountsMean(s: Series, kinds: seq<seq<string>>, relations: seq<seq<string>>, text: string)
    requires IsSeries(s) && |kinds| == |relations| == |s.entries|
    requires forall i | 0 <= i < |kinds| ::
      && |kinds[i]| == |s.entries[i].correlations|
      && forall j | 0 <= j < |kinds[i]| :: kinds[i][j] == s.entries[i].correlations[j].kind
    requires forall i | 0 <= i < |relations| ::
      && |relations[i]| == |s.entries[i].correlations|
      && forall j | 0 <= j < |relations[i]| :: relations[i][j] == s.entries[i].correlations[j].relation
    ensures s.summary.correlations.observations == |AllPlaces(kinds)|
    ensures Lookup(s.summary.correlations.byKind, text) == |Places(kinds, text)|
    ensures Lookup(s.summary.correlations.byRelation, text) == |Places(relations, text)|
  {
    CheckedMapsAreRecounts(s);
    hide IsSeries, Tally, Gather, SummarizeTransitions, Lookup, Places, AllPlaces;
    KindLists(s.entries, kinds, relations);
    hide Kinds, Relations;
    GatherCount(s.entries, Kinds, kinds, text);
    GatherCount(s.entries, Relations, relations, text);
  }

  /** The warnings: each counted wherever a point's summary lists it, unless it is blank. */
  lemma WarningCountsMean(s: Series, lists: seq<seq<string>>, text: string)
    requires IsSeries(s)
    requires |lists| == |s.entries| && forall i | 0 <= i < |lists| :: lists[i] == s.entries[i].summary.warnings
    ensures Lookup(s.summary.warnings, text) == if Trim(text) == "" then 0 else |Places(lists, text)|
  {
    CheckedMapsAreRecounts(s);
    hide IsSeries, Tally, Gather, SummarizeTransitions, SummarizeCorrelations, Lookup, Trim, Places, AllPlaces;
    GatherCount(s.entries, StatedWarnings, lists, text);
    VisibleOccurrences(s.entries, text);
    TallyOccurrences(Gather(s.entries, WarningsOf), text);
    TallyOccurrences(Gather(s.entries, StatedWarnings), text);
  }

  lemma TallyOccurrences(keys: seq<string>, text: string)
    ensures Lookup(Tally(keys), text) == multiset(keys)[text]
  {
    assert text !in keys ==> multiset(keys)[text] == 0;
  }

  function StatedWarnings(p: Point): seq<string> { p.summary.warnings }

  lemma {:induction false} NonBlankCount(texts: seq<string>, text: string)
    ensures multiset(NonBlank(texts))[text] == if IsBlank(text) then 0 else multiset(texts)[text]
  {
    hide IsBlank;
    if texts != [] {
      var front, last := texts[..|texts| - 1], texts[|texts| - 1];
      assert texts == front + [last];
      NonBlankCount(front, text);
    }
  }

  lemma {:induction false} VisibleOccurrences(points: seq<Point>, text: string)
    ensures multiset(Gather(points, WarningsOf))[text]
      == if IsBlank(text) then 0 else multiset(Gather(points, StatedWarnings))[text]
  {
    hide IsBlank, NonBlank;
    if points != [] {
      var front, last := points[..|points| - 1], points[|points| - 1];
      VisibleOccurrences(front, text);
      NonBlankCount(last.summary.warnings, text);
    }
  }

  // ---------------------------------------------------------------------------
  // Transitions

  predicate Makes(p: Point, name: string, k: Classification) {
    name in p.summary.subsystems && p.summary.subsystems[name].transition.classification == k
  }

  /** The points at which a subsystem makes a transition of a class. */
  ghost function Making(points: seq<Point>, name: string, k: Classification): set<nat> {
    set i: nat | i < |points| && Makes(points[i], name, k)
  }

  lemma MakingStep(points: seq<Point>, p: Point, name: string, k: Classification)
    ensures |Making(points + [p], name, k)| == |Making(points, name, k)| + if Makes(p, name, k) then 1 else 0
  {
    hide Makes;
    assert Making(points + [p], name, k) == Making(points, name, k) + if Makes(p, name, k) then {|points|} else {};
  }

  lemma NoneMaking(name: string, k: Classification)
    ensures Making([], name, k) == {}
  {
  }

  lemma {:induction false} TransitionCount(points: seq<Point>, name: string)
    ensures var m := SummarizeTransitions(points); var c := CountsOf(m, name);
      && c.same == |Making(points, name, Unchanged)|
      && c.changed == |Making(points, name, Changed)|
      && c.incompatible == |Making(points, name, Incompatible)|
  {
    hide Making;
    if points == [] {
      NoneMaking(name, Unchanged);
      NoneMaking(name, Changed);
      NoneMaking(name, Incompatible);
    } else {
      var front, last := points[..|points| - 1], points[|points| - 1];
      assert points == front + [last];
      TransitionCount(front, name);
      MakingStep(front, last, name, Unchanged);
      MakingStep(front, last, name, Changed);
      MakingStep(front, last, name, Incompatible);
    }
  }

  /** The transition counts of a subsystem: the points at which its transition has that class. A subsystem with
  none of these has no counts. */
  lemma TransitionsMean(s: Series, name: string)
    requires IsSeries(s)
    ensures var m := s.summary.transitions; var c := CountsOf(m, name);
      && c.same == |Making(s.entries, name, Unchanged)|
      && c.changed == |Making(s.entries, name, Changed)|
      && c.incompatible == |Making(s.entries, name, Incompatible)|
      && (name in m <==> c != NO_TRANSITIONS)
  {
    CheckedMapsAreRecounts(s);
    TransitionCount(s.entries, name);
    TransitionsAreBounded(s.entries);
    hide IsSeries, SummarizeTransitions, Making, Gather, SummarizeCorrelations, Tally;
  }

  // ---------------------------------------------------------------------------
  // The series that is built

  /** The stable ids of each bundle's changes, the changes of its reports in their order. */
  ghost function KeyLists(bundles: seq<Bundle>): (r: seq<seq<string>>)
    ensures |r| == |bundles| && forall i | 0 <= i < |r| :: r[i] == StableIDs(AllChanges(Parts(bundles[i])))
  {
    seq(|bundles|, i requires 0 <= i < |bundles| => StableIDs(AllChanges(Parts(bundles[i]))))
  }

  lemma {:induction false} ChangeKeysAreFlat(bundles: seq<Bundle>)
    ensures ChangeKeys(bundles) == Flat(KeyLists(bundles))
  {
    hide AllChanges, Parts;
    if bundles != [] {
      var front := bundles[..|bundles| - 1];
      ChangeKeysAreFlat(front);
      assert KeyLists(bundles)[..|front|] == KeyLists(front);
    }
  }

  /** The changes of a built series: each change of each filtered bundle counted once, and under its id. */
  lemma ChangesMean(path: string, m: SeriesManifest, bundles: seq<Bundle>, ids: seq<string>, id: string)
    requires IsManifest(m) && |m.entries| == |bundles|
    requires forall b <- bundles :: IsBundle(b) && !IsBlank(b.manifest)
    ensures var s := SeriesOf(path, m.entries, bundles, ids);
      var lists := KeyLists(FilterAll(bundles, Normalized(ids)));
      && s.summary.totalChanges == |AllPlaces(lists)|
      && Lookup(s.summary.changesById, id) == |Places(lists, id)|
  {
    hide IsBlank, IsBundle, Normalized, SortedSet, NewSeriesPoint, Gather, SumTotals, ChangeKeys, Lookup, KeyLists;
    hide SummarizeCorrelations, SummarizeTransitions, CountCompatible, Tally, NoBlanks, Places, AllPlaces, Flat;
    var filtered := FilterAll(bundles, Normalized(ids));
    var points := PointsOf(m.entries, filtered);
    FilteredAreValid(bundles, ids);
    PointSummaries(m.entries, filtered);
    ChangeKeysAreVisible(filtered, points);
    ChangeKeysAreFlat(filtered);
    TallyCount(KeyLists(filtered), id);
    PlaceCount(KeyLists(filtered), id);
  }

  /** A point of a built series: its entry, the parts of its filtered bundle, and the sorted ids that the CI report
  lists as changed mutations and the Sorna report as changed rules. */
  lemma PointMeans(path: string, entries: seq<SeriesEntry>, bundles: seq<Bundle>, ids: seq<string>, i: nat)
    requires |entries| == |bundles| && i < |entries|
    ensures var s := SeriesOf(path, entries, bundles, ids); var b := FilteredBundle(bundles[i], Normalized(ids));
      && s.schema == "ingen.sattler-comparison-series/v0" && s.manifest == path && |s.entries| == |entries|
      && Ascending(s.filter) && (forall x :: x in s.filter <==> x in Normalized(ids))
      && s.entries[i].id == entries[i].id && s.entries[i].label_ == entries[i].label_
      && s.entries[i].latest == (i + 1 == |entries|)
      && s.entries[i].manifest == bundles[i].manifest && s.entries[i].filter == s.filter
      && s.entries[i].summary == b.summary && s.entries[i].correlations == b.correlations
  {
    hide SummaryOfSeries, MutationIds, RuleIds, Parts, SummaryOf, Correlate, FilteredSorna, FilteredReport, Normalized;
  }

  ghost predicate InOrder(texts: seq<string>) {
    forall i, j | 0 <= i < j < |texts| :: texts[i] == texts[j] || Less(texts[i], texts[j])
  }

  lemma PointIdsMean(entry: SeriesEntry, b: Bundle, latest: bool, id: string)
    ensures var p := NewSeriesPoint(entry, b, latest);
      && InOrder(p.mutationIds) && InOrder(p.ruleIds)
      && (id in p.mutationIds <==>
        !IsBlank(id) && b.ci.Some? && b.ci.value.campaign.Some? && id in b.ci.value.campaign.value)
      && (id in p.ruleIds <==>
        !IsBlank(id) && b.sorna.Some? && exists r <- b.sorna.value.changedRules :: r.ruleId == id)
  {
    hide IsBlank, NonBlank, Sort, RuleIdList;
    if b.ci.Some? && b.ci.value.campaign.Some? {
      SortedVisible(b.ci.value.campaign.value, id);
    }
    if b.sorna.Some? {
      var rules := b.sorna.value.changedRules;
      SortedVisible(RuleIdList(rules), id);
      RuleIdListed(rules, id);
    }
  }

  lemma RuleIdListed(rules: seq<RuleStatusChange>, id: string)
    ensures id in RuleIdList(rules) <==> exists r <- rules :: r.ruleId == id
  {
    if r :| r in rules && r.ruleId == id {
      var i :| 0 <= i < |rules| && rules[i] == r;
      assert RuleIdList(rules)[i] == id;
    }
  }

  lemma SortedVisible(texts: seq<string>, id: string)
    ensures InOrder(Sort(NonBlank(texts))) && (id in Sort(NonBlank(texts)) <==> !IsBlank(id) && id in texts)
  {
    NonBlankCount(texts, id);
    SortIsInOrder(NonBlank(texts));
    hide InOrder, NonBlank, Sort, IsBlank;
    assert id in Sort(NonBlank(texts)) <==> id in multiset(Sort(NonBlank(texts)));
    assert id in texts <==> id in multiset(texts);
  }

  lemma {:induction false} SortIsInOrder(texts: seq<string>)
    ensures InOrder(Sort(texts))
  {
    if texts != [] {
      SortIsInOrder(texts[1..]);
      InsertInOrder(texts[0], Sort(texts[1..]));
    }
  }

  lemma {:induction false} InsertInOrder(x: string, xs: seq<string>)
    requires InOrder(xs)
    ensures InOrder(Insert(x, xs))
  {
    hide Less;
    if xs == [] || !Less(xs[0], x) {
      forall y <- xs ensures x == y || Less(x, y) {
        LessTotal(x, xs[0]);
        var i :| 0 <= i < |xs| && xs[i] == y;
        if x != xs[0] && y != xs[0] {
          LessTransitive(x, xs[0], y);
        }
      }
      PrependInOrder(x, xs);
    } else {
      var tail := Insert(x, xs[1..]);
      InsertInOrder(x, xs[1..]);
      forall y <- tail ensures xs[0] == y || Less(xs[0], y) {
        assert y in multiset(tail);
        if y != x {
          assert y in xs[1..];
          var i :| 0 <= i < |xs| - 1 && xs[1..][i] == y;
          assert xs[i + 1] == y;
        }
      }
      PrependInOrder(xs[0], tail);
    }
  }

  lemma PrependInOrder(x: string, xs: seq<string>)
    requires InOrder(xs) && forall y <- xs :: x == y || Less(x, y)
    ensures InOrder([x] + xs)
  {
    hide Less;
    var all := [x] + xs;
    forall i, j | 0 <= i < j < |all| ensures all[i] == all[j] || Less(all[i], all[j]) {
      assert all[j] == xs[j - 1];
      assert i > 0 ==> all[i] == xs[i - 1];
    }
  }
}
