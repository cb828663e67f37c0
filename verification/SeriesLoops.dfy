/** The loops of the series builder and checker, proved against what `Series` says they compute. */
module SeriesLoops {
  import opened Text
  import opened Ast
  import opened StringOrder
  import opened CountMaps
  import opened Changes
  import opened Reports
  import opened Bundle
  import opened BundleFilter
  import opened Series

  // ---------------------------------------------------------------------------
  // Recounting

  method TallyInto(counts: map<string, int>, keys: seq<string>, ghost seen: seq<string>) returns (r: map<string, int>)
    requires counts == Tally(seen)
    ensures r == Tally(seen + keys)
  {
    r := counts;
    assert seen + keys[..0] == seen;
    for i := 0 to |keys|
      invariant r == Tally(seen + keys[..i])
    {
      BumpIsTally(seen + keys[..i], keys[i]);
      assert seen + keys[..i] + [keys[i]] == seen + keys[..i + 1];
      r := Bump(r, keys[i]);
    }
    assert keys[..|keys|] == keys;
  }

  method SummarizeSeriesCorrelations(points: seq<Point>) returns (summary: CorrelationSummary)
    ensures summary == SummarizeCorrelations(points)
  {
    summary := CorrelationSummary(0, map[], map[]);
    for i := 0 to |points|
      invariant summary == SummarizeCorrelations(points[..i])
    {
      ghost var done := points[..i];
      assert points[..i + 1][..i] == done;
      SameLengths(done);
      var point := points[i];
      var byKind := TallyInto(summary.byKind, Kinds(point), Gather(done, Kinds));
      var byRelation := TallyInto(summary.byRelation, Relations(point), Gather(done, Relations));
      summary := CorrelationSummary(summary.observations + |point.correlations|, byKind, byRelation);
    }
    assert points[..|points|] == points;
  }

  /** The subsystems of one point, in whatever order the map yields them. */
  method CountSubsystems(m: map<string, TransitionCounts>, subsystems: map<string, Subsystem>)
    returns (r: map<string, TransitionCounts>)
    ensures r == AddPoint(m, subsystems)
  {
    hide AddPoint, BumpClass, CountsOf;
    r := m;
    var rest := subsystems;
    NoSubsystems(m);
    assert subsystems - subsystems.Keys == map[];
    while rest != map[]
      invariant forall name <- rest :: name in subsystems && rest[name] == subsystems[name]
      invariant r == AddPoint(m, subsystems - rest.Keys)
      decreases |rest|
    {
      var name :| name in rest;
      var k := rest[name].transition.classification;
      NextSubsystem(m, subsystems, rest.Keys, name);
      rest := rest - {name};
      if k.Unsupported? {
        continue;
      }
      r := r[name := BumpClass(CountsOf(r, name), k)];
    }
    assert subsystems - {} == subsystems;
  }

  lemma NoSubsystems(m: map<string, TransitionCounts>)
    ensures AddPoint(m, map[]) == m
  {
  }

  lemma NextSubsystem(
      m: map<string, TransitionCounts>, subsystems: map<string, Subsystem>, rest: set<string>, name: string)
    requires name in rest && name in subsystems
    ensures var done, more := subsystems - rest, subsystems - (rest - {name});
      var k := subsystems[name].transition.classification;
      AddPoint(m, more) == if k.Unsupported? then AddPoint(m, done)
        else AddPoint(m, done)[name := BumpClass(CountsOf(AddPoint(m, done), name), k)]
  {
    var done, more := subsystems - rest, subsystems - (rest - {name});
    assert more.Keys == done.Keys + {name};
    assert forall other | other != name :: IsCounted(more, other) == IsCounted(done, other);
  }

  method SummarizeSeriesTransitions(points: seq<Point>) returns (transitions: map<string, TransitionCounts>)
    ensures transitions == SummarizeTransitions(points)
  {
    transitions := map[];
    for i := 0 to |points|
      invariant transitions == SummarizeTransitions(points[..i])
    {
      assert points[..i + 1][..i] == points[..i];
      transitions := CountSubsystems(transitions, points[i].summary.subsystems);
    }
    assert points[..|points|] == points;
  }

  method KeepNonBlank(texts: seq<string>) returns (r: seq<string>)
    ensures r == NonBlank(texts)
  {
    hide IsBlank;
    r := [];
    for i := 0 to |texts|
      invariant r == NonBlank(texts[..i])
    {
      assert texts[..i + 1][..i] == texts[..i];
      if !IsBlank(texts[i]) {
        r := r + [texts[i]];
      }
    }
    assert texts[..|texts|] == texts;
  }

  method SummarizeSeriesWarnings(points: seq<Point>) returns (warnings: map<string, int>)
    ensures warnings == Tally(Gather(points, WarningsOf))
  {
    warnings := map[];
    for i := 0 to |points|
      invariant warnings == Tally(Gather(points[..i], WarningsOf))
    {
      assert points[..i + 1][..i] == points[..i];
      var visible := KeepNonBlank(points[i].summary.warnings);
      warnings := TallyInto(warnings, visible, Gather(points[..i], WarningsOf));
    }
    assert points[..|points|] == points;
  }

  // ---------------------------------------------------------------------------
  // Building

  method BundleMutationChangeIDs(b: Bundle) returns (ids: seq<string>)
    ensures ids == MutationIds(b)
  {
    if b.ci.None? || b.ci.value.campaign.None? {
      return [];
    }
    var visible := KeepNonBlank(b.ci.value.campaign.value);
    ids := Sort(visible);
  }

  method BundleSornaRuleChangeIDs(b: Bundle) returns (ids: seq<string>)
    ensures ids == RuleIds(b)
  {
    if b.sorna.None? {
      return [];
    }
    var visible := KeepNonBlank(RuleIdList(b.sorna.value.changedRules));
    ids := Sort(visible);
  }

  method BundleBoundaryChanges(b: Bundle) returns (changes: seq<Change>)
    ensures changes == BoundaryChanges(b)
  {
    hide AllChanges, OptionalPart, ChangesIn, CiPart, SornaPart;
    changes := AppendCi([], b.ci);
    changes := AppendSorna(changes, b.sorna);
    changes := AppendOptional(changes, "nublar_run", b.nublar);
    changes := AppendOptional(changes, "custody", b.custody);
    changes := AppendOptional(changes, "provenance", b.provenance);
    AllChangesInOrder(Five(b));
  }

  method AppendCi(changes: seq<Change>, ci: Option<CiReport>) returns (all: seq<Change>)
    ensures all == changes + ChangesIn(CiPart(ci))
  {
    all := changes;
    if ci.Some? {
      all := all + ci.value.report.changes;
    }
  }

  method AppendSorna(changes: seq<Change>, sorna: Option<SornaReport>) returns (all: seq<Change>)
    ensures all == changes + ChangesIn(SornaPart(sorna))
  {
    all := changes;
    if sorna.Some? {
      all := all + sorna.value.report.changes;
    }
  }

  method AppendOptional(changes: seq<Change>, ghost name: string, r: Option<Report>) returns (all: seq<Change>)
    ensures all == changes + ChangesIn(OptionalPart(name, r))
  {
    all := changes;
    if r.Some? {
      all := all + r.value.changes;
    }
  }

  lemma OnePointMore(points: seq<Point>, p: Point)
    ensures CountCompatible(points + [p]) == CountCompatible(points) + if p.summary.compatible then 1 else 0
    ensures SumTotals(points + [p]) == SumTotals(points) + p.summary.changeSummary.total
    ensures Gather(points + [p], MutationIdsOf) == Gather(points, MutationIdsOf) + MutationIdsOf(p)
    ensures Gather(points + [p], RuleIdsOf) == Gather(points, RuleIdsOf) + RuleIdsOf(p)
  {
    assert (points + [p])[..|points|] == points;
  }

  lemma OneBundleMore(bundles: seq<Bundle>, b: Bundle)
    ensures ChangeKeys(bundles + [b]) == ChangeKeys(bundles) + StableIDs(BoundaryChanges(b))
  {
    assert (bundles + [b])[..|bundles|] == bundles;
  }

  ghost predicate Tallies(points: seq<Point>, compatible: int, incompatible: int, totalChanges: int) {
    && compatible == CountCompatible(points) && incompatible == |points| - CountCompatible(points)
    && totalChanges == SumTotals(points)
  }

  lemma NextTallies(points: seq<Point>, compatible: int, incompatible: int, totalChanges: int, p: Point)
    requires Tallies(points, compatible, incompatible, totalChanges)
    ensures Tallies(points + [p], compatible + if p.summary.compatible then 1 else 0,
      incompatible + if p.summary.compatible then 0 else 1, totalChanges + p.summary.changeSummary.total)
  {
    OnePointMore(points, p);
  }

  /** The counters that the builder keeps while it goes through the entries. */
  class SeriesBuilder {
    var points: seq<Point>
    var compatible: int
    var incompatible: int
    var totalChanges: int
    var changesById: map<string, int>
    var mutationChangesById: map<string, int>
    var ruleChangesById: map<string, int>
    ghost var bundles: seq<Bundle>

    ghost predicate Valid()
      reads this
    {
      && Tallies(points, compatible, incompatible, totalChanges)
      && changesById == Tally(ChangeKeys(bundles))
      && mutationChangesById == Tally(Gather(points, MutationIdsOf))
      && ruleChangesById == Tally(Gather(points, RuleIdsOf))
    }

    constructor ()
      ensures Valid() && points == [] && bundles == []
    {
      points, compatible, incompatible, totalChanges := [], 0, 0, 0;
      changesById, mutationChangesById, ruleChangesById := map[], map[], map[];
      bundles := [];
    }

    /** One filtered bundle and its point. */
    method Add(b: Bundle, point: Point)
      requires Valid()
      modifies this
      ensures Valid() && points == old(points) + [point] && bundles == old(bundles) + [b]
    {
      hide Tally, BoundaryChanges, MutationIdsOf, RuleIdsOf, CountCompatible, SumTotals, Gather, ChangeKeys, StableIDs;
      hide Tallies;
      NextTallies(points, compatible, incompatible, totalChanges, point);
      OnePointMore(points, point);
      OneBundleMore(bundles, b);
      var boundary := BundleBoundaryChanges(b);
      var byId := TallyInto(changesById, StableIDs(boundary), ChangeKeys(bundles));
      var byMutation := TallyInto(mutationChangesById, MutationIdsOf(point), Gather(points, MutationIdsOf));
      var byRule := TallyInto(ruleChangesById, RuleIdsOf(point), Gather(points, RuleIdsOf));
      points := points + [point];
      if point.summary.compatible {
        compatible := compatible + 1;
      } else {
        incompatible := incompatible + 1;
      }
      totalChanges := totalChanges + point.summary.changeSummary.total;
      changesById, mutationChangesById, ruleChangesById := byId, byMutation, byRule;
      bundles := bundles + [b];
    }
  }

  /** What the entries before a failing one have loaded. */
  function Loaded(bundles: seq<Option<Bundle>>): (r: seq<Bundle>)
    requires forall b <- bundles :: b.Some?
    ensures |r| == |bundles| && forall i | 0 <= i < |r| :: bundles[i].Some? && r[i] == bundles[i].value
  {
    assert forall i | 0 <= i < |bundles| :: bundles[i] in bundles;
    seq(|bundles|, i requires 0 <= i < |bundles| => bundles[i].value)
  }

  method NewPoint(entry: SeriesEntry, b: Bundle, latest: bool) returns (point: Point)
    ensures point == NewSeriesPoint(entry, b, latest)
  {
    hide MutationIds, RuleIds;
    var mutationIds := BundleMutationChangeIDs(b);
    var ruleIds := BundleSornaRuleChangeIDs(b);
    point := Point(entry.id, entry.label_, latest, b.manifest, b.summary, b.correlations, b.filter, mutationIds,
      ruleIds);
  }

  /** `bundles` is what comparing each entry's bundle gave, and `None` where that failed; the entry is
  then named in the error. */
  method CompareSeriesManifest(
      seriesPath: string, entries: seq<SeriesEntry>, bundles: seq<Option<Bundle>>, ids: seq<string>)
    returns (r: Result<Series, string>)
    requires |entries| == |bundles|
    ensures r.Ok? <==> forall b <- bundles :: b.Some?
    ensures r.Ok? ==> r.value == SeriesOf(seriesPath, entries, Loaded(bundles), ids)
    ensures r.Err? ==> exists i | 0 <= i < |bundles| ::
      bundles[i].None? && r.error == entries[i].id && forall b <- bundles[..i] :: b.Some?
  {
    hide Normalized, SortedSet, FilteredBundle, NewSeriesPoint, CountCompatible, SumTotals, Tally, ChangeKeys, Gather;
    hide SummarizeCorrelations, SummarizeTransitions;
    var filter := SortedChangeIDs(ids);
    var builder := new SeriesBuilder();
    for i := 0 to |entries|
      invariant builder.Valid() && fresh(builder)
      invariant forall b <- bundles[..i] :: b.Some?
      invariant |builder.points| == |builder.bundles| == i
      invariant forall j | 0 <= j < i :: builder.bundles[j] == FilteredBundle(bundles[j].value, Normalized(ids))
      invariant forall j | 0 <= j < i ::
        builder.points[j] == NewSeriesPoint(entries[j], builder.bundles[j], j == |entries| - 1)
    {
      if bundles[i].None? {
        assert bundles[i] in bundles;
        return Err(entries[i].id);
      }
      assert bundles[..i + 1] == bundles[..i] + [bundles[i]];
      var b := FilterBundleChanges(bundles[i].value, ids);
      var point := NewPoint(entries[i], b, |builder.points| == |entries| - 1);
      builder.Add(b, point);
    }
    assert bundles[..|bundles|] == bundles;
    assert builder.bundles == FilterAll(Loaded(bundles), Normalized(ids));
    assert builder.points == PointsOf(entries, builder.bundles);
    var correlations := SummarizeSeriesCorrelations(builder.points);
    var transitions := SummarizeSeriesTransitions(builder.points);
    var warnings := SummarizeSeriesWarnings(builder.points);
    r := Ok(Series(SERIES_SCHEMA, seriesPath, filter,
      SeriesSummary(|entries|, builder.compatible, builder.incompatible, builder.totalChanges, builder.changesById,
        builder.mutationChangesById, builder.ruleChangesById, correlations, transitions, warnings),
      builder.points));
  }
}
