/** The validators of bundles and series as the loops they are, proved against the predicates. */
module SeriesChecker {
  import opened Text
  import opened CountMaps
  import opened Changes
  import opened Reports
  import opened Bundle
  import opened Series
  import opened SeriesLoops
  import NublarRun

  // ---------------------------------------------------------------------------
  // Count maps

  method ValidateSeriesCountMap(counts: map<string, int>) returns (ok: bool, total: int)
    ensures ok == IsCountMap(counts)
    ensures ok ==> total == Sum(counts)
  {
    hide IsBlank;
    total := 0;
    var rest := counts;
    while rest != map[]
      invariant Sum(counts) == total + Sum(rest)
      invariant forall k <- rest :: k in counts && rest[k] == counts[k]
      invariant forall k <- counts :: k in rest || (!IsBlank(k) && counts[k] >= 0)
      decreases |rest|
    {
      var k :| k in rest;
      if IsBlank(k) || rest[k] < 0 {
        return false, 0;
      }
      SumSplits(rest, k);
      total := total + rest[k];
      rest := rest - {k};
    }
    ok := true;
  }

  method SeriesCountMapsEqual(got: map<string, int>, want: map<string, int>) returns (equal: bool)
    ensures equal == CountMapsEqual(got, want)
  {
    if |got| != |want| {
      return false;
    }
    var rest := want.Keys;
    while rest != {}
      invariant rest <= want.Keys
      invariant forall k <- want :: k in rest || Lookup(got, k) == want[k]
      decreases |rest|
    {
      var k :| k in rest;
      if Lookup(got, k) != want[k] {
        return false;
      }
      rest := rest - {k};
    }
    return true;
  }

  method SeriesTransitionMapsEqual(got: map<string, TransitionCounts>, want: map<string, TransitionCounts>)
    returns (equal: bool)
    ensures equal == TransitionMapsEqual(got, want)
  {
    if |got| != |want| {
      return false;
    }
    var rest := want.Keys;
    while rest != {}
      invariant rest <= want.Keys
      invariant forall name <- want :: name in rest || CountsOf(got, name) == want[name]
      decreases |rest|
    {
      var name :| name in rest;
      if CountsOf(got, name) != want[name] {
        return false;
      }
      rest := rest - {name};
    }
    return true;
  }

  // ---------------------------------------------------------------------------
  // Bundle summaries and bundles

  ghost predicate IsValidSubsystem(name: string, s: Subsystem) {
    IsSubsystemName(name) && IsValidTransition(s.transition) && IsValidSummary(s.summary)
  }

  method ValidateSubsystems(subsystems: map<string, Subsystem>) returns (ok: bool)
    ensures ok <==> forall name <- subsystems ::
      IsSubsystemName(name) && IsValidTransition(subsystems[name].transition)
        && IsValidSummary(subsystems[name].summary)
  {
    hide IsSubsystemName, IsValidTransition, IsValidSummary;
    var rest := subsystems.Keys;
    while rest != {}
      invariant rest <= subsystems.Keys
      invariant forall name <- subsystems :: name in rest || IsValidSubsystem(name, subsystems[name])
      decreases |rest|
    {
      var name :| name in rest;
      if !IsSubsystemName(name) || !IsValidTransition(subsystems[name].transition) {
        return false;
      }
      var summaryOk := ValidateSummary(subsystems[name].summary);
      if !summaryOk {
        return false;
      }
      rest := rest - {name};
    }
    return true;
  }

  method ValidateBundleSummary(s: BundleSummary) returns (ok: bool)
    ensures ok == IsBundleSummary(s)
  {
    hide IsSubsystemName, IsValidTransition, IsValidSummary, NoBlanks;
    if !s.compatible && |s.reasons| == 0 {
      return false;
    }
    if s.compatible && |s.reasons| > 0 {
      return false;
    }
    var reasonsOk := ValidateStringList(s.reasons);
    var warningsOk := ValidateStringList(s.warnings);
    var summaryOk := ValidateSummary(s.changeSummary);
    if !reasonsOk || !warningsOk || !summaryOk || s.subsystems == map[] {
      return false;
    }
    ok := ValidateSubsystems(s.subsystems);
  }

  method ValidateCorrelations(correlations: seq<Correlation>) returns (ok: bool)
    ensures ok <==> forall c <- correlations :: IsValidCorrelation(c)
  {
    hide IsValidCorrelation;
    for i := 0 to |correlations|
      invariant forall c <- correlations[..i] :: IsValidCorrelation(c)
    {
      if !IsValidCorrelation(correlations[i]) {
        return false;
      }
      assert correlations[..i + 1] == correlations[..i] + [correlations[i]];
    }
    assert correlations[..|correlations|] == correlations;
    return true;
  }

  method ValidateStatusReport(r: Option<Report>, schema: string) returns (ok: bool)
    ensures ok <==> (r.Some? ==> IsStatusReport(r.value, schema))
  {
    hide IsEnvelope;
    if r.None? {
      return true;
    }
    if !SidesWellFormed(r.value) || r.value.transition.field != "status" {
      return false;
    }
    ok := ValidateEnvelope(r.value, schema, []);
  }

  method ValidateReports(b: Bundle) returns (ok: bool)
    ensures ok == AreValidReports(b)
  {
    hide IsEnvelope, IsSornaReport, SidesWellFormed;
    if b.ci.Some? {
      if !SidesWellFormed(b.ci.value.report) {
        return false;
      }
      var ciOk := ValidateEnvelope(b.ci.value.report, CI_SCHEMA, b.ci.value.warnings);
      if !ciOk {
        return false;
      }
    }
    if b.sorna.Some? {
      var sornaOk := ValidateSornaReport(b.sorna.value);
      if !sornaOk {
        return false;
      }
    }
    var nublarOk := ValidateStatusReport(b.nublar, NublarRun.NUBLAR_SCHEMA);
    var custodyOk := ValidateStatusReport(b.custody, CUSTODY_SCHEMA);
    if !nublarOk || !custodyOk {
      return false;
    }
    if b.provenance.Some? {
      ok := ValidateEnvelope(b.provenance.value, PROVENANCE_SCHEMA, []);
    } else {
      ok := true;
    }
  }

  method ValidateBundle(b: Bundle) returns (ok: bool)
    ensures ok == IsBundle(b)
  {
    hide IsBundleSummary, AreValidReports, IsValidCorrelation, NoBlanks, IsBlank, Correlate, SummaryOf, Parts;
    if b.schema != BUNDLE_SCHEMA || (b.manifest != "" && IsBlank(b.manifest)) {
      return false;
    }
    var filterOk := ValidateStringList(b.filter);
    var reportsOk := ValidateReports(b);
    var summaryOk := ValidateBundleSummary(b.summary);
    if !filterOk || !reportsOk || !summaryOk {
      return false;
    }
    var expected := SummarizeBundle(b);
    if b.summary != expected {
      return false;
    }
    var correlationsOk := ValidateCorrelations(b.correlations);
    return correlationsOk && b.correlations == Correlate(b);
  }

  // ---------------------------------------------------------------------------
  // Series

  method ValidatePoint(p: Point, requireLatest: bool) returns (ok: bool)
    ensures ok == IsPoint(p, requireLatest)
  {
    hide IsBundleSummary, IsValidCorrelation, NoBlanks, IsBlank;
    if IsBlank(p.id) || IsBlank(p.manifest) || (requireLatest && !p.latest) {
      return false;
    }
    var summaryOk := ValidateBundleSummary(p.summary);
    var correlationsOk := ValidateCorrelations(p.correlations);
    var filterOk := ValidateStringList(p.filter);
    var mutationsOk := ValidateStringList(p.mutationIds);
    var rulesOk := ValidateStringList(p.ruleIds);
    return summaryOk && correlationsOk && filterOk && mutationsOk && rulesOk;
  }

  method ValidateTransitionCounts(transitions: map<string, TransitionCounts>, entries: int) returns (ok: bool)
    ensures ok <==> forall name <- transitions :: IsSubsystemName(name) && IsTransitionCount(transitions[name], entries)
  {
    hide IsSubsystemName, IsTransitionCount;
    var rest := transitions.Keys;
    while rest != {}
      invariant rest <= transitions.Keys
      invariant forall name <- transitions ::
        name in rest || (IsSubsystemName(name) && IsTransitionCount(transitions[name], entries))
      decreases |rest|
    {
      var name :| name in rest;
      if !IsSubsystemName(name) || !IsTransitionCount(transitions[name], entries) {
        return false;
      }
      rest := rest - {name};
    }
    return true;
  }

  method ValidateCorrelationCounts(c: CorrelationSummary) returns (ok: bool)
    ensures ok <==> (
      && c.observations >= 0
      && IsCountMap(c.byKind) && (forall k <- c.byKind :: IsCorrelationKind(k))
      && IsCountMap(c.byRelation) && (forall r <- c.byRelation :: IsRelation(r))
      && Sum(c.byKind) == c.observations && Sum(c.byRelation) == c.observations)
  {
    hide IsCountMap, Sum;
    var kindsOk, kindTotal := ValidateSeriesCountMap(c.byKind);
    var relationsOk, relationTotal := ValidateSeriesCountMap(c.byRelation);
    if c.observations < 0 || !kindsOk || !relationsOk {
      return false;
    }
    if !(forall k <- c.byKind :: IsCorrelationKind(k)) || !(forall r <- c.byRelation :: IsRelation(r)) {
      return false;
    }
    return kindTotal == c.observations && relationTotal == c.observations;
  }

  method ValidateSeriesSummary(s: SeriesSummary) returns (ok: bool)
    ensures ok == IsSeriesSummary(s)
  {
    hide IsCountMap, Sum, IsTransitionCount, IsSubsystemName, IsCorrelationKind, IsRelation;
    if s.entries < 1 || s.compatible < 0 || s.incompatible < 0 || s.compatible + s.incompatible != s.entries {
      return false;
    }
    var changesOk, changeTotal := ValidateSeriesCountMap(s.changesById);
    if s.totalChanges < 0 || !changesOk || changeTotal != s.totalChanges {
      return false;
    }
    var mutationsOk, _ := ValidateSeriesCountMap(s.mutationChangesById);
    var rulesOk, _ := ValidateSeriesCountMap(s.ruleChangesById);
    var correlationsOk := ValidateCorrelationCounts(s.correlations);
    var transitionsOk := ValidateTransitionCounts(s.transitions, s.entries);
    var warningsOk, _ := ValidateSeriesCountMap(s.warnings);
    return mutationsOk && rulesOk && correlationsOk && transitionsOk && warningsOk;
  }

  ghost predicate PointsCheck(points: seq<Point>, n: nat)
    requires n <= |points|
  {
    && (forall i | 0 <= i < n :: points[i].latest == (i == |points| - 1))
    && (forall i | 0 <= i < n :: IsPoint(points[i], i == |points| - 1))
    && (forall i, j | 0 <= i < j < n :: points[i].id != points[j].id)
  }

  method ValidatePoints(points: seq<Point>) returns (ok: bool, compatible: int, totalChanges: int)
    ensures ok == PointsCheck(points, |points|)
    ensures ok ==> compatible == CountCompatible(points) && totalChanges == SumTotals(points)
  {
    hide IsPoint;
    compatible, totalChanges := 0, 0;
    var pointIDs: set<string> := {};
    for i := 0 to |points|
      invariant PointsCheck(points, i)
      invariant pointIDs == set j | 0 <= j < i :: points[j].id
      invariant compatible == CountCompatible(points[..i]) && totalChanges == SumTotals(points[..i])
    {
      assert points[..i + 1][..i] == points[..i];
      var point := points[i];
      var requireLatest := i == |points| - 1;
      if point.latest != requireLatest {
        return false, 0, 0;
      }
      var pointOk := ValidatePoint(point, requireLatest);
      if !pointOk {
        return false, 0, 0;
      }
      if point.id in pointIDs {
        var j :| 0 <= j < i && points[j].id == point.id;
        return false, 0, 0;
      }
      pointIDs := pointIDs + {point.id};
      if point.summary.compatible {
        compatible := compatible + 1;
      }
      totalChanges := totalChanges + point.summary.changeSummary.total;
    }
    assert points[..|points|] == points;
    ok := true;
  }

  method RecountMatches(s: Series) returns (ok: bool)
    ensures ok <==> (
      && CountMapsEqual(s.summary.mutationChangesById, Tally(Gather(s.entries, MutationIdsOf)))
      && CountMapsEqual(s.summary.ruleChangesById, Tally(Gather(s.entries, RuleIdsOf)))
      && CorrelationSummariesEqual(s.summary.correlations, SummarizeCorrelations(s.entries))
      && TransitionMapsEqual(s.summary.transitions, SummarizeTransitions(s.entries))
      && CountMapsEqual(s.summary.warnings, Tally(Gather(s.entries, WarningsOf))))
  {
    hide CountMapsEqual, TransitionMapsEqual, SummarizeTransitions, SummarizeCorrelations, Tally, Gather;
    var expectedMutations, expectedRules := CountPointIds(s.entries);
    var correlations := SummarizeSeriesCorrelations(s.entries);
    var transitions := SummarizeSeriesTransitions(s.entries);
    var warnings := SummarizeSeriesWarnings(s.entries);
    var mutationsOk := SeriesCountMapsEqual(s.summary.mutationChangesById, expectedMutations);
    var rulesOk := SeriesCountMapsEqual(s.summary.ruleChangesById, expectedRules);
    var kindsOk := SeriesCountMapsEqual(s.summary.correlations.byKind, correlations.byKind);
    var relationsOk := SeriesCountMapsEqual(s.summary.correlations.byRelation, correlations.byRelation);
    var transitionsOk := SeriesTransitionMapsEqual(s.summary.transitions, transitions);
    var warningsOk := SeriesCountMapsEqual(s.summary.warnings, warnings);
    return mutationsOk && rulesOk && s.summary.correlations.observations == correlations.observations && kindsOk
      && relationsOk && transitionsOk && warningsOk;
  }

  method CountPointIds(points: seq<Point>) returns (mutations: map<string, int>, rules: map<string, int>)
    ensures mutations == Tally(Gather(points, MutationIdsOf)) && rules == Tally(Gather(points, RuleIdsOf))
  {
    mutations, rules := map[], map[];
    for i := 0 to |points|
      invariant mutations == Tally(Gather(points[..i], MutationIdsOf))
      invariant rules == Tally(Gather(points[..i], RuleIdsOf))
    {
      assert points[..i + 1][..i] == points[..i];
      mutations := TallyInto(mutations, points[i].mutationIds, Gather(points[..i], MutationIdsOf));
      rules := TallyInto(rules, points[i].ruleIds, Gather(points[..i], RuleIdsOf));
    }
    assert points[..|points|] == points;
  }

  method ValidateSeries(s: Series) returns (ok: bool)
    ensures ok == IsSeries(s)
  {
    hide IsSeriesSummary, IsPoint, CountMapsEqual, TransitionMapsEqual, CorrelationSummariesEqual, Tally, Gather;
    hide IsBlank;
    hide NoBlanks, SummarizeCorrelations, SummarizeTransitions, CountCompatible, SumTotals;
    if s.schema != SERIES_SCHEMA || (s.manifest != "" && IsBlank(s.manifest)) {
      return false;
    }
    var filterOk := ValidateStringList(s.filter);
    if !filterOk || |s.entries| == 0 {
      return false;
    }
    var summaryOk := ValidateSeriesSummary(s.summary);
    if !summaryOk || s.summary.entries != |s.entries| {
      return false;
    }
    var pointsOk, compatible, totalChanges := ValidatePoints(s.entries);
    if !pointsOk {
      return false;
    }
    if s.summary.compatible != compatible || s.summary.incompatible != |s.entries| - compatible {
      return false;
    }
    if s.summary.totalChanges != totalChanges {
      return false;
    }
    ok := RecountMatches(s);
  }
}
