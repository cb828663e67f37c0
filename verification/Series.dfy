/** An ordered history of bundles: the builder with its running counters, and the checker that recounts. */
module Series {
  import opened Text
  import opened StringOrder
  import opened CountMaps
  import opened Changes
  import opened Reports
  import opened Bundle
  import opened BundleFilter

  datatype SeriesEntry = SeriesEntry(id: string, label_: string, manifest: string)

  datatype SeriesManifest = SeriesManifest(schema: string, entries: seq<SeriesEntry>)

  datatype Point = Point(
    id: string,
    label_: string,
    latest: bool,
    manifest: string,
    summary: BundleSummary,
    correlations: seq<Correlation>,
    filter: seq<string>,
    mutationIds: seq<string>,
    ruleIds: seq<string>)

  datatype CorrelationSummary = CorrelationSummary(
    observations: int, byKind: map<string, int>, byRelation: map<string, int>)

  datatype TransitionCounts = TransitionCounts(same: int, changed: int, incompatible: int)

  datatype SeriesSummary = SeriesSummary(
    entries: int,
    compatible: int,
    incompatible: int,
    totalChanges: int,
    changesById: map<string, int>,
    mutationChangesById: map<string, int>,
    ruleChangesById: map<string, int>,
    correlations: CorrelationSummary,
    transitions: map<string, TransitionCounts>,
    warnings: map<string, int>)

  datatype Series = Series(
    schema: string, manifest: string, filter: seq<string>, summary: SeriesSummary, entries: seq<Point>)

  const MANIFEST_SCHEMA := "ingen.sattler-comparison-series-input/v0"
  const SERIES_SCHEMA := "ingen.sattler-comparison-series/v0"

  // ---------------------------------------------------------------------------
  // Recounting the points

  /** The keys that the points list, one point after the other. */
  function Gather(points: seq<Point>, keys: Point -> seq<string>): seq<string> {
    if points == [] then [] else Gather(points[..|points| - 1], keys) + keys(points[|points| - 1])
  }

  function Kinds(p: Point): seq<string> {
    seq(|p.correlations|, i requires 0 <= i < |p.correlations| => p.correlations[i].kind)
  }

  function Relations(p: Point): seq<string> {
    seq(|p.correlations|, i requires 0 <= i < |p.correlations| => p.correlations[i].relation)
  }

  function NonBlank(texts: seq<string>): seq<string> {
    if texts == [] then []
    else
      var last := texts[|texts| - 1];
      NonBlank(texts[..|texts| - 1]) + if IsBlank(last) then [] else [last]
  }

  lemma {:induction false} NonBlankIsVisible(texts: seq<string>)
    ensures NoBlanks(NonBlank(texts))
  {
    hide IsBlank;
    if texts != [] {
      NonBlankIsVisible(texts[..|texts| - 1]);
    }
  }

  function WarningsOf(p: Point): seq<string> { NonBlank(p.summary.warnings) }

  function MutationIdsOf(p: Point): seq<string> { p.mutationIds }

  function RuleIdsOf(p: Point): seq<string> { p.ruleIds }

  function CountCompatible(points: seq<Point>): nat {
    if points == [] then 0
    else CountCompatible(points[..|points| - 1]) + if points[|points| - 1].summary.compatible then 1 else 0
  }

  function SumTotals(points: seq<Point>): int {
    if points == [] then 0 else SumTotals(points[..|points| - 1]) + points[|points| - 1].summary.changeSummary.total
  }

  function SummarizeCorrelations(points: seq<Point>): CorrelationSummary {
    var kinds := Gather(points, Kinds);
    CorrelationSummary(|kinds|, Tally(kinds), Tally(Gather(points, Relations)))
  }

  const NO_TRANSITIONS := TransitionCounts(0, 0, 0)

  function BumpClass(c: TransitionCounts, k: Classification): TransitionCounts {
    match k
    case Unchanged => c.(same := c.same + 1)
    case Changed => c.(changed := c.changed + 1)
    case Incompatible => c.(incompatible := c.incompatible + 1)
    case Unsupported => c
  }

  function CountsOf(m: map<string, TransitionCounts>, name: string): TransitionCounts {
    if name in m then m[name] else NO_TRANSITIONS
  }

  predicate IsCounted(subsystems: map<string, Subsystem>, name: string) {
    name in subsystems && !subsystems[name].transition.classification.Unsupported?
  }

  /** The transition counts after one more point. */
  function AddPoint(
      m: map<string, TransitionCounts>, subsystems: map<string, Subsystem>): map<string, TransitionCounts> {
    map name | name in m.Keys + subsystems.Keys && (name in m || IsCounted(subsystems, name)) ::
      if IsCounted(subsystems, name) then BumpClass(CountsOf(m, name), subsystems[name].transition.classification)
      else CountsOf(m, name)
  }

  function SummarizeTransitions(points: seq<Point>): map<string, TransitionCounts> {
    if points == [] then map[]
    else AddPoint(SummarizeTransitions(points[..|points| - 1]), points[|points| - 1].summary.subsystems)
  }

  // ---------------------------------------------------------------------------
  // Validation

  predicate IsManifest(m: SeriesManifest) {
    && m.schema == MANIFEST_SCHEMA && m.entries != []
    && (forall e <- m.entries :: !IsBlank(e.id) && !IsBlank(e.manifest))
    && (forall i, j | 0 <= i < j < |m.entries| :: m.entries[i].id != m.entries[j].id)
  }

  predicate IsCountMap(m: map<string, int>) { forall k <- m :: !IsBlank(k) && m[k] >= 0 }

  predicate IsTransitionCount(c: TransitionCounts, entries: int) {
    c.same >= 0 && c.changed >= 0 && c.incompatible >= 0 && c.same + c.changed + c.incompatible <= entries
  }

  ghost predicate IsSeriesSummary(s: SeriesSummary) {
    && s.entries >= 1
    && s.compatible >= 0 && s.incompatible >= 0 && s.compatible + s.incompatible == s.entries
    && s.totalChanges >= 0
    && IsCountMap(s.changesById) && Sum(s.changesById) == s.totalChanges
    && IsCountMap(s.mutationChangesById) && IsCountMap(s.ruleChangesById)
    && s.correlations.observations >= 0
    && IsCountMap(s.correlations.byKind) && (forall k <- s.correlations.byKind :: IsCorrelationKind(k))
    && IsCountMap(s.correlations.byRelation) && (forall r <- s.correlations.byRelation :: IsRelation(r))
    && Sum(s.correlations.byKind) == s.correlations.observations
    && Sum(s.correlations.byRelation) == s.correlations.observations
    && (forall name <- s.transitions :: IsSubsystemName(name) && IsTransitionCount(s.transitions[name], s.entries))
    && IsCountMap(s.warnings)
  }

  ghost predicate IsPoint(p: Point, requireLatest: bool) {
    && !IsBlank(p.id) && !IsBlank(p.manifest)
    && (requireLatest ==> p.latest)
    && IsBundleSummary(p.summary)
    && (forall c <- p.correlations :: IsValidCorrelation(c))
    && NoBlanks(p.filter) && NoBlanks(p.mutationIds) && NoBlanks(p.ruleIds)
  }

  predicate CorrelationSummariesEqual(got: CorrelationSummary, want: CorrelationSummary) {
    got.observations == want.observations && CountMapsEqual(got.byKind, want.byKind)
    && CountMapsEqual(got.byRelation, want.byRelation)
  }

  predicate TransitionMapsEqual(got: map<string, TransitionCounts>, want: map<string, TransitionCounts>) {
    |got| == |want| && forall name <- want :: CountsOf(got, name) == want[name]
  }

  /** `ComparisonSeries.Validate`. */
  ghost predicate IsSeries(s: Series) {
    && s.schema == SERIES_SCHEMA
    && (s.manifest != "" ==> !IsBlank(s.manifest))
    && NoBlanks(s.filter)
    && s.entries != []
    && IsSeriesSummary(s.summary)
    && s.summary.entries == |s.entries|
    && (forall i | 0 <= i < |s.entries| :: s.entries[i].latest == (i == |s.entries| - 1))
    && (forall i | 0 <= i < |s.entries| :: IsPoint(s.entries[i], i == |s.entries| - 1))
    && (forall i, j | 0 <= i < j < |s.entries| :: s.entries[i].id != s.entries[j].id)
    && s.summary.compatible == CountCompatible(s.entries)
    && s.summary.incompatible == |s.entries| - CountCompatible(s.entries)
    && s.summary.totalChanges == SumTotals(s.entries)
    && CountMapsEqual(s.summary.mutationChangesById, Tally(Gather(s.entries, MutationIdsOf)))
    && CountMapsEqual(s.summary.ruleChangesById, Tally(Gather(s.entries, RuleIdsOf)))
    && CorrelationSummariesEqual(s.summary.correlations, SummarizeCorrelations(s.entries))
    && TransitionMapsEqual(s.summary.transitions, SummarizeTransitions(s.entries))
    && CountMapsEqual(s.summary.warnings, Tally(Gather(s.entries, WarningsOf)))
  }

  // ---------------------------------------------------------------------------
  // Building

  ghost function BoundaryChanges(b: Bundle): seq<Change> { AllChanges(Parts(b)) }

  function MutationIds(b: Bundle): seq<string> {
    if b.ci.None? || b.ci.value.campaign.None? then [] else Sort(NonBlank(b.ci.value.campaign.value))
  }

  function RuleIdList(rules: seq<RuleStatusChange>): seq<string> {
    seq(|rules|, i requires 0 <= i < |rules| => rules[i].ruleId)
  }

  function RuleIds(b: Bundle): seq<string> {
    if b.sorna.None? then [] else Sort(NonBlank(RuleIdList(b.sorna.value.changedRules)))
  }

  function NewSeriesPoint(entry: SeriesEntry, b: Bundle, latest: bool): Point {
    Point(entry.id, entry.label_, latest, b.manifest, b.summary, b.correlations, b.filter, MutationIds(b), RuleIds(b))
  }

  function StableIDs(changes: seq<Change>): (r: seq<string>)
    ensures |r| == |changes| && forall i | 0 <= i < |r| :: r[i] == changes[i].StableID()
  {
    seq(|changes|, i requires 0 <= i < |changes| => changes[i].StableID())
  }

  /** The stable ids of every change of every bundle. */
  ghost function ChangeKeys(bundles: seq<Bundle>): seq<string> {
    if bundles == [] then []
    else ChangeKeys(bundles[..|bundles| - 1]) + StableIDs(BoundaryChanges(bundles[|bundles| - 1]))
  }

  ghost function FilterAll(bundles: seq<Bundle>, selected: set<string>): (r: seq<Bundle>)
    ensures |r| == |bundles| && forall i | 0 <= i < |r| :: r[i] == FilteredBundle(bundles[i], selected)
  {
    seq(|bundles|, i requires 0 <= i < |bundles| => FilteredBundle(bundles[i], selected))
  }

  ghost function PointsOf(entries: seq<SeriesEntry>, filtered: seq<Bundle>): (r: seq<Point>)
    requires |entries| == |filtered|
    ensures |r| == |entries|
    ensures forall i | 0 <= i < |r| :: r[i] == NewSeriesPoint(entries[i], filtered[i], i == |entries| - 1)
  {
    seq(|entries|, i requires 0 <= i < |entries| => NewSeriesPoint(entries[i], filtered[i], i == |entries| - 1))
  }

  ghost function SummaryOfSeries(points: seq<Point>, filtered: seq<Bundle>): SeriesSummary {
    SeriesSummary(
      |points|, CountCompatible(points), |points| - CountCompatible(points), SumTotals(points),
      Tally(ChangeKeys(filtered)), Tally(Gather(points, MutationIdsOf)), Tally(Gather(points, RuleIdsOf)),
      SummarizeCorrelations(points), SummarizeTransitions(points), Tally(Gather(points, WarningsOf)))
  }

  ghost function SeriesOf(seriesPath: string, entries: seq<SeriesEntry>, bundles: seq<Bundle>, ids: seq<string>): Series
    requires |entries| == |bundles|
  {
    var filtered := FilterAll(bundles, Normalized(ids));
    var points := PointsOf(entries, filtered);
    Series(SERIES_SCHEMA, seriesPath, SortedSet(Normalized(ids)), SummaryOfSeries(points, filtered), points)
  }

  // ---------------------------------------------------------------------------
  // Facts about the counters

  lemma {:induction false} GatherElements(points: seq<Point>, keys: Point -> seq<string>)
    ensures forall k :: k in Gather(points, keys) <==> exists p <- points :: k in keys(p)
  {
    if points != [] {
      var front, last := points[..|points| - 1], points[|points| - 1];
      assert points == front + [last];
      GatherElements(front, keys);
    }
  }

  lemma {:induction false} SameLengths(points: seq<Point>)
    ensures |Gather(points, Kinds)| == |Gather(points, Relations)|
  {
    if points != [] {
      SameLengths(points[..|points| - 1]);
    }
  }

  lemma {:induction false} CompatibleBounds(points: seq<Point>)
    ensures CountCompatible(points) <= |points|
  {
    if points != [] {
      CompatibleBounds(points[..|points| - 1]);
    }
  }

  /** No subsystem makes more transitions than there are points, and only counted subsystems appear. */
  lemma {:induction false} TransitionsAreBounded(points: seq<Point>)
    ensures forall name <- SummarizeTransitions(points) ::
      IsTransitionCount(SummarizeTransitions(points)[name], |points|)
      && SummarizeTransitions(points)[name] != NO_TRANSITIONS
      && exists p <- points :: name in p.summary.subsystems
  {
    if points != [] {
      var front, last := points[..|points| - 1], points[|points| - 1];
      assert points == front + [last];
      TransitionsAreBounded(front);
    }
  }

  lemma TallyIsCountMap(keys: seq<string>)
    requires NoBlanks(keys)
    ensures IsCountMap(Tally(keys)) && Sum(Tally(keys)) == |keys|
  {
    hide IsBlank;
    TallySum(keys);
    TallyIsPositive(keys);
  }

  lemma GatherIsVisible(points: seq<Point>, keys: Point -> seq<string>)
    requires forall p <- points :: NoBlanks(keys(p))
    ensures NoBlanks(Gather(points, keys))
  {
    hide IsBlank;
    GatherElements(points, keys);
  }

  lemma EqualToItself(m: map<string, int>)
    ensures CountMapsEqual(m, m)
  {
  }

  // ---------------------------------------------------------------------------
  // The builder passes the checker

  lemma BundleChangeKeys(b: Bundle)
    requires IsBundle(b)
    ensures NoBlanks(StableIDs(BoundaryChanges(b)))
    ensures |StableIDs(BoundaryChanges(b))| == b.summary.changeSummary.total
  {
    PartsAreValid(b);
    PartChangesAreStored(Parts(b));
    hide IsBlank, Parts, AllChanges, IsPart;
    var changes := BoundaryChanges(b);
    forall k | k in StableIDs(changes) ensures !IsBlank(k) {
      var i :| 0 <= i < |changes| && StableIDs(changes)[i] == k;
      assert changes[i] in changes;
    }
  }

  lemma {:induction false} PartChangesAreStored(parts: seq<Part>)
    requires forall p <- parts :: IsPart(p)
    ensures forall c <- AllChanges(parts) :: !IsBlank(c.StableID())
  {
    hide IsBlank, IsSubsystemName, IsValidTransition, IsValidSummary, Summarize, NoBlanks, StableChangeID;
    if parts != [] {
      var front, last := parts[..|parts| - 1], parts[|parts| - 1];
      assert last in parts && forall p <- front :: p in parts;
      PartChangesAreStored(front);
      forall c | c in last.report.changes ensures !IsBlank(c.StableID()) {
        StoredIsStable(c);
      }
    }
  }

  lemma StoredIsStable(c: Change)
    requires IsValidChange(c)
    ensures !IsBlank(c.StableID())
  {
    assert Trim("") == "";
  }

  lemma {:induction false} ChangeKeysAreVisible(filtered: seq<Bundle>, points: seq<Point>)
    requires |filtered| == |points| && forall b <- filtered :: IsBundle(b)
    requires forall i | 0 <= i < |points| :: points[i].summary == filtered[i].summary
    ensures NoBlanks(ChangeKeys(filtered)) && |ChangeKeys(filtered)| == SumTotals(points)
  {
    hide IsBlank, IsBundle, BoundaryChanges;
    if filtered != [] {
      var n := |filtered| - 1;
      assert filtered[n] in filtered && forall b <- filtered[..n] :: b in filtered;
      ChangeKeysAreVisible(filtered[..n], points[..n]);
      BundleChangeKeys(filtered[n]);
    }
  }

  lemma SortIsVisible(texts: seq<string>)
    ensures NoBlanks(Sort(NonBlank(texts)))
  {
    hide IsBlank;
    NonBlankIsVisible(texts);
    SameElements(Sort(NonBlank(texts)), NonBlank(texts));
  }

  lemma PointIsValid(entry: SeriesEntry, b: Bundle, latest: bool)
    requires IsBundle(b) && !IsBlank(b.manifest) && !IsBlank(entry.id)
    ensures IsPoint(NewSeriesPoint(entry, b, latest), latest)
  {
    hide IsBlank, IsBundleSummary, NoBlanks, AreValidReports, SummaryOf, Parts, Correlate, Sort, NonBlank;
    hide IsValidCorrelation, RuleIdList;
    NoneBlank();
    if b.ci.Some? && b.ci.value.campaign.Some? {
      SortIsVisible(b.ci.value.campaign.value);
    }
    if b.sorna.Some? {
      SortIsVisible(RuleIdList(b.sorna.value.changedRules));
    }
  }

  lemma PointKeysAreVisible(p: Point, requireLatest: bool)
    requires IsPoint(p, requireLatest)
    ensures NoBlanks(MutationIdsOf(p)) && NoBlanks(RuleIdsOf(p)) && NoBlanks(WarningsOf(p))
    ensures forall k <- Kinds(p) :: IsCorrelationKind(k)
    ensures forall r <- Relations(p) :: IsRelation(r)
    ensures forall name <- p.summary.subsystems :: IsSubsystemName(name)
  {
    NonBlankIsVisible(p.summary.warnings);
    hide IsBlank, IsCorrelationKind, IsRelation, IsSubsystemName, NonBlank;
    forall k | k in Kinds(p) ensures IsCorrelationKind(k) {
      var i :| 0 <= i < |p.correlations| && Kinds(p)[i] == k;
      assert p.correlations[i] in p.correlations;
    }
    forall r | r in Relations(p) ensures IsRelation(r) {
      var i :| 0 <= i < |p.correlations| && Relations(p)[i] == r;
      assert p.correlations[i] in p.correlations;
    }
  }

  lemma KindsAreVisible()
    ensures forall k: string | IsCorrelationKind(k) :: !IsBlank(k)
    ensures forall r: string | IsRelation(r) :: !IsBlank(r)
  {
    forall k: string | IsCorrelationKind(k) || IsRelation(k) ensures !IsBlank(k) {
      assert 'a' <= k[0] <= 'z';
      VisibleIsNotBlank(k, k[0]);
    }
  }

  ghost predicate ArePoints(points: seq<Point>) {
    forall i | 0 <= i < |points| :: IsPoint(points[i], i == |points| - 1)
  }

  lemma PointListKeys(points: seq<Point>)
    requires ArePoints(points)
    ensures forall p <- points :: NoBlanks(MutationIdsOf(p)) && NoBlanks(RuleIdsOf(p)) && NoBlanks(WarningsOf(p))
    ensures forall p <- points :: forall k <- Kinds(p) :: IsCorrelationKind(k)
    ensures forall p <- points :: forall r <- Relations(p) :: IsRelation(r)
    ensures forall p <- points :: forall name <- p.summary.subsystems :: IsSubsystemName(name)
  {
    hide IsPoint, NoBlanks, IsCorrelationKind, IsRelation, IsSubsystemName, Kinds, Relations, WarningsOf;
    forall p | p in points
      ensures NoBlanks(MutationIdsOf(p)) && NoBlanks(RuleIdsOf(p)) && NoBlanks(WarningsOf(p))
      ensures forall k <- Kinds(p) :: IsCorrelationKind(k)
      ensures forall r <- Relations(p) :: IsRelation(r)
      ensures forall name <- p.summary.subsystems :: IsSubsystemName(name)
    {
      var i :| 0 <= i < |points| && points[i] == p;
      PointKeysAreVisible(p, i == |points| - 1);
    }
  }

  lemma CorrelationSummaryIsValid(points: seq<Point>)
    requires ArePoints(points)
    ensures var c := SummarizeCorrelations(points);
      && IsCountMap(c.byKind) && (forall k <- c.byKind :: IsCorrelationKind(k))
      && IsCountMap(c.byRelation) && (forall r <- c.byRelation :: IsRelation(r))
      && Sum(c.byKind) == c.observations && Sum(c.byRelation) == c.observations
  {
    PointListKeys(points);
    KindsAreVisible();
    hide IsBlank, IsPoint, IsCorrelationKind, IsRelation, Kinds, Relations;
    GatherElements(points, Kinds);
    GatherElements(points, Relations);
    SameLengths(points);
    TallyIsCountMap(Gather(points, Kinds));
    TallyIsCountMap(Gather(points, Relations));
  }

  lemma SummaryIsValidForPoints(points: seq<Point>, filtered: seq<Bundle>)
    requires points != [] && ArePoints(points)
    requires |filtered| == |points| && forall b <- filtered :: IsBundle(b)
    requires forall i | 0 <= i < |points| :: points[i].summary == filtered[i].summary
    ensures IsSeriesSummary(SummaryOfSeries(points, filtered))
  {
    hide IsBlank, IsPoint, IsBundle, Gather, CountCompatible, SumTotals, ChangeKeys, SummarizeTransitions, Tally, Sum;
    hide IsCountMap, IsTransitionCount, IsSubsystemName, IsCorrelationKind, IsRelation, NoBlanks, SummarizeCorrelations;
    PointListKeys(points);
    ChangeKeysAreVisible(filtered, points);
    TallyIsCountMap(ChangeKeys(filtered));
    GatherIsVisible(points, MutationIdsOf);
    GatherIsVisible(points, RuleIdsOf);
    GatherIsVisible(points, WarningsOf);
    TallyIsCountMap(Gather(points, MutationIdsOf));
    TallyIsCountMap(Gather(points, RuleIdsOf));
    TallyIsCountMap(Gather(points, WarningsOf));
    CorrelationSummaryIsValid(points);
    ObservationsNonNegative(points);
    CompatibleBounds(points);
    TransitionsAreBounded(points);
  }

  lemma ObservationsNonNegative(points: seq<Point>)
    ensures SummarizeCorrelations(points).observations >= 0
  {
  }

  lemma PointsAreValid(entries: seq<SeriesEntry>, filtered: seq<Bundle>)
    requires |entries| == |filtered|
    requires forall e <- entries :: !IsBlank(e.id)
    requires forall b <- filtered :: IsBundle(b) && !IsBlank(b.manifest)
    ensures ArePoints(PointsOf(entries, filtered))
  {
    hide IsBlank, IsBundle, IsPoint, NewSeriesPoint;
    var points := PointsOf(entries, filtered);
    forall i | 0 <= i < |points| ensures IsPoint(points[i], i == |points| - 1) {
      assert entries[i] in entries && filtered[i] in filtered;
      PointIsValid(entries[i], filtered[i], i == |points| - 1);
    }
  }

  lemma FilteredAreValid(bundles: seq<Bundle>, ids: seq<string>)
    requires forall b <- bundles :: IsBundle(b) && !IsBlank(b.manifest)
    ensures forall f <- FilterAll(bundles, Normalized(ids)) :: IsBundle(f) && !IsBlank(f.manifest)
  {
    hide IsBlank, IsBundle, Normalized;
    var filtered := FilterAll(bundles, Normalized(ids));
    forall f | f in filtered ensures IsBundle(f) && !IsBlank(f.manifest) {
      var i :| 0 <= i < |filtered| && filtered[i] == f;
      assert bundles[i] in bundles;
      FilterKeepsBundleValid(bundles[i], ids);
      ManifestKept(bundles[i], Normalized(ids));
    }
  }

  lemma ManifestKept(b: Bundle, selected: set<string>)
    ensures FilteredBundle(b, selected).manifest == b.manifest
  {
  }

  /** From a valid manifest and valid bundles with a manifest path, the series that the builder's running
  counters give passes the checker, under any filter, exactly when the series path is empty or not blank. */
  lemma BuiltSeriesIsValid(seriesPath: string, m: SeriesManifest, bundles: seq<Bundle>, ids: seq<string>)
    requires IsManifest(m) && |m.entries| == |bundles|
    requires forall b <- bundles :: IsBundle(b) && !IsBlank(b.manifest)
    ensures IsSeries(SeriesOf(seriesPath, m.entries, bundles, ids)) <==> seriesPath == "" || !IsBlank(seriesPath)
  {
    hide IsBlank, IsBundle, Normalized, SortedSet, NewSeriesPoint, IsPoint, IsSeriesSummary, Gather, SumTotals;
    hide ChangeKeys;
    hide SummarizeCorrelations, SummarizeTransitions, CountCompatible, Tally, NoBlanks;
    var filtered := FilterAll(bundles, Normalized(ids));
    var points := PointsOf(m.entries, filtered);
    FilteredAreValid(bundles, ids);
    PointsAreValid(m.entries, filtered);
    PointSummaries(m.entries, filtered);
    SummaryIsValidForPoints(points, filtered);
    SelectedIsVisible(ids);
    EqualToItself(Tally(Gather(points, MutationIdsOf)));
    EqualToItself(Tally(Gather(points, RuleIdsOf)));
    EqualToItself(Tally(Gather(points, WarningsOf)));
    var c := SummarizeCorrelations(points);
    EqualToItself(c.byKind);
    EqualToItself(c.byRelation);
  }

  /** Any such series is refused when its path is a blank. */
  lemma BlankPathIsRefused(m: SeriesManifest, bundles: seq<Bundle>, ids: seq<string>)
    requires IsManifest(m) && |m.entries| == |bundles|
    requires forall b <- bundles :: IsBundle(b) && !IsBlank(b.manifest)
    ensures !IsSeries(SeriesOf(" ", m.entries, bundles, ids)) && IsSeries(SeriesOf("", m.entries, bundles, ids))
  {
    hide IsSeries, SeriesOf, IsManifest, IsBundle;
    BuiltSeriesIsValid(" ", m, bundles, ids);
    BuiltSeriesIsValid("", m, bundles, ids);
    BlankText();
  }

  lemma BlankText()
    ensures IsBlank(" ")
  {
    assert TrimStart(" ") == "";
  }

  lemma PointSummaries(entries: seq<SeriesEntry>, filtered: seq<Bundle>)
    requires |entries| == |filtered|
    ensures var points := PointsOf(entries, filtered); forall i | 0 <= i < |points| ::
      && points[i].summary == filtered[i].summary
      && points[i].latest == (i == |points| - 1)
      && points[i].id == entries[i].id
  {
    hide MutationIds, RuleIds;
  }

  // ---------------------------------------------------------------------------
  // What the checker establishes

  lemma PositiveTransitionMapsEqual(got: map<string, TransitionCounts>, want: map<string, TransitionCounts>)
    requires forall name <- want :: want[name] != NO_TRANSITIONS
    ensures TransitionMapsEqual(got, want) <==> got == want
  {
    assert |got| == |got.Keys| && |want| == |want.Keys|;
    if TransitionMapsEqual(got, want) {
      forall name <- want ensures name in got && got[name] == want[name] {
        assert CountsOf(got, name) == want[name];
      }
      assert want.Keys <= got.Keys;
      SubsetOfSameSize(want.Keys, got.Keys);
    }
  }

  /** The checker compares maps leniently, yet a series it accepts holds exactly the recounted maps. */
  lemma CheckedMapsAreRecounts(s: Series)
    requires IsSeries(s)
    ensures s.summary.mutationChangesById == Tally(Gather(s.entries, MutationIdsOf))
    ensures s.summary.ruleChangesById == Tally(Gather(s.entries, RuleIdsOf))
    ensures s.summary.warnings == Tally(Gather(s.entries, WarningsOf))
    ensures s.summary.correlations == SummarizeCorrelations(s.entries)
    ensures s.summary.transitions == SummarizeTransitions(s.entries)
  {
    hide IsSeriesSummary, IsPoint, Gather, NoBlanks, IsBlank, CountCompatible, SumTotals, IsTransitionCount;
    RecountIsMap(s.summary.mutationChangesById, Gather(s.entries, MutationIdsOf));
    RecountIsMap(s.summary.ruleChangesById, Gather(s.entries, RuleIdsOf));
    RecountIsMap(s.summary.warnings, Gather(s.entries, WarningsOf));
    RecountIsMap(s.summary.correlations.byKind, Gather(s.entries, Kinds));
    RecountIsMap(s.summary.correlations.byRelation, Gather(s.entries, Relations));
    TransitionsAreBounded(s.entries);
    PositiveTransitionMapsEqual(s.summary.transitions, SummarizeTransitions(s.entries));
  }

  lemma RecountIsMap(got: map<string, int>, keys: seq<string>)
    ensures CountMapsEqual(got, Tally(keys)) <==> got == Tally(keys)
  {
    TallyIsPositive(keys);
    PositiveCountMapsEqual(got, Tally(keys));
  }
}
