/** Bundles of independent reports, their derived summary and correlations, and their validator. */
module Bundle {
  import opened Text
  import opened CountMaps
  import opened Changes
  import opened Reports
  import NublarRun

  datatype Subsystem = Subsystem(compatible: bool, transition: StateTransition, summary: ChangeSummary)

  datatype BundleSummary = BundleSummary(
    compatible: bool,
    reasons: seq<string>,
    changeSummary: ChangeSummary,
    warnings: seq<string>,
    subsystems: map<string, Subsystem>)

  datatype Correlation = Correlation(
    kind: string, side: string, relation: string, nublarRunId: string, custodySourceRunId: string,
    nublarCorrelationId: string, amberCorrelationId: string)

  datatype Bundle = Bundle(
    schema: string,
    manifest: string,
    summary: BundleSummary,
    correlations: seq<Correlation>,
    filter: seq<string>,
    ci: Option<CiReport>,
    sorna: Option<SornaReport>,
    nublar: Option<Report>,
    custody: Option<Report>,
    provenance: Option<Report>)

  // ---------------------------------------------------------------------------
  // The summary

  /** A report that is present, under its subsystem's name. */
  datatype Part = Part(name: string, report: Report, warnings: seq<string>)

  function OptionalPart(name: string, r: Option<Report>): seq<Part> {
    if r.None? then [] else [Part(name, r.value, [])]
  }

  function CiPart(ci: Option<CiReport>): seq<Part> {
    if ci.None? then [] else [Part("ci_result", ci.value.report, ci.value.warnings)]
  }

  function SornaPart(sorna: Option<SornaReport>): seq<Part> {
    if sorna.None? then [] else [Part("sorna_run", sorna.value.report, [])]
  }

  function Parts(b: Bundle): seq<Part> {
    CiPart(b.ci)
    + SornaPart(b.sorna)
    + OptionalPart("nublar_run", b.nublar)
    + OptionalPart("custody", b.custody)
    + OptionalPart("provenance", b.provenance)
  }

  function Prefixed(name: string, texts: seq<string>): (r: seq<string>)
    ensures |r| == |texts| && forall i | 0 <= i < |r| :: r[i] == name + ": " + texts[i]
  {
    seq(|texts|, i requires 0 <= i < |texts| => name + ": " + texts[i])
  }

  function AllChanges(parts: seq<Part>): seq<Change> {
    if parts == [] then [] else AllChanges(parts[..|parts| - 1]) + parts[|parts| - 1].report.changes
  }

  function AllReasons(parts: seq<Part>): seq<string> {
    if parts == [] then []
    else
      var p := parts[|parts| - 1];
      AllReasons(parts[..|parts| - 1]) + Prefixed(p.name, p.report.reasons)
  }

  function AllWarnings(parts: seq<Part>): seq<string> {
    if parts == [] then []
    else
      var p := parts[|parts| - 1];
      AllWarnings(parts[..|parts| - 1]) + Prefixed(p.name, p.warnings)
  }

  function SubsystemOf(r: Report): Subsystem { Subsystem(r.compatible, r.transition, Summarize(r.changes)) }

  function Subsystems(parts: seq<Part>): map<string, Subsystem> {
    if parts == [] then map[]
    else
      var p := parts[|parts| - 1];
      Subsystems(parts[..|parts| - 1])[p.name := SubsystemOf(p.report)]
  }

  function SummaryOf(parts: seq<Part>): BundleSummary {
    BundleSummary(
      parts != [] && forall p <- parts :: p.report.compatible,
      AllReasons(parts), Summarize(AllChanges(parts)), AllWarnings(parts), Subsystems(parts))
  }

  method AppendPrefixed(texts: seq<string>, name: string, more: seq<string>) returns (r: seq<string>)
    ensures r == texts + Prefixed(name, more)
  {
    r := texts;
    for i := 0 to |more|
      invariant r == texts + Prefixed(name, more)[..i]
    {
      r := r + [name + ": " + more[i]];
    }
  }

  lemma OnePartMore(parts: seq<Part>, p: Part)
    ensures AllReasons(parts + [p]) == AllReasons(parts) + Prefixed(p.name, p.report.reasons)
    ensures AllWarnings(parts + [p]) == AllWarnings(parts) + Prefixed(p.name, p.warnings)
    ensures Subsystems(parts + [p]) == Subsystems(parts)[p.name := SubsystemOf(p.report)]
    ensures AllChanges(parts + [p]) == AllChanges(parts) + p.report.changes
  {
    assert (parts + [p])[..|parts|] == parts;
  }

  /** The variables that the `add` closure of `SummarizeBundle` updates. */
  class SummaryBuilder {
    var compatible: bool
    var reasons: seq<string>
    var warnings: seq<string>
    var subsystems: map<string, Subsystem>
    var allChanges: seq<Change>
    var included: bool
    ghost var parts: seq<Part>

    ghost predicate Valid()
      reads this
    {
      && compatible == (forall p <- parts :: p.report.compatible)
      && reasons == AllReasons(parts) && warnings == AllWarnings(parts)
      && subsystems == Subsystems(parts) && allChanges == AllChanges(parts)
      && included == (parts != [])
    }

    constructor ()
      ensures Valid() && parts == []
    {
      compatible, reasons, warnings, subsystems, allChanges, included := true, [], [], map[], [], false;
      parts := [];
    }

    method Add(name: string, report: Report, partWarnings: seq<string>)
      requires Valid()
      modifies this
      ensures Valid() && parts == old(parts) + [Part(name, report, partWarnings)]
    {
      hide AllReasons, AllWarnings, Subsystems, AllChanges, Prefixed;
      ghost var part := Part(name, report, partWarnings);
      OnePartMore(parts, part);
      included := true;
      var summary := SummarizeChanges(report.changes);
      subsystems := subsystems[name := Subsystem(report.compatible, report.transition, summary)];
      if !report.compatible {
        compatible := false;
      }
      reasons := AppendPrefixed(reasons, name, report.reasons);
      warnings := AppendPrefixed(warnings, name, partWarnings);
      allChanges := allChanges + report.changes;
      parts := parts + [part];
    }
  }

  method AddOptional(builder: SummaryBuilder, name: string, r: Option<Report>)
    requires builder.Valid()
    modifies builder
    ensures builder.Valid() && builder.parts == old(builder.parts) + OptionalPart(name, r)
  {
    hide AllReasons, AllWarnings, Subsystems, AllChanges;
    if r.Some? {
      builder.Add(name, r.value, []);
    }
  }

  method SummarizeBundle(b: Bundle) returns (summary: BundleSummary)
    ensures summary == SummaryOf(Parts(b))
  {
    hide AllReasons, AllWarnings, Subsystems, AllChanges, OptionalPart;
    var builder := new SummaryBuilder();
    if b.ci.Some? {
      builder.Add("ci_result", b.ci.value.report, b.ci.value.warnings);
    }
    assert builder.parts == CiPart(b.ci);
    label Ci:
    if b.sorna.Some? {
      builder.Add("sorna_run", b.sorna.value.report, []);
    }
    assert builder.parts == old@Ci(builder.parts) + SornaPart(b.sorna);
    AddOptional(builder, "nublar_run", b.nublar);
    AddOptional(builder, "custody", b.custody);
    AddOptional(builder, "provenance", b.provenance);
    if !builder.included {
      builder.compatible := false;
    }
    assert builder.parts == Parts(b);
    var changes := SummarizeChanges(builder.allChanges);
    summary := BundleSummary(builder.compatible, builder.reasons, changes, builder.warnings, builder.subsystems);
  }

  // ---------------------------------------------------------------------------
  // Correlations

  const CUSTODY_KIND := "nublar-run-to-custody-source"
  const AMBER_KIND := "nublar-correlation-to-amber"

  function Relation(left: string, right: string): string {
    if left != "" && right != "" then if left == right then "exact-match" else "mismatch" else "unknown"
  }

  function CorrelateCustody(side: string, nublar: Side, custody: Side): Correlation {
    Correlation(CUSTODY_KIND, side, Relation(nublar.runId, custody.runId), nublar.runId, custody.runId, "", "")
  }

  function CorrelateAmber(side: string, nublar: Side, amber: Side): Correlation {
    Correlation(AMBER_KIND, side, Relation(nublar.correlationId, amber.correlationId), "", "",
      nublar.correlationId, amber.correlationId)
  }

  function Correlate(b: Bundle): seq<Correlation> {
    if b.nublar.None? then []
    else
      var n := b.nublar.value;
      (if b.custody.None? then []
       else [CorrelateCustody("before", n.before, b.custody.value.before),
         CorrelateCustody("after", n.after, b.custody.value.after)])
      + if b.provenance.None? then []
        else [CorrelateAmber("before", n.before, b.provenance.value.before),
          CorrelateAmber("after", n.after, b.provenance.value.after)]
  }

  predicate IsCorrelationKind(kind: string) { kind == CUSTODY_KIND || kind == AMBER_KIND }

  predicate IsRelation(relation: string)
  {
    relation == "exact-match" || relation == "mismatch" || relation == "unknown"
  }

  predicate IsValidCorrelation(c: Correlation) {
    (c.side == "before" || c.side == "after") && IsCorrelationKind(c.kind) && IsRelation(c.relation)
  }

  lemma CorrelationsAreValid(b: Bundle)
    ensures forall c <- Correlate(b) :: IsValidCorrelation(c)
  {
    hide IsRelation;
    forall x: string, y: string ensures IsRelation(Relation(x, y)) {
      RelationIsValid(x, y);
    }
  }

  lemma RelationIsValid(left: string, right: string)
    ensures IsRelation(Relation(left, right))
  {
  }

  // ---------------------------------------------------------------------------
  // Validation

  predicate IsSubsystemName(name: string) {
    name == "ci_result" || name == "sorna_run" || name == "nublar_run" || name == "custody" || name == "provenance"
  }

  ghost predicate IsBundleSummary(s: BundleSummary) {
    && (s.compatible <==> s.reasons == [])
    && NoBlanks(s.reasons) && NoBlanks(s.warnings)
    && IsValidSummary(s.changeSummary)
    && s.subsystems != map[]
    && (forall name <- s.subsystems :: IsSubsystemName(name))
    && (forall name <- s.subsystems ::
      IsValidTransition(s.subsystems[name].transition) && IsValidSummary(s.subsystems[name].summary))
  }

  const BUNDLE_SCHEMA := "ingen.sattler-bundle-comparison/v0"
  const CUSTODY_SCHEMA := "ingen.sattler-lockwood-custody-comparison/v0"
  const PROVENANCE_SCHEMA := "ingen.sattler-amber-provenance-comparison/v0"

  ghost predicate AreValidReports(b: Bundle) {
    && (b.ci.Some? ==> IsCiReport(b.ci.value))
    && (b.sorna.Some? ==> IsSornaReport(b.sorna.value))
    && (b.nublar.Some? ==> NublarRun.IsNublarReport(b.nublar.value))
    && (b.custody.Some? ==> IsStatusReport(b.custody.value, CUSTODY_SCHEMA))
    && (b.provenance.Some? ==> IsEnvelope(b.provenance.value, PROVENANCE_SCHEMA, []))
  }

  /** `BundleComparison.Validate`. */
  ghost predicate IsBundle(b: Bundle) {
    && b.schema == BUNDLE_SCHEMA
    && (b.manifest != "" ==> !IsBlank(b.manifest))
    && NoBlanks(b.filter)
    && AreValidReports(b)
    && IsBundleSummary(b.summary) && b.summary == SummaryOf(Parts(b))
    && (forall c <- b.correlations :: IsValidCorrelation(c)) && b.correlations == Correlate(b)
  }

  // ---------------------------------------------------------------------------
  // The summary of valid reports is valid

  ghost predicate IsPart(p: Part) {
    && IsSubsystemName(p.name) && IsEnvelope(p.report, p.report.schema, p.warnings)
  }

  lemma NameIsVisible(name: string, text: string)
    requires IsSubsystemName(name)
    ensures !IsBlank(name + ": " + text)
  {
    assert (name + ": " + text)[|name|] == ':';
    VisibleIsNotBlank(name + ": " + text, ':');
  }

  lemma PrefixedIsVisible(name: string, texts: seq<string>)
    requires IsSubsystemName(name)
    ensures NoBlanks(Prefixed(name, texts))
  {
    hide IsBlank, IsSubsystemName;
    var r := Prefixed(name, texts);
    forall v | v in r ensures !IsBlank(v) {
      var i :| 0 <= i < |r| && r[i] == v;
      NameIsVisible(name, texts[i]);
    }
  }

  lemma NoBlanksAppend(xs: seq<string>, ys: seq<string>)
    requires NoBlanks(xs) && NoBlanks(ys)
    ensures NoBlanks(xs + ys)
  {
    hide IsBlank;
  }

  lemma {:induction false} ListsAreVisible(parts: seq<Part>)
    requires forall p <- parts :: IsPart(p)
    ensures NoBlanks(AllReasons(parts)) && NoBlanks(AllWarnings(parts))
    ensures AllReasons(parts) == [] <==> forall p <- parts :: p.report.compatible
  {
    hide NoBlanks, IsSubsystemName, IsValidTransition, IsValidSummary, Summarize, AreValidChanges;
    if parts == [] {
      NoneBlank();
    } else {
      var front, last := parts[..|parts| - 1], parts[|parts| - 1];
      assert parts == front + [last];
      assert last in parts && forall p <- front :: p in parts;
      ListsAreVisible(front);
      PrefixedIsVisible(last.name, last.report.reasons);
      PrefixedIsVisible(last.name, last.warnings);
      NoBlanksAppend(AllReasons(front), Prefixed(last.name, last.report.reasons));
      NoBlanksAppend(AllWarnings(front), Prefixed(last.name, last.warnings));
    }
  }

  lemma NoneBlank()
    ensures NoBlanks([])
  {
  }

  lemma {:induction false} ChangesHaveCategories(parts: seq<Part>)
    requires forall p <- parts :: IsPart(p)
    ensures forall c <- AllChanges(parts) :: !IsBlank(c.category)
  {
    hide IsBlank, IsSubsystemName, IsValidTransition, IsValidSummary, Summarize, NoBlanks;
    if parts != [] {
      var front, last := parts[..|parts| - 1], parts[|parts| - 1];
      assert last in parts && forall p <- front :: p in parts;
      ChangesHaveCategories(front);
    }
  }

  lemma {:induction false} SubsystemsAreValid(parts: seq<Part>)
    requires forall p <- parts :: IsPart(p)
    ensures parts != [] ==> Subsystems(parts) != map[]
    ensures forall name <- Subsystems(parts) :: IsSubsystemName(name)
    ensures forall name <- Subsystems(parts) ::
      IsValidTransition(Subsystems(parts)[name].transition) && IsValidSummary(Subsystems(parts)[name].summary)
  {
    hide IsSubsystemName, IsValidTransition, IsValidSummary, Summarize, NoBlanks, AreValidChanges;
    if parts != [] {
      var front, last := parts[..|parts| - 1], parts[|parts| - 1];
      assert last in parts && forall p <- front :: p in parts;
      SubsystemsAreValid(front);
      assert last.name in Subsystems(parts);
    }
  }

  /** The summary derived from one or more valid reports passes the summary checks. */
  lemma SummaryIsValid(parts: seq<Part>)
    requires parts != [] && forall p <- parts :: IsPart(p)
    ensures IsBundleSummary(SummaryOf(parts))
  {
    ListsAreVisible(parts);
    ChangesHaveCategories(parts);
    SummaryConserves(AllChanges(parts));
    SubsystemsAreValid(parts);
    hide NoBlanks, IsSubsystemName, IsValidTransition, IsValidSummary, Summarize, AllChanges, AllReasons, AllWarnings;
    hide Subsystems, IsPart;
  }

  lemma EnvelopeSchema(r: Report, schema: string, warnings: seq<string>)
    requires IsEnvelope(r, schema, warnings)
    ensures r.schema == schema
  {
  }

  lemma OptionalPartIsValid(name: string, r: Option<Report>, schema: string)
    requires IsSubsystemName(name) && (r.Some? ==> IsEnvelope(r.value, schema, []))
    ensures forall p <- OptionalPart(name, r) :: IsPart(p)
  {
    hide IsEnvelope, IsSubsystemName;
    if r.Some? {
      EnvelopeSchema(r.value, schema, []);
    }
  }

  lemma PartsAreValid(b: Bundle)
    requires AreValidReports(b)
    ensures forall p <- Parts(b) :: IsPart(p)
  {
    hide IsEnvelope, OptionalPart;
    if b.ci.Some? {
      EnvelopeSchema(b.ci.value.report, CI_SCHEMA, b.ci.value.warnings);
    }
    if b.sorna.Some? {
      EnvelopeSchema(b.sorna.value.report, SORNA_SCHEMA, []);
    }
    OptionalPartIsValid("nublar_run", b.nublar, NublarRun.NUBLAR_SCHEMA);
    OptionalPartIsValid("custody", b.custody, CUSTODY_SCHEMA);
    OptionalPartIsValid("provenance", b.provenance, PROVENANCE_SCHEMA);
  }

  /** Valid reports make a valid bundle once the summary and the correlations are derived. */
  lemma DerivedBundleIsValid(b: Bundle)
    requires b.schema == BUNDLE_SCHEMA && (b.manifest != "" ==> !IsBlank(b.manifest)) && NoBlanks(b.filter)
    requires AreValidReports(b) && Parts(b) != []
    ensures IsBundle(b.(summary := SummaryOf(Parts(b)), correlations := Correlate(b)))
  {
    PartsAreValid(b);
    SummaryIsValid(Parts(b));
    CorrelationsAreValid(b);
    var derived := b.(summary := SummaryOf(Parts(b)), correlations := Correlate(b));
    assert Parts(derived) == Parts(b) && Correlate(derived) == Correlate(b);
    hide IsBundleSummary, SummaryOf, IsEnvelope, IsSornaReport, IsValidCorrelation, NoBlanks, IsBlank, Parts, Correlate;
  }

  // ---------------------------------------------------------------------------
  // Conservation

  function TotalOf(subsystems: map<string, Subsystem>, name: string): int {
    if name in subsystems then subsystems[name].summary.total else 0
  }

  function CategoryOf(subsystems: map<string, Subsystem>, name: string, category: string): int {
    if name in subsystems then Lookup(subsystems[name].summary.byCategory, category) else 0
  }

  lemma TallyAppend(xs: seq<string>, ys: seq<string>, key: string)
    ensures Lookup(Tally(xs + ys), key) == Lookup(Tally(xs), key) + Lookup(Tally(ys), key)
  {
    assert multiset(xs + ys) == multiset(xs) + multiset(ys);
    assert key !in xs ==> multiset(xs)[key] == 0;
    assert key !in ys ==> multiset(ys)[key] == 0;
  }

  lemma CategoryAppend(xs: seq<Change>, ys: seq<Change>, category: string)
    ensures Lookup(Summarize(xs + ys).byCategory, category)
         == Lookup(Summarize(xs).byCategory, category) + Lookup(Summarize(ys).byCategory, category)
  {
    assert Categories(xs + ys) == Categories(xs) + Categories(ys);
    TallyAppend(Categories(xs), Categories(ys), category);
  }

  /** The changes of a part that may be absent. */
  function ChangesIn(part: seq<Part>): seq<Change> { if part == [] then [] else part[0].report.changes }

  /** The five places of a bundle, each with at most one part. */
  predicate AreFive(ps: seq<seq<Part>>) { |ps| == 5 && forall p <- ps :: |p| <= 1 }

  function Five(b: Bundle): (ps: seq<seq<Part>>)
    ensures AreFive(ps) && Parts(b) == ps[0] + ps[1] + ps[2] + ps[3] + ps[4]
  {
    [CiPart(b.ci), SornaPart(b.sorna), OptionalPart("nublar_run", b.nublar), OptionalPart("custody", b.custody),
     OptionalPart("provenance", b.provenance)]
  }

  lemma AllChangesAppend(parts: seq<Part>, more: seq<Part>)
    requires |more| <= 1
    ensures AllChanges(parts + more) == AllChanges(parts) + ChangesIn(more)
  {
    if more == [] {
      assert parts + more == parts;
    } else {
      assert (parts + more)[..|parts|] == parts;
    }
  }

  lemma AllChangesOne(part: seq<Part>)
    requires |part| <= 1
    ensures AllChanges(part) == ChangesIn(part)
  {
    if part != [] {
      assert part[..0] == [];
    }
  }

  lemma AllChangesInOrder(ps: seq<seq<Part>>)
    requires AreFive(ps)
    ensures AllChanges(ps[0] + ps[1] + ps[2] + ps[3] + ps[4])
         == ChangesIn(ps[0]) + ChangesIn(ps[1]) + ChangesIn(ps[2]) + ChangesIn(ps[3]) + ChangesIn(ps[4])
  {
    hide AllChanges, ChangesIn;
    AllChangesOne(ps[0]);
    AllChangesAppend(ps[0], ps[1]);
    AllChangesAppend(ps[0] + ps[1], ps[2]);
    AllChangesAppend(ps[0] + ps[1] + ps[2], ps[3]);
    AllChangesAppend(ps[0] + ps[1] + ps[2] + ps[3], ps[4]);
  }

  lemma CategoriesInOrder(ps: seq<seq<Part>>, category: string)
    requires AreFive(ps)
    ensures var s := Summarize(ChangesIn(ps[0]) + ChangesIn(ps[1]) + ChangesIn(ps[2]) + ChangesIn(ps[3])
      + ChangesIn(ps[4]));
      Lookup(s.byCategory, category)
        == Lookup(Summarize(ChangesIn(ps[0])).byCategory, category)
          + Lookup(Summarize(ChangesIn(ps[1])).byCategory, category)
          + Lookup(Summarize(ChangesIn(ps[2])).byCategory, category)
            + Lookup(Summarize(ChangesIn(ps[3])).byCategory, category)
          + Lookup(Summarize(ChangesIn(ps[4])).byCategory, category)
  {
    hide ChangesIn, Summarize, Lookup;
    var c := ChangesIn(ps[0]) + ChangesIn(ps[1]);
    CategoryAppend(ChangesIn(ps[0]), ChangesIn(ps[1]), category);
    CategoryAppend(c, ChangesIn(ps[2]), category);
    CategoryAppend(c + ChangesIn(ps[2]), ChangesIn(ps[3]), category);
    CategoryAppend(c + ChangesIn(ps[2]) + ChangesIn(ps[3]), ChangesIn(ps[4]), category);
  }

  function PutPart(s: map<string, Subsystem>, part: seq<Part>): map<string, Subsystem> {
    if part == [] then s else s[part[0].name := SubsystemOf(part[0].report)]
  }

  lemma SubsystemsAppend(parts: seq<Part>, more: seq<Part>)
    requires |more| <= 1
    ensures Subsystems(parts + more) == PutPart(Subsystems(parts), more) && Subsystems([]) == map[]
  {
    if more == [] {
      assert parts + more == parts;
    } else {
      assert (parts + more)[..|parts|] == parts;
    }
  }

  lemma SubsystemsInOrder(ps: seq<seq<Part>>)
    requires AreFive(ps)
    ensures Subsystems(ps[0] + ps[1] + ps[2] + ps[3] + ps[4])
         == PutPart(PutPart(PutPart(PutPart(PutPart(map[], ps[0]), ps[1]), ps[2]), ps[3]), ps[4])
  {
    hide Subsystems, PutPart;
    SubsystemsAppend([], ps[0]);
    assert [] + ps[0] == ps[0];
    SubsystemsAppend(ps[0], ps[1]);
    SubsystemsAppend(ps[0] + ps[1], ps[2]);
    SubsystemsAppend(ps[0] + ps[1] + ps[2], ps[3]);
    SubsystemsAppend(ps[0] + ps[1] + ps[2] + ps[3], ps[4]);
  }

  const NAMES := ["ci_result", "sorna_run", "nublar_run", "custody", "provenance"]

  lemma NamesDiffer()
    ensures forall i, j | 0 <= i < j < 5 :: NAMES[i] != NAMES[j]
  {
  }

  /** What putting a part does to the counts kept under one name. */
  lemma PutCounts(s: map<string, Subsystem>, part: seq<Part>, name: string, other: string, category: string)
    requires |part| <= 1 && (part != [] ==> part[0].name == name)
    ensures other != name ==> TotalOf(PutPart(s, part), other) == TotalOf(s, other)
    ensures other != name ==> CategoryOf(PutPart(s, part), other, category) == CategoryOf(s, other, category)
    ensures name !in s ==> TotalOf(PutPart(s, part), name) == |ChangesIn(part)|
    ensures name !in s ==>
      CategoryOf(PutPart(s, part), name, category) == Lookup(Summarize(ChangesIn(part)).byCategory, category)
    ensures other != name && other !in s ==> other !in PutPart(s, part)
  {
  }

  predicate AreNamed(ps: seq<seq<Part>>, names: seq<string>) {
    && AreFive(ps) && |names| == 5
    && (forall i, j | 0 <= i < j < 5 :: names[i] != names[j])
    && (forall i | 0 <= i < 5 :: ps[i] != [] ==> ps[i][0].name == names[i])
  }

  /** The counts under the name of the k-th place are those of its part. */
  lemma CountsInPlace(ps: seq<seq<Part>>, names: seq<string>, k: nat, category: string)
    requires AreNamed(ps, names) && k < 5
    ensures var s := PutPart(PutPart(PutPart(PutPart(PutPart(map[], ps[0]), ps[1]), ps[2]), ps[3]), ps[4]);
      && TotalOf(s, names[k]) == |ChangesIn(ps[k])|
      && CategoryOf(s, names[k], category) == Lookup(Summarize(ChangesIn(ps[k])).byCategory, category)
  {
    hide PutPart, TotalOf, CategoryOf, ChangesIn, Summarize, Lookup;
    var s1 := PutPart(map[], ps[0]);
    var s2 := PutPart(s1, ps[1]);
    var s3 := PutPart(s2, ps[2]);
    var s4 := PutPart(s3, ps[3]);
    NothingPut(ps[k], names[k], category);
    PutCounts(map[], ps[0], names[0], names[k], category);
    PutCounts(s1, ps[1], names[1], names[k], category);
    PutCounts(s2, ps[2], names[2], names[k], category);
    PutCounts(s3, ps[3], names[3], names[k], category);
    PutCounts(s4, ps[4], names[4], names[k], category);
  }

  lemma NothingPut(part: seq<Part>, name: string, category: string)
    ensures TotalOf(map[], name) == 0 && CategoryOf(map[], name, category) == 0
  {
  }

  lemma FiveAreNamed(b: Bundle)
    ensures AreNamed(Five(b), NAMES)
  {
    NamesDiffer();
    assert NAMES[0] == "ci_result" && NAMES[1] == "sorna_run";
    assert NAMES[2] == "nublar_run" && NAMES[3] == "custody" && NAMES[4] == "provenance";
    hide NAMES;
    assert |Five(b)[2]| == 0 || Five(b)[2][0].name == "nublar_run";
    assert |Five(b)[3]| == 0 || Five(b)[3][0].name == "custody";
  }

  /** Nothing is lost or counted twice: the total, and the count of each category, is the sum over the
  subsystems. */
  lemma BundleConserves(b: Bundle, category: string)
    ensures var s := SummaryOf(Parts(b));
      && s.changeSummary.total == TotalOf(s.subsystems, "ci_result") + TotalOf(s.subsystems, "sorna_run")
        + TotalOf(s.subsystems, "nublar_run") + TotalOf(s.subsystems, "custody") + TotalOf(s.subsystems, "provenance")
      && Lookup(s.changeSummary.byCategory, category)
        == CategoryOf(s.subsystems, "ci_result", category) + CategoryOf(s.subsystems, "sorna_run", category)
          + CategoryOf(s.subsystems, "nublar_run", category) + CategoryOf(s.subsystems, "custody", category)
          + CategoryOf(s.subsystems, "provenance", category)
  {
    var ps := Five(b);
    FiveAreNamed(b);
    AllChangesInOrder(ps);
    CategoriesInOrder(ps, category);
    SubsystemsInOrder(ps);
    CountsInPlace(ps, NAMES, 0, category);
    CountsInPlace(ps, NAMES, 1, category);
    CountsInPlace(ps, NAMES, 2, category);
    CountsInPlace(ps, NAMES, 3, category);
    CountsInPlace(ps, NAMES, 4, category);
    hide Five, Parts, PutPart, Subsystems, AllChanges, AllReasons, AllWarnings, ChangesIn, Tally, TotalOf, CategoryOf;
    hide Lookup;
  }
}
