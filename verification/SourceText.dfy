/** A source text for every specification that the parser can return, written from the documented forms. */
module SourceText {
  import opened Text
  import opened Ast
  import opened StringCodec
  import opened LiteralRoundTrip
  import opened LiteralSource
  import opened BlockGrammar
  import opened ClauseText

  // ---------------------------------------------------------------------------
  // Which specifications have one

  predicate CanWriteRequest(r: Option<RequestClause>) {
    r.Some? ==> WellFormedFields(r.value.body) && DistinctNames(r.value.body)
  }

  predicate CanWriteSetup(u: SetupClause) {
    && IsIdentifier(u.name) && CanWriteRequest(u.request) && (u.when_.Some? ==> CanWriteWhen(u.when_.value))
    && (forall r <- u.requirements :: IsPhrase(r.expression))
    && (forall c <- u.captures :: CanWriteCapture(c))
  }

  predicate CanWriteScenario(s: Scenario) {
    && IsWord(s.name) && (forall e <- s.given :: IsPhrase(e)) && (s.state.Some? ==> IsIdentifier(s.state.value))
    && CanWriteRequest(s.request) && (s.when_.Some? ==> CanWriteWhen(s.when_.value))
    && (forall u <- s.setups :: CanWriteSetup(u))
    && (forall r <- s.requirements :: IsPhrase(r.expression))
  }

  predicate CanWriteMutation(m: MutationClause) {
    && IsClean(m.id) && (m.scenario.Some? ==> IsIdentifier(m.scenario.value))
    && (m.change.Some? ==> m.change.value.field == "response.status")
    && (m.expectedRule.Some? ==> IsPhrase(m.expectedRule.value))
  }

  predicate CanWriteFixture(f: FixtureClause) {
    && IsClean(f.id) && (f.purpose.Some? ==> IsClean(f.purpose.value)) && (f.sha256.Some? ==> IsClean(f.sha256.value))
  }

  predicate CanWriteIsolation(i: IsolationClause) {
    i.reset.Some? ==> i.reset.value.method_ == "POST" && IsClean(i.reset.value.path)
  }

  predicate CanWriteItem(item: Item) {
    match item
    case SubjectItem(subject) => IsClean(subject)
    case ScenarioItem(scenario) => CanWriteScenario(scenario)
    case MutationItem(mutation) => CanWriteMutation(mutation)
    case FixtureItem(fixture) => CanWriteFixture(fixture)
    case ProvenanceItem(provenance) => |provenance.requirements| <= 1
    case IsolationItem(isolation) => CanWriteIsolation(isolation)
  }

  predicate CanWrite(spec: Specification) {
    && IsWord(spec.name) && (spec.version.Some? ==> IsWord(spec.version.value))
    && (spec.subject.Some? ==> IsClean(spec.subject.value))
    && (forall s <- spec.scenarios :: CanWriteScenario(s))
    && (forall f <- spec.fixtures :: CanWriteFixture(f))
    && (forall m <- spec.mutations :: CanWriteMutation(m))
    && (spec.provenance.Some? ==> |spec.provenance.value.requirements| <= 1)
    && (spec.isolation.Some? ==> CanWriteIsolation(spec.isolation.value))
  }

  // ---------------------------------------------------------------------------
  // Lines

  function GivenLines(given: seq<string>): (r: seq<string>)
    ensures |r| == |given|
  {
    if given == [] then [] else [GivenText(given[0])] + GivenLines(given[1..])
  }

  function RequirementLines(requirements: seq<Requirement>): (r: seq<string>)
    ensures |r| == |requirements|
  {
    if requirements == [] then [] else [RequirementText(requirements[0])] + RequirementLines(requirements[1..])
  }

  function CaptureLines(captures: seq<CaptureClause>): (r: seq<string>)
    ensures |r| == |captures|
  {
    if captures == [] then [] else [CaptureText(captures[0])] + CaptureLines(captures[1..])
  }

  function BodyLines(fields: seq<BodyField>): (r: seq<string>)
    ensures |r| == |fields|
  {
    if fields == [] then [] else [BodyText(fields[0])] + BodyLines(fields[1..])
  }

  function RequestLines(request: Option<RequestClause>): seq<string> {
    if request.None? then [] else ["given body {"] + (BodyLines(request.value.body) + ["}"])
  }

  /** The one line of a clause that may be left out. */
  function Line<T>(x: Option<T>, text: T -> string): seq<string> { if x.None? then [] else [text(x.value)] }

  function SetupLines(u: SetupClause): seq<string> { ["setup " + Opening(u.name)] + SetupInside(u) }

  function SetupInside(u: SetupClause): seq<string> {
    RequestLines(u.request)
    + (Line(u.when_, WhenText) + (RequirementLines(u.requirements) + (CaptureLines(u.captures) + ["}"])))
  }

  function AllSetupLines(setups: seq<SetupClause>): seq<string> {
    if setups == [] then [] else SetupLines(setups[0]) + AllSetupLines(setups[1..])
  }

  function ScenarioInside(s: Scenario): seq<string> {
    GivenLines(s.given)
    + (Line(s.state, StateText)
       + (RequestLines(s.request)
          + (Line(s.when_, WhenText) + (AllSetupLines(s.setups) + (RequirementLines(s.requirements) + ["}"])))))
  }

  function MutationInside(m: MutationClause): seq<string> {
    Line(m.scenario, TargetText) + (Line(m.change, ChangeText) + (Line(m.expectedRule, RuleText) + ["}"]))
  }

  function FixtureInside(f: FixtureClause): seq<string> {
    Line(f.owner, (owner: FixtureOwner) => OWNER_TEXT)
    + (Line(f.purpose, PurposeText) + (Line(f.sha256, DigestText) + ["}"]))
  }

  function ProvenanceInside(p: ProvenanceClause): seq<string> {
    (if p.requirements == [] then [] else [EXECUTION_ID_TEXT]) + ["}"]
  }

  function IsolationInside(i: IsolationClause): seq<string> {
    Line(i.reset, (r: ResetClause) => ResetText(r.path)) + ["}"]
  }

  /** The lines of an item, its closing brace included. */
  function ItemLines(item: Item): seq<string> {
    match item
    case SubjectItem(subject) => ["subject " + Quoted(subject)]
    case ScenarioItem(scenario) => ["scenario " + Opening(scenario.name)] + ScenarioInside(scenario)
    case MutationItem(mutation) => ["mutation " + Opening(Quoted(mutation.id))] + MutationInside(mutation)
    case FixtureItem(fixture) => ["fixture " + Opening(Quoted(fixture.id))] + FixtureInside(fixture)
    case ProvenanceItem(provenance) => ["provenance {"] + ProvenanceInside(provenance)
    case IsolationItem(isolation) => ["isolation per scenario {"] + IsolationInside(isolation)
  }

  function AllItemLines(items: seq<Item>): seq<string> {
    if items == [] then [] else ItemLines(items[0]) + AllItemLines(items[1..])
  }

  function Items<T>(xs: seq<T>, item: T -> Item): (r: seq<Item>)
    ensures |r| == |xs| && forall i | 0 <= i < |xs| :: r[i] == item(xs[i])
  {
    if xs == [] then [] else [item(xs[0])] + Items(xs[1..], item)
  }

  function OptionalItem<T>(x: Option<T>, item: T -> Item): seq<Item> { if x.None? then [] else [item(x.value)] }

  /** What a specification says after its header, in the order of the documentation. */
  function ItemsOf(spec: Specification): seq<Item> {
    OptionalItem(spec.subject, (s: string) => SubjectItem(s))
    + (Items(spec.scenarios, (s: Scenario) => ScenarioItem(s))
       + (Items(spec.fixtures, (f: FixtureClause) => FixtureItem(f))
          + (Items(spec.mutations, (m: MutationClause) => MutationItem(m))
             + (OptionalItem(spec.provenance, (p: ProvenanceClause) => ProvenanceItem(p))
                + OptionalItem(spec.isolation, (i: IsolationClause) => IsolationItem(i))))))
  }

  function SpecLines(spec: Specification): seq<string> {
    [SpecText(spec.name, spec.version)] + (AllItemLines(ItemsOf(spec)) + ["}"])
  }

  /** Every line with its end. */
  function Join(lines: seq<string>): string { if lines == [] then "" else lines[0] + ("\n" + Join(lines[1..])) }

  /** The source text. */
  function SourceOf(spec: Specification): string { Join(SpecLines(spec)) }
}
