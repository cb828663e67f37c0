/** The intermediate representation, how a specification becomes one, and the JSON value it denotes. */
module Ir {
  import opened Text
  import opened Ast
  import opened LiteralRoundTrip
  import opened J = Json

  const IR_SCHEMA := "malcolm.ir/v1"

  // `WhenClause`, `CaptureClause`, `RequestClause` and `ResetClause` serve as their own IR.

  datatype RequirementIr = RequirementIr(kind: string, expression: string)

  datatype SetupIr = SetupIr(
    name: string,
    request: Option<RequestClause>,
    when_: WhenClause,
    requirements: seq<RequirementIr>,
    captures: seq<CaptureClause>)

  datatype ScenarioIr = ScenarioIr(
    name: string,
    given: seq<string>,
    state: Option<string>,
    request: Option<RequestClause>,
    when_: WhenClause,
    setups: seq<SetupIr>,
    requirements: seq<RequirementIr>)

  datatype MutationIr = MutationIr(id: string, scenario: string, change: MutationChange, expectedRule: string)

  datatype FixtureIr = FixtureIr(id: string, owner: string, purpose: string, sha256: string)

  datatype ProvenanceRequirementIr = ProvenanceRequirementIr(kind: string, field: string)

  datatype IsolationIr = IsolationIr(scope: string, reset: ResetClause)

  datatype SpecificationIr = SpecificationIr(
    name: string,
    version: Option<string>,
    subject: Option<string>,
    scenarios: seq<ScenarioIr>,
    fixtures: seq<FixtureIr>,
    mutations: seq<MutationIr>,
    provenance: Option<seq<ProvenanceRequirementIr>>,
    isolation: Option<IsolationIr>)

  datatype IntermediateRepresentation = IntermediateRepresentation(schema: string, specification: SpecificationIr)

  function Map<A, B>(xs: seq<A>, f: A -> B): (r: seq<B>)
    ensures |r| == |xs| && forall i | 0 <= i < |xs| :: r[i] == f(xs[i])
  {
    if xs == [] then [] else [f(xs[0])] + Map(xs[1..], f)
  }

  function MapOption<A, B>(x: Option<A>, f: A -> B): Option<B> {
    match x
    case None => None
    case Some(value) => Some(f(value))
  }

  // ---------------------------------------------------------------------------
  // `from_valid`: every `expect` of the compiler is a condition of `IsCompilable`

  predicate IsCompilable(spec: Specification) {
    && (forall s <- spec.scenarios :: s.when_.Some? && forall u <- s.setups :: u.when_.Some?)
    && (forall m <- spec.mutations :: m.change.Some? && m.scenario.Some? && m.expectedRule.Some?)
    && (forall f <- spec.fixtures :: f.owner.Some? && f.purpose.Some? && f.sha256.Some?)
    && (spec.isolation.Some? ==> spec.isolation.value.reset.Some?)
  }

  /** The value an `expect` finds, or a default that `IsCompilable` rules out. */
  function Expect<T>(x: Option<T>, default: T): T { if x.Some? then x.value else default }

  function RequirementFromAst(r: Requirement): RequirementIr {
    RequirementIr(match r.kind case Must => "must" case MustNot => "must_not", r.expression)
  }

  function SetupFromAst(s: SetupClause): SetupIr {
    SetupIr(s.name, s.request, Expect(s.when_, WhenClause("", "")), Map(s.requirements, RequirementFromAst), s.captures)
  }

  function ScenarioFromAst(s: Scenario): ScenarioIr {
    ScenarioIr(s.name, s.given, s.state, s.request, Expect(s.when_, WhenClause("", "")), Map(s.setups, SetupFromAst),
      Map(s.requirements, RequirementFromAst))
  }

  function MutationFromAst(m: MutationClause): MutationIr {
    MutationIr(m.id, Expect(m.scenario, ""), Expect(m.change, MutationChange("", 0, 0)), Expect(m.expectedRule, ""))
  }

  function FixtureFromAst(f: FixtureClause): FixtureIr {
    FixtureIr(f.id, match Expect(f.owner, Oracle) case Oracle => "oracle", Expect(f.purpose, ""), Expect(f.sha256, ""))
  }

  function ProvenanceRequirementFromAst(r: ProvenanceRequirement): ProvenanceRequirementIr {
    ProvenanceRequirementIr(match r.kind case Create => "create", match r.field case ExecutionId => "execution_id")
  }

  function ProvenanceFromAst(p: ProvenanceClause): seq<ProvenanceRequirementIr> {
    Map(p.requirements, ProvenanceRequirementFromAst)
  }

  function IsolationFromAst(i: IsolationClause): IsolationIr {
    IsolationIr(match i.scope case PerScenario => "scenario", Expect(i.reset, ResetClause("", "")))
  }

  function FromValid(spec: Specification): IntermediateRepresentation
    requires IsCompilable(spec)
  {
    IntermediateRepresentation(IR_SCHEMA, SpecificationIr(
      spec.name, spec.version, spec.subject,
      Map(spec.scenarios, ScenarioFromAst),
      Map(spec.fixtures, FixtureFromAst),
      Map(spec.mutations, MutationFromAst),
      MapOption(spec.provenance, ProvenanceFromAst),
      MapOption(spec.isolation, IsolationFromAst)))
  }

  // ---------------------------------------------------------------------------
  // The JSON value of an IR

  function Text_(value: string): Json { Str(value) }

  function OptionalText(value: Option<string>): Json { if value.Some? then Str(value.value) else Null }

  function Optional<T>(name: string, x: Option<T>, f: T -> Json): seq<Member> {
    if x.Some? then [Member(name, f(x.value))] else []
  }

  /** An array member that is left out when it is empty. */
  function NonEmpty<T>(name: string, xs: seq<T>, f: T -> Json): seq<Member> {
    if xs == [] then [] else [Member(name, Arr(Map(xs, f)))]
  }

  function WhenJson(w: WhenClause): Json { Obj([Member("method", Str(w.method_)), Member("path", Str(w.path))]) }

  function RequestJson(r: RequestClause): Json { Obj([Member("body", Obj(FieldsJson(r.body)))]) }

  function RequirementJson(r: RequirementIr): Json {
    Obj([Member("kind", Str(r.kind)), Member("expression", Str(r.expression))])
  }

  function CaptureJson(c: CaptureClause): Json {
    Obj([Member("name", Str(c.name)), Member("selector", Str(c.selector))])
  }

  function SetupJson(s: SetupIr): Json {
    Obj([Member("name", Str(s.name))]
      + Optional("request", s.request, RequestJson)
      + [Member("when", WhenJson(s.when_)),
         Member("requirements", Arr(Map(s.requirements, RequirementJson))),
         Member("captures", Arr(Map(s.captures, CaptureJson)))])
  }

  function ScenarioJson(s: ScenarioIr): Json {
    Obj([Member("name", Str(s.name)), Member("given", Arr(Map(s.given, Text_)))]
      + Optional("state", s.state, Text_)
      + Optional("request", s.request, RequestJson)
      + [Member("when", WhenJson(s.when_))]
      + NonEmpty("setups", s.setups, SetupJson)
      + [Member("requirements", Arr(Map(s.requirements, RequirementJson)))])
  }

  function ChangeJson(c: MutationChange): Json {
    Obj([Member("field", Str(c.field)), Member("from", Number(FormatInt(c.from))),
      Member("to", Number(FormatInt(c.to_)))])
  }

  function MutationJson(m: MutationIr): Json {
    Obj([Member("id", Str(m.id)), Member("scenario", Str(m.scenario)), Member("change", ChangeJson(m.change)),
      Member("expected_rule", Str(m.expectedRule))])
  }

  function FixtureJson(f: FixtureIr): Json {
    Obj([Member("id", Str(f.id)), Member("owner", Str(f.owner)), Member("purpose", Str(f.purpose)),
      Member("sha256", Str(f.sha256))])
  }

  function ProvenanceRequirementJson(r: ProvenanceRequirementIr): Json {
    Obj([Member("kind", Str(r.kind)), Member("field", Str(r.field))])
  }

  function ProvenanceJson(requirements: seq<ProvenanceRequirementIr>): Json {
    Obj([Member("requirements", Arr(Map(requirements, ProvenanceRequirementJson)))])
  }

  function ResetJson(r: ResetClause): Json { Obj([Member("method", Str(r.method_)), Member("path", Str(r.path))]) }

  function IsolationJson(i: IsolationIr): Json {
    Obj([Member("scope", Str(i.scope)), Member("reset", ResetJson(i.reset))])
  }

  function SpecificationJson(s: SpecificationIr): Json {
    Obj([Member("name", Str(s.name)), Member("version", OptionalText(s.version)),
      Member("subject", OptionalText(s.subject)),
         Member("scenarios", Arr(Map(s.scenarios, ScenarioJson)))]
      + NonEmpty("fixtures", s.fixtures, FixtureJson)
      + NonEmpty("mutations", s.mutations, MutationJson)
      + Optional("provenance", s.provenance, ProvenanceJson)
      + Optional("isolation", s.isolation, IsolationJson))
  }

  function IrJson(ir: IntermediateRepresentation): Json {
    Obj([Member("schema", Str(ir.schema)), Member("specification", SpecificationJson(ir.specification))])
  }

  // ---------------------------------------------------------------------------
  // Every number in it is an integer

  predicate AreIntegral(members: seq<Member>) { forall m <- members :: IsIntegral(m.value) }

  lemma OptionalIsIntegral<T>(name: string, x: Option<T>, f: T -> Json)
    requires x.Some? ==> IsIntegral(f(x.value))
    ensures AreIntegral(Optional(name, x, f))
  {
  }

  lemma ArrIsIntegral<T>(xs: seq<T>, f: T -> Json)
    requires forall x <- xs :: IsIntegral(f(x))
    ensures IsIntegral(Arr(Map(xs, f)))
  {
  }

  lemma NonEmptyIsIntegral<T>(name: string, xs: seq<T>, f: T -> Json)
    requires forall x <- xs :: IsIntegral(f(x))
    ensures AreIntegral(NonEmpty(name, xs, f))
  {
    ArrIsIntegral(xs, f);
  }

  lemma TextIsIntegral()
    ensures forall t: string :: IsIntegral(Str(t))
    ensures forall t: Option<string> :: IsIntegral(OptionalText(t))
  {
  }

  lemma ObjIsIntegral(members: seq<Member>)
    requires AreIntegral(members)
    ensures IsIntegral(Obj(members))
  {
  }

  lemma RequestIsIntegral(r: RequestClause)
    ensures IsIntegral(RequestJson(r))
  {
    LiteralIsIntegral(Object(r.body));
  }

  lemma WhenIsIntegral(w: WhenClause)
    ensures IsIntegral(WhenJson(w))
  {
  }

  lemma RequirementsAreIntegral(xs: seq<RequirementIr>)
    ensures IsIntegral(Arr(Map(xs, RequirementJson)))
  {
    ArrIsIntegral(xs, RequirementJson);
  }

  lemma CapturesAreIntegral(xs: seq<CaptureClause>)
    ensures IsIntegral(Arr(Map(xs, CaptureJson)))
  {
    ArrIsIntegral(xs, CaptureJson);
  }

  lemma SetupIsIntegral(s: SetupIr)
    ensures IsIntegral(SetupJson(s))
  {
    if s.request.Some? {
      RequestIsIntegral(s.request.value);
    }
    TextIsIntegral();
    OptionalIsIntegral("request", s.request, RequestJson);
    RequirementsAreIntegral(s.requirements);
    CapturesAreIntegral(s.captures);
    WhenIsIntegral(s.when_);
    hide RequestJson, WhenJson, Optional, RequirementJson, CaptureJson, Map, IsIntegral;
    ObjIsIntegral(SetupJson(s).members);
  }

  lemma ScenarioIsIntegral(s: ScenarioIr)
    ensures IsIntegral(ScenarioJson(s))
  {
    hide RequestJson, WhenJson, SetupJson, RequirementJson;
    if s.request.Some? {
      RequestIsIntegral(s.request.value);
    }
    forall u <- s.setups ensures IsIntegral(SetupJson(u)) {
      SetupIsIntegral(u);
    }
    TextIsIntegral();
    OptionalIsIntegral("state", s.state, Text_);
    OptionalIsIntegral("request", s.request, RequestJson);
    NonEmptyIsIntegral("setups", s.setups, SetupJson);
    ArrIsIntegral(s.given, Text_);
    RequirementsAreIntegral(s.requirements);
    WhenIsIntegral(s.when_);
    hide Optional, NonEmpty, Text_, Map, IsIntegral;
    ObjIsIntegral(ScenarioJson(s).members);
  }

  lemma MutationIsIntegral(m: MutationIr)
    ensures IsIntegral(MutationJson(m))
  {
    FormatIsIntegerLexeme(m.change.from);
    FormatIsIntegerLexeme(m.change.to_);
    assert IsIntegral(ChangeJson(m.change));
  }

  lemma FixtureIsIntegral(f: FixtureIr)
    ensures IsIntegral(FixtureJson(f))
  {
  }

  lemma ProvenanceIsIntegral(r: seq<ProvenanceRequirementIr>)
    ensures IsIntegral(ProvenanceJson(r))
  {
    ArrIsIntegral(r, ProvenanceRequirementJson);
  }

  lemma IsolationIsIntegral(i: IsolationIr)
    ensures IsIntegral(IsolationJson(i))
  {
    assert IsIntegral(ResetJson(i.reset));
  }

  lemma SpecificationIsIntegral(s: SpecificationIr)
    ensures IsIntegral(SpecificationJson(s))
  {
    hide ScenarioJson, MutationJson, FixtureJson, ProvenanceJson, IsolationJson;
    forall x <- s.scenarios ensures IsIntegral(ScenarioJson(x)) {
      ScenarioIsIntegral(x);
    }
    forall m <- s.mutations ensures IsIntegral(MutationJson(m)) {
      MutationIsIntegral(m);
    }
    forall f <- s.fixtures ensures IsIntegral(FixtureJson(f)) {
      FixtureIsIntegral(f);
    }
    if s.provenance.Some? {
      ProvenanceIsIntegral(s.provenance.value);
    }
    if s.isolation.Some? {
      IsolationIsIntegral(s.isolation.value);
    }
    TextIsIntegral();
    ArrIsIntegral(s.scenarios, ScenarioJson);
    NonEmptyIsIntegral("fixtures", s.fixtures, FixtureJson);
    NonEmptyIsIntegral("mutations", s.mutations, MutationJson);
    OptionalIsIntegral("provenance", s.provenance, ProvenanceJson);
    OptionalIsIntegral("isolation", s.isolation, IsolationJson);
    hide Optional, NonEmpty, Map, IsIntegral, OptionalText;
    ObjIsIntegral(SpecificationJson(s).members);
  }

  lemma IrIsIntegral(ir: IntermediateRepresentation)
    ensures IsIntegral(IrJson(ir))
  {
    SpecificationIsIntegral(ir.specification);
    hide SpecificationJson;
  }

  /** The printed IR is one well-formed JSON text, and it denotes the value above. */
  lemma PrintedIrReads(ir: IntermediateRepresentation)
    ensures ReadText(Render(IrJson(ir))) == Some(IrJson(ir))
  {
    IrIsIntegral(ir);
    ReadTextRendered(IrJson(ir));
  }
}
