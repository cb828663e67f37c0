/** The printed IR determines the specification, up to spelling a generator out as an object. */
module IrUnambiguous {
  import opened Text
  import opened Ast
  import opened LiteralRoundTrip
  import opened J = Json
  import opened Ir

  // ---------------------------------------------------------------------------
  // Lists of parts

  /** If equal images under `f` have equal images under `g`, element by element, then so do the lists. */
  lemma MapsAgree<A, B, C>(xs: seq<A>, ys: seq<A>, f: A -> B, g: A -> C)
    requires Map(xs, f) == Map(ys, f)
    requires forall x, y | x in xs && y in ys && f(x) == f(y) :: g(x) == g(y)
    ensures Map(xs, g) == Map(ys, g)
  {
    assert |xs| == |Map(xs, f)| == |ys|;
    forall i | 0 <= i < |xs|
      ensures Map(xs, g)[i] == Map(ys, g)[i]
    {
      assert f(xs[i]) == Map(xs, f)[i] == Map(ys, f)[i] == f(ys[i]);
      assert xs[i] in xs && ys[i] in ys;
    }
  }

  lemma MapInjective<A, B>(xs: seq<A>, ys: seq<A>, f: A -> B)
    requires Map(xs, f) == Map(ys, f)
    requires forall x, y | x in xs && y in ys && f(x) == f(y) :: x == y
    ensures xs == ys
  {
    assert |xs| == |Map(xs, f)| == |ys|;
    forall i | 0 <= i < |xs|
      ensures xs[i] == ys[i]
    {
      assert f(xs[i]) == Map(xs, f)[i] == Map(ys, f)[i] == f(ys[i]);
      assert xs[i] in xs && ys[i] in ys;
    }
  }

  // ---------------------------------------------------------------------------
  // Object members that may be absent

  predicate Lacks(name: string, members: seq<Member>) { members == [] || members[0].name != name }

  /** Whether an optional member was written can be told from the member after it. */
  lemma SplitOptional<T>(name: string, x: Option<T>, y: Option<T>, f: T -> Json, restX: seq<Member>, restY: seq<Member>)
    requires Optional(name, x, f) + restX == Optional(name, y, f) + restY
    requires Lacks(name, restX) && Lacks(name, restY)
    ensures x.Some? == y.Some? && (x.Some? ==> f(x.value) == f(y.value)) && restX == restY
  {
    var mx, my := Optional(name, x, f), Optional(name, y, f);
    assert x.Some? ==> (mx + restX)[0] == mx[0] && (mx + restX)[1..] == restX;
    assert y.Some? ==> (my + restY)[0] == my[0] && (my + restY)[1..] == restY;
    assert x.None? ==> mx + restX == restX;
    assert y.None? ==> my + restY == restY;
  }

  function NonEmptyOption<T>(xs: seq<T>): Option<seq<T>> { if xs == [] then None else Some(xs) }

  lemma SplitNonEmpty<T>(name: string, xs: seq<T>, ys: seq<T>, f: T -> Json, restX: seq<Member>, restY: seq<Member>)
    requires NonEmpty(name, xs, f) + restX == NonEmpty(name, ys, f) + restY
    requires Lacks(name, restX) && Lacks(name, restY)
    ensures Map(xs, f) == Map(ys, f) && restX == restY
  {
    var g := (zs: seq<T>) => Arr(Map(zs, f));
    assert NonEmpty(name, xs, f) == Optional(name, NonEmptyOption(xs), g);
    assert NonEmpty(name, ys, f) == Optional(name, NonEmptyOption(ys), g);
    SplitOptional(name, NonEmptyOption(xs), NonEmptyOption(ys), g, restX, restY);
  }

  lemma SplitHead(x: seq<Member>, y: seq<Member>, restX: seq<Member>, restY: seq<Member>)
    requires x + restX == y + restY && |x| == |y|
    ensures x == y && restX == restY
  {
    assert x == (x + restX)[..|x|] && restX == (x + restX)[|x|..];
    assert y == (y + restY)[..|y|] && restY == (y + restY)[|y|..];
  }

  // ---------------------------------------------------------------------------
  // Normal forms: every generator in a request body spelled out

  function NormaliseRequest(r: RequestClause): RequestClause { RequestClause(NormaliseFields(r.body)) }

  function NormaliseSetup(s: SetupIr): SetupIr { s.(request := MapOption(s.request, NormaliseRequest)) }

  function NormaliseScenario(s: ScenarioIr): ScenarioIr {
    s.(request := MapOption(s.request, NormaliseRequest), setups := Map(s.setups, NormaliseSetup))
  }

  function NormaliseIr(ir: IntermediateRepresentation): IntermediateRepresentation {
    ir.(specification := ir.specification.(scenarios := Map(ir.specification.scenarios, NormaliseScenario)))
  }

  // ---------------------------------------------------------------------------
  // Equal JSON values come from equal normal forms

  lemma RequestsAgree(x: RequestClause, y: RequestClause)
    ensures RequestJson(x) == RequestJson(y) <==> NormaliseRequest(x) == NormaliseRequest(y)
  {
    NormaliseKeepsFields(x.body);
    NormaliseKeepsFields(y.body);
    if RequestJson(x) == RequestJson(y) {
      assert RequestJson(x).members[0] == RequestJson(y).members[0];
      PlainFieldsInjective(NormaliseFields(x.body), NormaliseFields(y.body));
    }
  }

  lemma OptionalRequestsAgree(x: Option<RequestClause>, y: Option<RequestClause>)
    requires x.Some? == y.Some? && (x.Some? ==> RequestJson(x.value) == RequestJson(y.value))
    ensures MapOption(x, NormaliseRequest) == MapOption(y, NormaliseRequest)
  {
    if x.Some? {
      RequestsAgree(x.value, y.value);
    }
  }

  lemma WhenInjective(x: WhenClause, y: WhenClause)
    requires WhenJson(x) == WhenJson(y)
    ensures x == y
  {
    assert WhenJson(x).members[0] == WhenJson(y).members[0] && WhenJson(x).members[1] == WhenJson(y).members[1];
  }

  lemma RequirementsInjective(xs: seq<RequirementIr>, ys: seq<RequirementIr>)
    requires Map(xs, RequirementJson) == Map(ys, RequirementJson)
    ensures xs == ys
  {
    forall x, y | x in xs && y in ys && RequirementJson(x) == RequirementJson(y) ensures x == y {
      assert RequirementJson(x).members[0] == RequirementJson(y).members[0];
      assert RequirementJson(x).members[1] == RequirementJson(y).members[1];
    }
    MapInjective(xs, ys, RequirementJson);
  }

  lemma CapturesInjective(xs: seq<CaptureClause>, ys: seq<CaptureClause>)
    requires Map(xs, CaptureJson) == Map(ys, CaptureJson)
    ensures xs == ys
  {
    forall x, y | x in xs && y in ys && CaptureJson(x) == CaptureJson(y) ensures x == y {
      assert CaptureJson(x).members[0] == CaptureJson(y).members[0];
      assert CaptureJson(x).members[1] == CaptureJson(y).members[1];
    }
    MapInjective(xs, ys, CaptureJson);
  }

  lemma TextsInjective(xs: seq<string>, ys: seq<string>)
    requires Map(xs, Text_) == Map(ys, Text_)
    ensures xs == ys
  {
    MapInjective(xs, ys, Text_);
  }

  /** The members of a setup after its optional request. */
  function SetupTail(s: SetupIr): seq<Member> {
    [Member("when", WhenJson(s.when_)),
     Member("requirements", Arr(Map(s.requirements, RequirementJson))),
     Member("captures", Arr(Map(s.captures, CaptureJson)))]
  }

  lemma SetupTailInjective(x: SetupIr, y: SetupIr)
    requires SetupTail(x) == SetupTail(y)
    ensures x.when_ == y.when_ && x.requirements == y.requirements && x.captures == y.captures
  {
    var mx, my := SetupTail(x), SetupTail(y);
    assert mx[0] == my[0] && mx[1] == my[1] && mx[2] == my[2];
    WhenInjective(x.when_, y.when_);
    RequirementsInjective(x.requirements, y.requirements);
    CapturesInjective(x.captures, y.captures);
  }

  lemma SetupsAgree(x: SetupIr, y: SetupIr)
    requires SetupJson(x) == SetupJson(y)
    ensures NormaliseSetup(x) == NormaliseSetup(y)
  {
    hide RequestJson, WhenJson, RequirementJson, CaptureJson, Map, Optional;
    var nx, ny := [Member("name", Str(x.name))], [Member("name", Str(y.name))];
    var ox, oy := Optional("request", x.request, RequestJson), Optional("request", y.request, RequestJson);
    assert SetupJson(x).members == nx + (ox + SetupTail(x)) by {
      Associate(nx, ox, SetupTail(x));
    }
    assert SetupJson(y).members == ny + (oy + SetupTail(y)) by {
      Associate(ny, oy, SetupTail(y));
    }
    SplitHead(nx, ny, ox + SetupTail(x), oy + SetupTail(y));
    assert nx[0] == ny[0];
    SplitOptional("request", x.request, y.request, RequestJson, SetupTail(x), SetupTail(y));
    OptionalRequestsAgree(x.request, y.request);
    SetupTailInjective(x, y);
  }

  lemma Associate(a: seq<Member>, b: seq<Member>, c: seq<Member>)
    ensures a + b + c == a + (b + c)
  {
  }

  // A scenario's members, from each optional one on

  function ScenarioTail3(s: ScenarioIr): seq<Member> {
    [Member("requirements", Arr(Map(s.requirements, RequirementJson)))]
  }

  function ScenarioTail2(s: ScenarioIr): seq<Member> {
    [Member("when", WhenJson(s.when_))] + (NonEmpty("setups", s.setups, SetupJson) + ScenarioTail3(s))
  }

  function ScenarioTail1(s: ScenarioIr): seq<Member> {
    Optional("request", s.request, RequestJson) + ScenarioTail2(s)
  }

  function ScenarioHead(s: ScenarioIr): seq<Member> {
    [Member("name", Str(s.name)), Member("given", Arr(Map(s.given, Text_)))]
  }

  lemma ScenarioMembers(s: ScenarioIr)
    ensures ScenarioJson(s).members == ScenarioHead(s) + (Optional("state", s.state, Text_) + ScenarioTail1(s))
  {
    hide RequestJson, WhenJson, RequirementJson, Map, Optional, NonEmpty, SetupJson, Text_;
    AssociateSix(ScenarioHead(s), Optional("state", s.state, Text_), Optional("request", s.request, RequestJson),
      [Member("when", WhenJson(s.when_))], NonEmpty("setups", s.setups, SetupJson), ScenarioTail3(s));
  }

  lemma AssociateSix(
      a: seq<Member>, b: seq<Member>, c: seq<Member>, d: seq<Member>, e: seq<Member>, f: seq<Member>)
    ensures a + b + c + d + e + f == a + (b + (c + (d + (e + f))))
  {
    Associate(a + b + c + d, e, f);
    Associate(a + b + c, d, e + f);
    Associate(a + b, c, d + (e + f));
    Associate(a, b, c + (d + (e + f)));
  }

  lemma ScenarioTailsLack(s: ScenarioIr)
    ensures Lacks("state", ScenarioTail1(s)) && Lacks("request", ScenarioTail2(s)) && Lacks("setups", ScenarioTail3(s))
  {
    hide RequestJson, WhenJson, RequirementJson, Map, NonEmpty, SetupJson;
  }

  lemma ScenarioTail2Agree(x: ScenarioIr, y: ScenarioIr)
    requires ScenarioTail2(x) == ScenarioTail2(y)
    ensures x.when_ == y.when_ && x.requirements == y.requirements
    ensures Map(x.setups, NormaliseSetup) == Map(y.setups, NormaliseSetup)
  {
    hide RequestJson, WhenJson, RequirementJson, Map, Optional, NonEmpty, SetupJson, NormaliseSetup;
    var wx, wy := [Member("when", WhenJson(x.when_))], [Member("when", WhenJson(y.when_))];
    SplitHead(wx, wy, NonEmpty("setups", x.setups, SetupJson) + ScenarioTail3(x),
      NonEmpty("setups", y.setups, SetupJson) + ScenarioTail3(y));
    assert wx[0] == wy[0];
    WhenInjective(x.when_, y.when_);
    ScenarioTailsLack(x);
    ScenarioTailsLack(y);
    SplitNonEmpty("setups", x.setups, y.setups, SetupJson, ScenarioTail3(x), ScenarioTail3(y));
    assert ScenarioTail3(x)[0] == ScenarioTail3(y)[0];
    RequirementsInjective(x.requirements, y.requirements);
    forall u, v | u in x.setups && v in y.setups && SetupJson(u) == SetupJson(v)
      ensures NormaliseSetup(u) == NormaliseSetup(v)
    {
      SetupsAgree(u, v);
    }
    MapsAgree(x.setups, y.setups, SetupJson, NormaliseSetup);
  }

  lemma ScenariosAgree(x: ScenarioIr, y: ScenarioIr)
    requires ScenarioJson(x) == ScenarioJson(y)
    ensures NormaliseScenario(x) == NormaliseScenario(y)
  {
    ScenarioMembers(x);
    ScenarioMembers(y);
    ScenarioTailsLack(x);
    ScenarioTailsLack(y);
    hide RequestJson, ScenarioJson, Map, Optional, NonEmpty, SetupJson, NormaliseSetup, ScenarioTail2;
    SplitHead(ScenarioHead(x), ScenarioHead(y), Optional("state", x.state, Text_) + ScenarioTail1(x),
      Optional("state", y.state, Text_) + ScenarioTail1(y));
    assert ScenarioHead(x)[0] == ScenarioHead(y)[0] && ScenarioHead(x)[1] == ScenarioHead(y)[1];
    TextsInjective(x.given, y.given);
    SplitOptional("state", x.state, y.state, Text_, ScenarioTail1(x), ScenarioTail1(y));
    SplitOptional("request", x.request, y.request, RequestJson, ScenarioTail2(x), ScenarioTail2(y));
    OptionalRequestsAgree(x.request, y.request);
    ScenarioTail2Agree(x, y);
  }

  // The remaining parts hold no request

  lemma ChangeInjective(x: MutationChange, y: MutationChange)
    requires ChangeJson(x) == ChangeJson(y)
    ensures x == y
  {
    var mx, my := ChangeJson(x).members, ChangeJson(y).members;
    assert mx[0] == my[0] && mx[1] == my[1] && mx[2] == my[2];
    FormatIntInjective(x.from, y.from);
    FormatIntInjective(x.to_, y.to_);
  }

  lemma MutationsInjective(xs: seq<MutationIr>, ys: seq<MutationIr>)
    requires Map(xs, MutationJson) == Map(ys, MutationJson)
    ensures xs == ys
  {
    forall x, y | x in xs && y in ys && MutationJson(x) == MutationJson(y) ensures x == y {
      var mx, my := MutationJson(x).members, MutationJson(y).members;
      assert mx[0] == my[0] && mx[1] == my[1] && mx[2] == my[2] && mx[3] == my[3];
      ChangeInjective(x.change, y.change);
    }
    MapInjective(xs, ys, MutationJson);
  }

  lemma FixturesInjective(xs: seq<FixtureIr>, ys: seq<FixtureIr>)
    requires Map(xs, FixtureJson) == Map(ys, FixtureJson)
    ensures xs == ys
  {
    forall x, y | x in xs && y in ys && FixtureJson(x) == FixtureJson(y) ensures x == y {
      var mx, my := FixtureJson(x).members, FixtureJson(y).members;
      assert mx[0] == my[0] && mx[1] == my[1] && mx[2] == my[2] && mx[3] == my[3];
    }
    MapInjective(xs, ys, FixtureJson);
  }

  lemma ProvenanceInjective(xs: seq<ProvenanceRequirementIr>, ys: seq<ProvenanceRequirementIr>)
    requires ProvenanceJson(xs) == ProvenanceJson(ys)
    ensures xs == ys
  {
    assert ProvenanceJson(xs).members[0] == ProvenanceJson(ys).members[0];
    forall x, y | x in xs && y in ys && ProvenanceRequirementJson(x) == ProvenanceRequirementJson(y) ensures x == y {
      var mx, my := ProvenanceRequirementJson(x).members, ProvenanceRequirementJson(y).members;
      assert mx[0] == my[0] && mx[1] == my[1];
    }
    MapInjective(xs, ys, ProvenanceRequirementJson);
  }

  lemma IsolationInjective(x: IsolationIr, y: IsolationIr)
    requires IsolationJson(x) == IsolationJson(y)
    ensures x == y
  {
    var mx, my := IsolationJson(x).members, IsolationJson(y).members;
    assert mx[0] == my[0] && mx[1] == my[1];
    var rx, ry := ResetJson(x.reset).members, ResetJson(y.reset).members;
    assert rx[0] == ry[0] && rx[1] == ry[1];
  }

  // The members of the specification object, from each optional one on

  function SpecificationHead(s: SpecificationIr): seq<Member> {
    [Member("name", Str(s.name)), Member("version", OptionalText(s.version)),
      Member("subject", OptionalText(s.subject)),
     Member("scenarios", Arr(Map(s.scenarios, ScenarioJson)))]
  }

  function SpecificationTail3(s: SpecificationIr): seq<Member> { Optional("isolation", s.isolation, IsolationJson) }

  function SpecificationTail2(s: SpecificationIr): seq<Member> {
    Optional("provenance", s.provenance, ProvenanceJson) + SpecificationTail3(s)
  }

  function SpecificationTail1(s: SpecificationIr): seq<Member> {
    NonEmpty("mutations", s.mutations, MutationJson) + SpecificationTail2(s)
  }

  lemma SpecificationMembers(s: SpecificationIr)
    ensures SpecificationJson(s).members
         == SpecificationHead(s) + (NonEmpty("fixtures", s.fixtures, FixtureJson) + SpecificationTail1(s))
  {
    hide OptionalText, Map, Optional, NonEmpty, ScenarioJson, FixtureJson, MutationJson, ProvenanceJson, IsolationJson;
    var a, b, c := SpecificationHead(s), NonEmpty("fixtures", s.fixtures, FixtureJson),
      NonEmpty("mutations", s.mutations, MutationJson);
    var d := Optional("provenance", s.provenance, ProvenanceJson);
    AssociateSix(a, b, c, d, SpecificationTail3(s), []);
    assert SpecificationTail3(s) + [] == SpecificationTail3(s);
    assert a + b + c + d + SpecificationTail3(s) + [] == a + b + c + d + SpecificationTail3(s);
  }

  lemma SpecificationTailsLack(s: SpecificationIr)
    ensures Lacks("fixtures", SpecificationTail1(s)) && Lacks("mutations", SpecificationTail2(s))
    ensures Lacks("provenance", SpecificationTail3(s))
  {
    hide MutationJson, ProvenanceJson, IsolationJson, Map;
  }

  lemma SpecificationTail1Agree(x: SpecificationIr, y: SpecificationIr)
    requires SpecificationTail1(x) == SpecificationTail1(y)
    ensures x.mutations == y.mutations && x.provenance == y.provenance && x.isolation == y.isolation
  {
    SpecificationTailsLack(x);
    SpecificationTailsLack(y);
    hide MutationJson, ProvenanceJson, IsolationJson, Map, Optional, NonEmpty;
    SplitNonEmpty("mutations", x.mutations, y.mutations, MutationJson, SpecificationTail2(x), SpecificationTail2(y));
    MutationsInjective(x.mutations, y.mutations);
    SplitOptional("provenance", x.provenance, y.provenance, ProvenanceJson, SpecificationTail3(x),
      SpecificationTail3(y));
    if x.provenance.Some? {
      ProvenanceInjective(x.provenance.value, y.provenance.value);
    }
    assert SpecificationTail3(x) + [] == SpecificationTail3(x) && SpecificationTail3(y) + [] == SpecificationTail3(y);
    SplitOptional("isolation", x.isolation, y.isolation, IsolationJson, [], []);
    if x.isolation.Some? {
      IsolationInjective(x.isolation.value, y.isolation.value);
    }
  }

  lemma SpecificationHeadAgree(x: SpecificationIr, y: SpecificationIr)
    requires SpecificationHead(x) == SpecificationHead(y)
    ensures x.name == y.name && x.version == y.version && x.subject == y.subject
    ensures Map(x.scenarios, NormaliseScenario) == Map(y.scenarios, NormaliseScenario)
  {
    hide ScenarioJson, Map, NormaliseScenario;
    var mx, my := SpecificationHead(x), SpecificationHead(y);
    assert mx[0] == my[0] && mx[1] == my[1] && mx[2] == my[2] && mx[3] == my[3];
    forall u, v | u in x.scenarios && v in y.scenarios && ScenarioJson(u) == ScenarioJson(v)
      ensures NormaliseScenario(u) == NormaliseScenario(v)
    {
      ScenariosAgree(u, v);
    }
    MapsAgree(x.scenarios, y.scenarios, ScenarioJson, NormaliseScenario);
  }

  lemma SpecificationsAgree(x: SpecificationIr, y: SpecificationIr)
    requires SpecificationJson(x) == SpecificationJson(y)
    ensures x.(scenarios := Map(x.scenarios, NormaliseScenario)) == y.(scenarios := Map(y.scenarios, NormaliseScenario))
  {
    SpecificationMembers(x);
    SpecificationMembers(y);
    SpecificationTailsLack(x);
    SpecificationTailsLack(y);
    hide SpecificationJson, SpecificationHead, SpecificationTail1, NonEmpty, Map;
    SplitSpecification(x, y);
    SpecificationHeadAgree(x, y);
    SplitNonEmpty("fixtures", x.fixtures, y.fixtures, FixtureJson, SpecificationTail1(x), SpecificationTail1(y));
    FixturesInjective(x.fixtures, y.fixtures);
    SpecificationTail1Agree(x, y);
  }

  lemma SplitSpecification(x: SpecificationIr, y: SpecificationIr)
    requires SpecificationHead(x) + (NonEmpty("fixtures", x.fixtures, FixtureJson) + SpecificationTail1(x))
          == SpecificationHead(y) + (NonEmpty("fixtures", y.fixtures, FixtureJson) + SpecificationTail1(y))
    ensures SpecificationHead(x) == SpecificationHead(y)
    ensures NonEmpty("fixtures", x.fixtures, FixtureJson) + SpecificationTail1(x)
         == NonEmpty("fixtures", y.fixtures, FixtureJson) + SpecificationTail1(y)
  {
    hide NonEmpty, SpecificationTail1, Map, OptionalText;
    SplitHead(SpecificationHead(x), SpecificationHead(y), NonEmpty("fixtures", x.fixtures, FixtureJson)
      + SpecificationTail1(x),
      NonEmpty("fixtures", y.fixtures, FixtureJson) + SpecificationTail1(y));
  }

  // ---------------------------------------------------------------------------
  // Normal forms print the same text

  lemma NormalSetupPrintsTheSame(s: SetupIr)
    ensures SetupJson(NormaliseSetup(s)) == SetupJson(s)
  {
    if s.request.Some? {
      NormaliseKeepsFields(s.request.value.body);
      assert RequestJson(NormaliseRequest(s.request.value)) == RequestJson(s.request.value);
    }
    hide Map, WhenJson, RequestJson, RequirementJson, CaptureJson;
  }

  lemma NormalScenarioPrintsTheSame(s: ScenarioIr)
    ensures ScenarioJson(NormaliseScenario(s)) == ScenarioJson(s)
  {
    if s.request.Some? {
      NormaliseKeepsFields(s.request.value.body);
      assert RequestJson(NormaliseRequest(s.request.value)) == RequestJson(s.request.value);
    }
    forall u <- s.setups ensures SetupJson(NormaliseSetup(u)) == SetupJson(u) {
      NormalSetupPrintsTheSame(u);
    }
    MapAfterMap(s.setups, NormaliseSetup, SetupJson);
    hide Map, WhenJson, RequestJson, RequirementJson, SetupJson, Text_;
  }

  lemma MapAfterMap<A, B>(xs: seq<A>, g: A -> A, f: A -> B)
    requires forall x <- xs :: f(g(x)) == f(x)
    ensures Map(Map(xs, g), f) == Map(xs, f)
  {
    forall i | 0 <= i < |xs| ensures Map(Map(xs, g), f)[i] == Map(xs, f)[i] {
      assert xs[i] in xs && Map(xs, g)[i] == g(xs[i]);
    }
  }

  lemma NormalIrPrintsTheSame(ir: IntermediateRepresentation)
    ensures IrJson(NormaliseIr(ir)) == IrJson(ir)
  {
    var scenarios := ir.specification.scenarios;
    forall s <- scenarios ensures ScenarioJson(NormaliseScenario(s)) == ScenarioJson(s) {
      NormalScenarioPrintsTheSame(s);
    }
    hide ScenarioJson, NormaliseScenario;
    MapAfterMap(scenarios, NormaliseScenario, ScenarioJson);
    hide Map, Optional, NonEmpty;
  }

  /** Two IRs print the same text exactly when they differ at most in the spelling of generators. */
  lemma SameIrTextIffSameNormalForm(x: IntermediateRepresentation, y: IntermediateRepresentation)
    ensures Render(IrJson(x)) == Render(IrJson(y)) <==> NormaliseIr(x) == NormaliseIr(y)
  {
    NormalIrPrintsTheSame(x);
    NormalIrPrintsTheSame(y);
    hide Render, SpecificationJson, Map;
    if Render(IrJson(x)) == Render(IrJson(y)) {
      IrIsIntegral(x);
      IrIsIntegral(y);
      RenderInjective(IrJson(x), IrJson(y));
      assert IrJson(x).members[0] == IrJson(y).members[0] && IrJson(x).members[1] == IrJson(y).members[1];
      SpecificationsAgree(x.specification, y.specification);
    }
  }

  // ---------------------------------------------------------------------------
  // With `generated` reserved, the text determines the specification

  predicate UnreservedRequest(r: Option<RequestClause>) { r.Some? ==> IsUnreservedFields(r.value.body) }

  /** No body field at any depth is called `generated`. */
  predicate IsUnreservedSpecification(spec: Specification) {
    forall s <- spec.scenarios ::
      UnreservedRequest(s.request) && forall u <- s.setups :: UnreservedRequest(u.request)
  }

  lemma NormaliseRequestInjective(x: Option<RequestClause>, y: Option<RequestClause>)
    requires UnreservedRequest(x) && UnreservedRequest(y)
    requires MapOption(x, NormaliseRequest) == MapOption(y, NormaliseRequest)
    ensures x == y
  {
    if x.Some? && y.Some? {
      NormaliseFieldsInjective(x.value.body, y.value.body);
    }
  }

  predicate IsCompilableSetup(u: SetupClause) { u.when_.Some? && UnreservedRequest(u.request) }

  predicate IsCompilableScenario(s: Scenario) {
    s.when_.Some? && UnreservedRequest(s.request) && forall u <- s.setups :: IsCompilableSetup(u)
  }

  lemma RequirementsFromAstInjective(xs: seq<Requirement>, ys: seq<Requirement>)
    requires Map(xs, RequirementFromAst) == Map(ys, RequirementFromAst)
    ensures xs == ys
  {
    forall x, y | x in xs && y in ys && RequirementFromAst(x) == RequirementFromAst(y) ensures x == y {
      assert |RequirementFromAst(x).kind| == |RequirementFromAst(y).kind|;
    }
    MapInjective(xs, ys, RequirementFromAst);
  }

  lemma SetupsFromAstInjective(x: SetupClause, y: SetupClause)
    requires IsCompilableSetup(x) && IsCompilableSetup(y)
    requires NormaliseSetup(SetupFromAst(x)) == NormaliseSetup(SetupFromAst(y))
    ensures x == y
  {
    hide Map;
    NormaliseRequestInjective(x.request, y.request);
    RequirementsFromAstInjective(x.requirements, y.requirements);
  }

  /** What a list of parts maps to in two steps determines it, if what each part maps to does. */
  lemma TwoMapsInjective<A, B>(xs: seq<A>, ys: seq<A>, f: A -> B, g: B -> B)
    requires Map(Map(xs, f), g) == Map(Map(ys, f), g)
    requires forall x, y | x in xs && y in ys && g(f(x)) == g(f(y)) :: x == y
    ensures xs == ys
  {
    assert |xs| == |Map(Map(xs, f), g)| == |ys|;
    forall i | 0 <= i < |xs| ensures xs[i] == ys[i] {
      assert Map(xs, f)[i] == f(xs[i]) && Map(ys, f)[i] == f(ys[i]);
      assert Map(Map(xs, f), g)[i] == g(Map(xs, f)[i]) && Map(Map(ys, f), g)[i] == g(Map(ys, f)[i]);
      assert xs[i] in xs && ys[i] in ys;
    }
  }

  lemma ScenariosFromAstInjective(x: Scenario, y: Scenario)
    requires IsCompilableScenario(x) && IsCompilableScenario(y)
    requires NormaliseScenario(ScenarioFromAst(x)) == NormaliseScenario(ScenarioFromAst(y))
    ensures x == y
  {
    hide Map;
    NormaliseRequestInjective(x.request, y.request);
    RequirementsFromAstInjective(x.requirements, y.requirements);
    forall u, v | u in x.setups && v in y.setups && NormaliseSetup(SetupFromAst(u)) == NormaliseSetup(SetupFromAst(v))
      ensures u == v
    {
      SetupsFromAstInjective(u, v);
    }
    TwoMapsInjective(x.setups, y.setups, SetupFromAst, NormaliseSetup);
  }

  lemma FixturesFromAstInjective(xs: seq<FixtureClause>, ys: seq<FixtureClause>)
    requires forall f | f in xs || f in ys :: f.owner.Some? && f.purpose.Some? && f.sha256.Some?
    requires Map(xs, FixtureFromAst) == Map(ys, FixtureFromAst)
    ensures xs == ys
  {
    forall x, y | x in xs && y in ys && FixtureFromAst(x) == FixtureFromAst(y) ensures x == y {
      assert x.owner.value.Oracle? && y.owner.value.Oracle?;
    }
    MapInjective(xs, ys, FixtureFromAst);
  }

  lemma MutationsFromAstInjective(xs: seq<MutationClause>, ys: seq<MutationClause>)
    requires forall m | m in xs || m in ys :: m.change.Some? && m.scenario.Some? && m.expectedRule.Some?
    requires Map(xs, MutationFromAst) == Map(ys, MutationFromAst)
    ensures xs == ys
  {
    forall x, y | x in xs && y in ys && MutationFromAst(x) == MutationFromAst(y) ensures x == y {
    }
    MapInjective(xs, ys, MutationFromAst);
  }

  lemma ProvenanceFromAstInjective(x: ProvenanceClause, y: ProvenanceClause)
    requires ProvenanceFromAst(x) == ProvenanceFromAst(y)
    ensures x == y
  {
    forall p, q | p in x.requirements && q in y.requirements
      && ProvenanceRequirementFromAst(p) == ProvenanceRequirementFromAst(q)
      ensures p == q
    {
      assert p.kind.Create? && q.kind.Create? && p.field.ExecutionId? && q.field.ExecutionId?;
    }
    MapInjective(x.requirements, y.requirements, ProvenanceRequirementFromAst);
  }

  lemma IsolationFromAstInjective(x: IsolationClause, y: IsolationClause)
    requires x.reset.Some? && y.reset.Some? && IsolationFromAst(x) == IsolationFromAst(y)
    ensures x == y
  {
    assert x.scope.PerScenario? && y.scope.PerScenario?;
  }

  lemma SpecificationPartsEqual(a: Specification, b: Specification)
    requires IsCompilable(a) && IsCompilable(b)
    requires NormaliseIr(FromValid(a)) == NormaliseIr(FromValid(b))
    ensures a.(scenarios := []) == b.(scenarios := [])
  {
    hide Map, NormaliseScenario, ScenarioFromAst, FixtureFromAst, MutationFromAst, ProvenanceFromAst, IsolationFromAst;
    FixturesFromAstInjective(a.fixtures, b.fixtures);
    MutationsFromAstInjective(a.mutations, b.mutations);
    if a.provenance.Some? && b.provenance.Some? {
      ProvenanceFromAstInjective(a.provenance.value, b.provenance.value);
    }
    if a.isolation.Some? && b.isolation.Some? {
      IsolationFromAstInjective(a.isolation.value, b.isolation.value);
    }
  }

  lemma SpecificationScenariosEqual(a: Specification, b: Specification)
    requires IsCompilable(a) && IsCompilable(b)
    requires IsUnreservedSpecification(a) && IsUnreservedSpecification(b)
    requires NormaliseIr(FromValid(a)) == NormaliseIr(FromValid(b))
    ensures a.scenarios == b.scenarios
  {
    hide Map, NormaliseScenario, ScenarioFromAst;
    var x, y := FromValid(a).specification, FromValid(b).specification;
    assert NormaliseIr(FromValid(a)).specification.scenarios == NormaliseIr(FromValid(b)).specification.scenarios;
    forall s, t | s in a.scenarios && t in b.scenarios
      && NormaliseScenario(ScenarioFromAst(s)) == NormaliseScenario(ScenarioFromAst(t))
      ensures s == t
    {
      ScenariosFromAstInjective(s, t);
    }
    TwoMapsInjective(a.scenarios, b.scenarios, ScenarioFromAst, NormaliseScenario);
  }

  /** Two specifications that compile, use no field called `generated`, and print the same text are equal. */
  lemma PrintedTextDeterminesSpecification(a: Specification, b: Specification)
    requires IsCompilable(a) && IsCompilable(b)
    requires IsUnreservedSpecification(a) && IsUnreservedSpecification(b)
    requires Render(IrJson(FromValid(a))) == Render(IrJson(FromValid(b)))
    ensures a == b
  {
    SameIrTextIffSameNormalForm(FromValid(a), FromValid(b));
    hide FromValid, NormaliseIr, Render, IrJson;
    SpecificationPartsEqual(a, b);
    SpecificationScenariosEqual(a, b);
  }
}
