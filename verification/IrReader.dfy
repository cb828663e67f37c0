/** A reader of the intermediate representation: it looks the documented keys up by name, and goes back to the
specification that was compiled. */
module IrReader {
  import opened Text
  import opened Ast
  import opened LiteralRoundTrip
  import opened J = Json
  import opened Ir
  import opened IrUnambiguous

  // ---------------------------------------------------------------------------
  // Members by name

  function Find(members: seq<Member>, name: string): Option<Json> {
    if members == [] then None
    else if members[0].name == name then Some(members[0].value)
    else Find(members[1..], name)
  }

  function Get(j: Json, name: string): Option<Json> { if j.Obj? then Find(j.members, name) else None }

  function ReadStr(j: Json): Option<string> { if j.Str? then Some(j.text) else None }

  function ReadI64(j: Json): Option<I64> {
    if !j.Number? then None
    else match ParseI64(j.lexeme)
      case None => None
      case Some(n) => Some(n)
  }

  function ReadStrOrNull(j: Json): Option<Option<string>> {
    match j
    case Null => Some(None)
    case Str(text) => Some(Some(text))
    case _ => None
  }

  function ReadAll<T>(items: seq<Json>, read: Json -> Option<T>): Option<seq<T>> {
    if items == [] then Some([])
    else
      var first :- read(items[0]);
      var rest :- ReadAll(items[1..], read);
      Some([first] + rest)
  }

  function ReadList<T>(j: Json, read: Json -> Option<T>): Option<seq<T>> {
    if j.Arr? then ReadAll(j.items, read) else None
  }

  /** A member that must be there. */
  function At<T>(j: Json, name: string, read: Json -> Option<T>): Option<T> {
    var member :- Get(j, name);
    read(member)
  }

  /** A member that may be left out. */
  function AtIfAny<T>(j: Json, name: string, read: Json -> Option<T>): Option<Option<T>> {
    match Get(j, name)
    case None => Some(None)
    case Some(member) =>
      var value :- read(member);
      Some(Some(value))
  }

  function ListAt<T>(j: Json, name: string, read: Json -> Option<T>): Option<seq<T>> {
    var member :- Get(j, name);
    ReadList(member, read)
  }

  /** A list that is left out when it is empty. */
  function ListIfAny<T>(j: Json, name: string, read: Json -> Option<T>): Option<seq<T>> {
    match Get(j, name)
    case None => Some([])
    case Some(member) => ReadList(member, read)
  }

  // ---------------------------------------------------------------------------
  // The documented objects

  function ReadLiteral(j: Json): Option<Literal> {
    match j
    case Str(text) => Some(String(text))
    case Number(_) =>
      var n :- ReadI64(j);
      Some(Integer(n))
    case Bool(b) => Some(Boolean(b))
    case Arr(items) =>
      var values :- ReadValues(items);
      Some(Array(values))
    case Obj(members) =>
      var fields :- ReadFields(members);
      Some(Object(fields))
    case Null => None
  }

  function ReadValues(items: seq<Json>): Option<seq<Literal>> {
    if items == [] then Some([])
    else
      var first :- ReadLiteral(items[0]);
      var rest :- ReadValues(items[1..]);
      Some([first] + rest)
  }

  function ReadFields(members: seq<Member>): Option<seq<BodyField>> {
    if members == [] then Some([])
    else
      var first :- ReadLiteral(members[0].value);
      var rest :- ReadFields(members[1..]);
      Some([BodyField(members[0].name, first)] + rest)
  }

  function ReadBody(j: Json): Option<seq<BodyField>> { if j.Obj? then ReadFields(j.members) else None }

  function ReadRequest(j: Json): Option<RequestClause> {
    var body :- At(j, "body", ReadBody);
    Some(RequestClause(body))
  }

  function ReadWhen(j: Json): Option<WhenClause> {
    var method_ :- At(j, "method", ReadStr);
    var path :- At(j, "path", ReadStr);
    Some(WhenClause(method_, path))
  }

  function ReadRequirement(j: Json): Option<RequirementIr> {
    var kind :- At(j, "kind", ReadStr);
    var expression :- At(j, "expression", ReadStr);
    Some(RequirementIr(kind, expression))
  }

  function ReadCapture(j: Json): Option<CaptureClause> {
    var name :- At(j, "name", ReadStr);
    var selector :- At(j, "selector", ReadStr);
    Some(CaptureClause(name, selector))
  }

  function ReadSetup(j: Json): Option<SetupIr> {
    var name :- At(j, "name", ReadStr);
    var request :- AtIfAny(j, "request", ReadRequest);
    var when_ :- At(j, "when", ReadWhen);
    var requirements :- ListAt(j, "requirements", ReadRequirement);
    var captures :- ListAt(j, "captures", ReadCapture);
    Some(SetupIr(name, request, when_, requirements, captures))
  }

  function ReadScenario(j: Json): Option<ScenarioIr> {
    var name :- At(j, "name", ReadStr);
    var given :- ListAt(j, "given", ReadStr);
    var state :- AtIfAny(j, "state", ReadStr);
    var request :- AtIfAny(j, "request", ReadRequest);
    var when_ :- At(j, "when", ReadWhen);
    var setups :- ListIfAny(j, "setups", ReadSetup);
    var requirements :- ListAt(j, "requirements", ReadRequirement);
    Some(ScenarioIr(name, given, state, request, when_, setups, requirements))
  }

  function ReadChange(j: Json): Option<MutationChange> {
    var field :- At(j, "field", ReadStr);
    var from :- At(j, "from", ReadI64);
    var to_ :- At(j, "to", ReadI64);
    Some(MutationChange(field, from, to_))
  }

  function ReadMutation(j: Json): Option<MutationIr> {
    var id :- At(j, "id", ReadStr);
    var scenario :- At(j, "scenario", ReadStr);
    var change :- At(j, "change", ReadChange);
    var rule :- At(j, "expected_rule", ReadStr);
    Some(MutationIr(id, scenario, change, rule))
  }

  function ReadFixture(j: Json): Option<FixtureIr> {
    var id :- At(j, "id", ReadStr);
    var owner :- At(j, "owner", ReadStr);
    var purpose :- At(j, "purpose", ReadStr);
    var sha256 :- At(j, "sha256", ReadStr);
    Some(FixtureIr(id, owner, purpose, sha256))
  }

  function ReadProvenanceRequirement(j: Json): Option<ProvenanceRequirementIr> {
    var kind :- At(j, "kind", ReadStr);
    var field :- At(j, "field", ReadStr);
    Some(ProvenanceRequirementIr(kind, field))
  }

  function ReadProvenance(j: Json): Option<seq<ProvenanceRequirementIr>> {
    ListAt(j, "requirements", ReadProvenanceRequirement)
  }

  function ReadReset(j: Json): Option<ResetClause> {
    var method_ :- At(j, "method", ReadStr);
    var path :- At(j, "path", ReadStr);
    Some(ResetClause(method_, path))
  }

  function ReadIsolation(j: Json): Option<IsolationIr> {
    var scope :- At(j, "scope", ReadStr);
    var reset :- At(j, "reset", ReadReset);
    Some(IsolationIr(scope, reset))
  }

  function ReadSpecification(j: Json): Option<SpecificationIr> {
    var name :- At(j, "name", ReadStr);
    var version :- At(j, "version", ReadStrOrNull);
    var subject :- At(j, "subject", ReadStrOrNull);
    var scenarios :- ListAt(j, "scenarios", ReadScenario);
    var fixtures :- ListIfAny(j, "fixtures", ReadFixture);
    var mutations :- ListIfAny(j, "mutations", ReadMutation);
    var provenance :- AtIfAny(j, "provenance", ReadProvenance);
    var isolation :- AtIfAny(j, "isolation", ReadIsolation);
    Some(SpecificationIr(name, version, subject, scenarios, fixtures, mutations, provenance, isolation))
  }

  function ReadIr(j: Json): Option<IntermediateRepresentation> {
    var schema :- At(j, "schema", ReadStr);
    var specification :- At(j, "specification", ReadSpecification);
    Some(IntermediateRepresentation(schema, specification))
  }

  // ---------------------------------------------------------------------------
  // Finding members

  lemma {:induction false} FindAppend(a: seq<Member>, b: seq<Member>, name: string)
    ensures Find(a + b, name) == if Find(a, name).Some? then Find(a, name) else Find(b, name)
  {
    if a == [] {
      assert a + b == b;
    } else {
      assert (a + b)[0] == a[0] && (a + b)[1..] == a[1..] + b;
      FindAppend(a[1..], b, name);
    }
  }

  lemma FindOne(key: string, value: Json, name: string)
    ensures Find([Member(key, value)], name) == if key == name then Some(value) else None
  {
    assert [Member(key, value)][1..] == [];
  }

  lemma FindOptional<T>(key: string, x: Option<T>, f: T -> Json, name: string)
    ensures Find(Optional(key, x, f), name) == if key == name && x.Some? then Some(f(x.value)) else None
  {
    if x.Some? {
      FindOne(key, f(x.value), name);
    }
  }

  lemma FindNonEmpty<T>(key: string, xs: seq<T>, f: T -> Json, name: string)
    ensures Find(NonEmpty(key, xs, f), name) == if key == name && xs != [] then Some(Arr(Map(xs, f))) else None
  {
    if xs != [] {
      FindOne(key, Arr(Map(xs, f)), name);
    }
  }

  /** A member list put together from parts, looked up part by part. */
  lemma FindCons(key: string, value: Json, rest: seq<Member>, name: string)
    ensures Find([Member(key, value)] + rest, name) == if key == name then Some(value) else Find(rest, name)
  {
    assert ([Member(key, value)] + rest)[1..] == rest;
  }

  lemma {:induction false} ReadAllMapped<S, T>(xs: seq<S>, f: S -> Json, read: Json -> Option<T>, g: S -> T)
    requires forall x <- xs :: read(f(x)) == Some(g(x))
    ensures ReadAll(Map(xs, f), read) == Some(Map(xs, g))
  {
    if xs != [] {
      assert xs[0] in xs && forall x <- xs[1..] :: x in xs;
      ReadAllMapped(xs[1..], f, read, g);
      assert Map(xs, f)[1..] == Map(xs[1..], f);
    }
  }

  lemma ReadListMapped<S, T>(xs: seq<S>, f: S -> Json, read: Json -> Option<T>, g: S -> T)
    requires forall x <- xs :: read(f(x)) == Some(g(x))
    ensures ReadList(Arr(Map(xs, f)), read) == Some(Map(xs, g))
  {
    ReadAllMapped(xs, f, read, g);
  }

  lemma MapSame<T>(xs: seq<T>)
    ensures Map(xs, (x: T) => x) == xs
  {
  }

  // ---------------------------------------------------------------------------
  // Every printed object is read back

  lemma {:induction false} FindIn(members: seq<Member>, i: nat)
    requires i < |members| && forall j | 0 <= j < i :: members[j].name != members[i].name
    ensures Find(members, members[i].name) == Some(members[i].value)
  {
    if i > 0 {
      assert members[0].name != members[i].name;
      FindIn(members[1..], i - 1);
    }
  }

  lemma NumberReads(n: I64)
    ensures ReadI64(Number(FormatInt(n))) == Some(n)
  {
    ParseFormat(n);
  }

  lemma {:induction false} LiteralReads(l: Literal)
    ensures ReadLiteral(LiteralJson(l)) == Some(Normalise(l))
    decreases l, 0
  {
    match l
    case Integer(n) => NumberReads(n);
    case Array(values) => ValuesRead(values);
    case Object(fields) => FieldsRead(fields);
    case Repeat(value, count) => RepeatReads(value, count);
    case _ =>
  }

  lemma FieldThen(name: string, value: Json, l: Literal, rest: seq<Member>, fields: seq<BodyField>)
    requires ReadLiteral(value) == Some(l) && ReadFields(rest) == Some(fields)
    ensures ReadFields([Member(name, value)] + rest) == Some([BodyField(name, l)] + fields)
  {
    assert ([Member(name, value)] + rest)[1..] == rest;
  }

  lemma RepeatReads(value: string, count: I64)
    ensures ReadLiteral(RepeatJson(value, count)) == Some(RepeatObject(value, count))
  {
    NumberReads(count);
    var n := Number(FormatInt(count));
    assert ReadLiteral(n) == Some(Integer(count)) && ReadLiteral(Str(value)) == Some(String(value));
    assert ReadLiteral(Str("repeat")) == Some(String("repeat")) && ReadFields([]) == Some([]);
    FieldThen("count", n, Integer(count), [], []);
    var counted := [BodyField("count", Integer(count))];
    assert [Member("count", n)] + [] == [Member("count", n)] && counted + [] == counted;
    FieldThen("value", Str(value), String(value), [Member("count", n)], counted);
    var valued := [Member("value", Str(value))] + [Member("count", n)];
    FieldThen("kind", Str("repeat"), String("repeat"), valued, [BodyField("value", String(value))] + counted);
    var inner := [Member("kind", Str("repeat"))] + valued;
    var fields := [BodyField("kind", String("repeat"))] + ([BodyField("value", String(value))] + counted);
    assert inner == [Member("kind", Str("repeat")), Member("value", Str(value)), Member("count", n)];
    assert fields == [BodyField("kind", String("repeat")), BodyField("value", String(value)),
      BodyField("count", Integer(count))];
    assert ReadLiteral(Obj(inner)) == Some(Object(fields));
    FieldThen(GENERATED, Obj(inner), Object(fields), [], []);
    assert [Member(GENERATED, Obj(inner))] + [] == [Member(GENERATED, Obj(inner))];
    var outer := [BodyField(GENERATED, Object(fields))];
    assert outer + [] == outer && RepeatObject(value, count) == Object(outer);
    hide FormatInt, ReadI64, ReadFields;
    assert RepeatJson(value, count) == Obj([Member(GENERATED, Obj(inner))]);
  }

  lemma {:induction false} ValuesRead(values: seq<Literal>)
    ensures ReadValues(ValuesJson(values)) == Some(NormaliseValues(values))
    decreases values, 1
  {
    if values != [] {
      LiteralReads(values[0]);
      ValuesRead(values[1..]);
      assert ValuesJson(values)[1..] == ValuesJson(values[1..]);
    }
  }

  lemma {:induction false} FieldsRead(fields: seq<BodyField>)
    ensures ReadFields(FieldsJson(fields)) == Some(NormaliseFields(fields))
    decreases fields, 1
  {
    if fields != [] {
      LiteralReads(fields[0].value);
      FieldsRead(fields[1..]);
      assert FieldsJson(fields)[1..] == FieldsJson(fields[1..]);
    }
  }

  lemma RequestReads(r: RequestClause)
    ensures ReadRequest(RequestJson(r)) == Some(NormaliseRequest(r))
  {
    FieldsRead(r.body);
    hide ReadFields, FieldsJson;
    FindIn(RequestJson(r).members, 0);
  }

  lemma WhenReads(w: WhenClause)
    ensures ReadWhen(WhenJson(w)) == Some(w)
  {
    FindIn(WhenJson(w).members, 0);
    FindIn(WhenJson(w).members, 1);
    hide Find;
  }

  lemma RequirementReads(r: RequirementIr)
    ensures ReadRequirement(RequirementJson(r)) == Some(r)
  {
    FindIn(RequirementJson(r).members, 0);
    FindIn(RequirementJson(r).members, 1);
    hide Find;
  }

  lemma CaptureReads(c: CaptureClause)
    ensures ReadCapture(CaptureJson(c)) == Some(c)
  {
    FindIn(CaptureJson(c).members, 0);
    FindIn(CaptureJson(c).members, 1);
    hide Find;
  }

  lemma ChangeReads(c: MutationChange)
    ensures ReadChange(ChangeJson(c)) == Some(c)
  {
    NumberReads(c.from);
    NumberReads(c.to_);
    hide ReadI64, FormatInt;
    FindIn(ChangeJson(c).members, 0);
    FindIn(ChangeJson(c).members, 1);
    FindIn(ChangeJson(c).members, 2);
    hide Find;
  }

  lemma MutationReads(m: MutationIr)
    ensures ReadMutation(MutationJson(m)) == Some(m)
  {
    ChangeReads(m.change);
    hide ReadChange, ChangeJson;
    FindIn(MutationJson(m).members, 0);
    FindIn(MutationJson(m).members, 1);
    FindIn(MutationJson(m).members, 2);
    FindIn(MutationJson(m).members, 3);
    hide Find;
  }

  lemma FixtureReads(f: FixtureIr)
    ensures ReadFixture(FixtureJson(f)) == Some(f)
  {
    FindIn(FixtureJson(f).members, 0);
    FindIn(FixtureJson(f).members, 1);
    FindIn(FixtureJson(f).members, 2);
    FindIn(FixtureJson(f).members, 3);
    hide Find;
  }

  lemma ProvenanceRequirementReads(r: ProvenanceRequirementIr)
    ensures ReadProvenanceRequirement(ProvenanceRequirementJson(r)) == Some(r)
  {
    FindIn(ProvenanceRequirementJson(r).members, 0);
    FindIn(ProvenanceRequirementJson(r).members, 1);
    hide Find;
  }

  /** A list whose items are read back as they are. */
  lemma ListReads<T>(xs: seq<T>, f: T -> Json, read: Json -> Option<T>)
    requires forall x <- xs :: read(f(x)) == Some(x)
    ensures ReadList(Arr(Map(xs, f)), read) == Some(xs)
  {
    MapSame(xs);
    ReadListMapped(xs, f, read, (x: T) => x);
  }

  lemma ProvenanceReads(p: seq<ProvenanceRequirementIr>)
    ensures ReadProvenance(ProvenanceJson(p)) == Some(p)
  {
    forall r <- p ensures ReadProvenanceRequirement(ProvenanceRequirementJson(r)) == Some(r) {
      ProvenanceRequirementReads(r);
    }
    ListReads(p, ProvenanceRequirementJson, ReadProvenanceRequirement);
    FindIn(ProvenanceJson(p).members, 0);
    hide Find, ReadList, Map;
  }

  lemma ResetReads(r: ResetClause)
    ensures ReadReset(ResetJson(r)) == Some(r)
  {
    FindIn(ResetJson(r).members, 0);
    FindIn(ResetJson(r).members, 1);
    hide Find;
  }

  lemma IsolationReads(i: IsolationIr)
    ensures ReadIsolation(IsolationJson(i)) == Some(i)
  {
    ResetReads(i.reset);
    hide ReadReset, ResetJson;
    FindIn(IsolationJson(i).members, 0);
    FindIn(IsolationJson(i).members, 1);
    hide Find;
  }

  lemma RequirementsRead(requirements: seq<RequirementIr>)
    ensures ReadList(Arr(Map(requirements, RequirementJson)), ReadRequirement) == Some(requirements)
  {
    forall r <- requirements ensures ReadRequirement(RequirementJson(r)) == Some(r) {
      RequirementReads(r);
    }
    ListReads(requirements, RequirementJson, ReadRequirement);
  }

  lemma CapturesRead(captures: seq<CaptureClause>)
    ensures ReadList(Arr(Map(captures, CaptureJson)), ReadCapture) == Some(captures)
  {
    forall c <- captures ensures ReadCapture(CaptureJson(c)) == Some(c) {
      CaptureReads(c);
    }
    ListReads(captures, CaptureJson, ReadCapture);
  }

  // ---------------------------------------------------------------------------
  // Objects with members that may be left out

  lemma FindTwo(members: seq<Member>, name: string)
    requires |members| == 2
    ensures Find(members, name) ==
      if name == members[0].name then Some(members[0].value)
      else if name == members[1].name then Some(members[1].value)
      else None
  {
    assert members[1..] == [members[1]] && [members[1]][1..] == [];
    assert Find([members[1]], name) == if members[1].name == name then Some(members[1].value) else None;
  }

  lemma FindThree(members: seq<Member>, name: string)
    requires |members| == 3
    ensures Find(members, name) ==
      if name == members[0].name then Some(members[0].value)
      else if name == members[1].name then Some(members[1].value)
      else if name == members[2].name then Some(members[2].value)
      else None
  {
    FindTwo(members[1..], name);
  }

  /** The value under each key of a setup. */
  lemma SetupMembers(s: SetupIr, name: string)
    ensures Get(SetupJson(s), name) ==
      if name == "name" then Some(Str(s.name))
      else if name == "request" then MapOption(s.request, RequestJson)
      else if name == "when" then Some(WhenJson(s.when_))
      else if name == "requirements" then Some(Arr(Map(s.requirements, RequirementJson)))
      else if name == "captures" then Some(Arr(Map(s.captures, CaptureJson)))
      else None
  {
    hide WhenJson, RequestJson, RequirementJson, CaptureJson, Map, Optional, Find;
    var head, request := [Member("name", Str(s.name))], Optional("request", s.request, RequestJson);
    var tail := [Member("when", WhenJson(s.when_)), Member("requirements", Arr(Map(s.requirements, RequirementJson))),
      Member("captures", Arr(Map(s.captures, CaptureJson)))];
    FindAppend(head + request, tail, name);
    FindAppend(head, request, name);
    FindOne("name", Str(s.name), name);
    FindOptional("request", s.request, RequestJson, name);
    FindThree(tail, name);
  }

  lemma SetupReads(s: SetupIr)
    ensures ReadSetup(SetupJson(s)) == Some(NormaliseSetup(s))
  {
    SetupMembers(s, "name");
    SetupMembers(s, "request");
    SetupMembers(s, "when");
    SetupMembers(s, "requirements");
    SetupMembers(s, "captures");
    WhenReads(s.when_);
    RequirementsRead(s.requirements);
    CapturesRead(s.captures);
    if s.request.Some? {
      RequestReads(s.request.value);
    }
    hide SetupJson, Get, ReadWhen, WhenJson, ReadList, ReadRequest, RequestJson, Map, NormaliseRequest;
  }

  function NonEmptyJson<T>(xs: seq<T>, f: T -> Json): Option<Json> { if xs == [] then None else Some(Arr(Map(xs, f))) }

  /** The value under each key of a scenario. */
  lemma ScenarioMembers(s: ScenarioIr, name: string)
    ensures Get(ScenarioJson(s), name) ==
      if name == "name" then Some(Str(s.name))
      else if name == "given" then Some(Arr(Map(s.given, Text_)))
      else if name == "state" then MapOption(s.state, Text_)
      else if name == "request" then MapOption(s.request, RequestJson)
      else if name == "when" then Some(WhenJson(s.when_))
      else if name == "setups" then NonEmptyJson(s.setups, SetupJson)
      else if name == "requirements" then Some(Arr(Map(s.requirements, RequirementJson)))
      else None
  {
    hide WhenJson, RequestJson, RequirementJson, SetupJson, Map, Optional, NonEmpty, Find, Text_;
    var a := [Member("name", Str(s.name)), Member("given", Arr(Map(s.given, Text_)))];
    var b, c := Optional("state", s.state, Text_), Optional("request", s.request, RequestJson);
    var d, e := [Member("when", WhenJson(s.when_))], NonEmpty("setups", s.setups, SetupJson);
    var f := [Member("requirements", Arr(Map(s.requirements, RequirementJson)))];
    assert ScenarioJson(s).members == a + b + c + d + e + f;
    FindAppend(a + b + c + d + e, f, name);
    FindAppend(a + b + c + d, e, name);
    FindAppend(a + b + c, d, name);
    FindAppend(a + b, c, name);
    FindAppend(a, b, name);
    FindTwo(a, name);
    FindOptional("state", s.state, Text_, name);
    FindOptional("request", s.request, RequestJson, name);
    FindOne("when", WhenJson(s.when_), name);
    FindNonEmpty("setups", s.setups, SetupJson, name);
    FindOne("requirements", Arr(Map(s.requirements, RequirementJson)), name);
  }

  lemma TextsRead(texts: seq<string>)
    ensures ReadList(Arr(Map(texts, Text_)), ReadStr) == Some(texts)
  {
    ListReads(texts, Text_, ReadStr);
  }

  lemma ScenarioReads(s: ScenarioIr)
    ensures ReadScenario(ScenarioJson(s)) == Some(NormaliseScenario(s))
  {
    ScenarioMembers(s, "name");
    ScenarioMembers(s, "given");
    ScenarioMembers(s, "state");
    ScenarioMembers(s, "request");
    ScenarioMembers(s, "when");
    ScenarioMembers(s, "setups");
    ScenarioMembers(s, "requirements");
    hide ScenarioJson, Get, ReadWhen, WhenJson, ReadList, ReadRequest, RequestJson, Map, NormaliseRequest, SetupJson;
    hide ReadSetup, NormaliseSetup;
    TextsRead(s.given);
    WhenReads(s.when_);
    RequirementsRead(s.requirements);
    if s.request.Some? {
      RequestReads(s.request.value);
    }
    forall u <- s.setups ensures ReadSetup(SetupJson(u)) == Some(NormaliseSetup(u)) {
      SetupReads(u);
    }
    ReadListMapped(s.setups, SetupJson, ReadSetup, NormaliseSetup);
    NoneMapped(s.setups, NormaliseSetup);
  }

  lemma NoneMapped<A, B>(xs: seq<A>, f: A -> B)
    ensures xs == [] ==> Map(xs, f) == []
  {
  }

  /** The value under each key of a specification. */
  lemma SpecificationMembers(s: SpecificationIr, name: string)
    ensures Get(SpecificationJson(s), name) ==
      if name == "name" then Some(Str(s.name))
      else if name == "version" then Some(OptionalText(s.version))
      else if name == "subject" then Some(OptionalText(s.subject))
      else if name == "scenarios" then Some(Arr(Map(s.scenarios, ScenarioJson)))
      else if name == "fixtures" then NonEmptyJson(s.fixtures, FixtureJson)
      else if name == "mutations" then NonEmptyJson(s.mutations, MutationJson)
      else if name == "provenance" then MapOption(s.provenance, ProvenanceJson)
      else if name == "isolation" then MapOption(s.isolation, IsolationJson)
      else None
  {
    hide ScenarioJson, FixtureJson, MutationJson, ProvenanceJson, IsolationJson, Map, Optional, NonEmpty, Find;
    hide OptionalText;
    var a := [Member("name", Str(s.name)), Member("version", OptionalText(s.version)),
      Member("subject", OptionalText(s.subject)), Member("scenarios", Arr(Map(s.scenarios, ScenarioJson)))];
    var b, c := NonEmpty("fixtures", s.fixtures, FixtureJson), NonEmpty("mutations", s.mutations, MutationJson);
    var d := Optional("provenance", s.provenance, ProvenanceJson);
    var e := Optional("isolation", s.isolation, IsolationJson);
    assert SpecificationJson(s).members == a + b + c + d + e;
    FindAppend(a + b + c + d, e, name);
    FindAppend(a + b + c, d, name);
    FindAppend(a + b, c, name);
    FindAppend(a, b, name);
    assert a == [a[0]] + a[1..];
    FindCons("name", Str(s.name), a[1..], name);
    FindThree(a[1..], name);
    FindNonEmpty("fixtures", s.fixtures, FixtureJson, name);
    FindNonEmpty("mutations", s.mutations, MutationJson, name);
    FindOptional("provenance", s.provenance, ProvenanceJson, name);
    FindOptional("isolation", s.isolation, IsolationJson, name);
  }

  lemma SpecificationReads(s: SpecificationIr)
    ensures ReadSpecification(SpecificationJson(s)) == Some(s.(scenarios := Map(s.scenarios, NormaliseScenario)))
  {
    SpecificationMembers(s, "name");
    SpecificationMembers(s, "version");
    SpecificationMembers(s, "subject");
    SpecificationMembers(s, "scenarios");
    SpecificationMembers(s, "fixtures");
    SpecificationMembers(s, "mutations");
    SpecificationMembers(s, "provenance");
    SpecificationMembers(s, "isolation");
    hide SpecificationJson, Get, ReadScenario, ScenarioJson, ReadList, Map, NormaliseScenario, FixtureJson, ReadFixture;
    hide MutationJson, ReadMutation, ProvenanceJson, ReadProvenance, IsolationJson, ReadIsolation;
    forall x <- s.scenarios ensures ReadScenario(ScenarioJson(x)) == Some(NormaliseScenario(x)) {
      ScenarioReads(x);
    }
    ReadListMapped(s.scenarios, ScenarioJson, ReadScenario, NormaliseScenario);
    forall f <- s.fixtures ensures ReadFixture(FixtureJson(f)) == Some(f) {
      FixtureReads(f);
    }
    ListReads(s.fixtures, FixtureJson, ReadFixture);
    forall m <- s.mutations ensures ReadMutation(MutationJson(m)) == Some(m) {
      MutationReads(m);
    }
    ListReads(s.mutations, MutationJson, ReadMutation);
    if s.provenance.Some? {
      ProvenanceReads(s.provenance.value);
    }
    if s.isolation.Some? {
      IsolationReads(s.isolation.value);
    }
  }

  /** The printed text of a representation. */
  function ReadPrintedIr(text: string): Option<IntermediateRepresentation> {
    var j :- ReadText(text);
    ReadIr(j)
  }

  /** Every printed representation is read back, with its generators spelled out. */
  lemma PrintedIrReadsBack(ir: IntermediateRepresentation)
    ensures ReadPrintedIr(Render(IrJson(ir))) == Some(NormaliseIr(ir))
  {
    PrintedIrReads(ir);
    SpecificationReads(ir.specification);
    hide Render, ReadText, ReadSpecification, SpecificationJson, Map;
    FindIn(IrJson(ir).members, 0);
    FindIn(IrJson(ir).members, 1);
    hide Find;
  }

  // ---------------------------------------------------------------------------
  // Back to the specification

  function MapAll<A, B>(xs: seq<A>, f: A -> Option<B>): Option<seq<B>> {
    if xs == [] then Some([])
    else
      var first :- f(xs[0]);
      var rest :- MapAll(xs[1..], f);
      Some([first] + rest)
  }

  function RequirementOf(r: RequirementIr): Option<Requirement> {
    if r.kind == "must" then Some(Requirement(Must, r.expression))
    else if r.kind == "must_not" then Some(Requirement(MustNot, r.expression))
    else None
  }

  function SetupOf(u: SetupIr): Option<SetupClause> {
    var requirements :- MapAll(u.requirements, RequirementOf);
    Some(SetupClause(u.name, u.request, Some(u.when_), requirements, u.captures))
  }

  function ScenarioOf(s: ScenarioIr): Option<Scenario> {
    var setups :- MapAll(s.setups, SetupOf);
    var requirements :- MapAll(s.requirements, RequirementOf);
    Some(Scenario(s.name, s.given, s.state, s.request, Some(s.when_), setups, requirements))
  }

  function MutationOf(m: MutationIr): MutationClause {
    MutationClause(m.id, Some(m.scenario), Some(m.change), Some(m.expectedRule))
  }

  function FixtureOf(f: FixtureIr): Option<FixtureClause> {
    if f.owner == "oracle" then Some(FixtureClause(f.id, Some(Oracle), Some(f.purpose), Some(f.sha256))) else None
  }

  function ProvenanceRequirementOf(r: ProvenanceRequirementIr): Option<ProvenanceRequirement> {
    if r.kind == "create" && r.field == "execution_id" then Some(ProvenanceRequirement(Create, ExecutionId)) else None
  }

  function ProvenanceOf(p: seq<ProvenanceRequirementIr>): Option<ProvenanceClause> {
    var requirements :- MapAll(p, ProvenanceRequirementOf);
    Some(ProvenanceClause(requirements))
  }

  function IsolationOf(i: IsolationIr): Option<IsolationClause> {
    if i.scope == "scenario" then Some(IsolationClause(PerScenario, Some(i.reset))) else None
  }

  function MaybeOf<A, B>(x: Option<A>, f: A -> Option<B>): Option<Option<B>> {
    match x
    case None => Some(None)
    case Some(a) =>
      var b :- f(a);
      Some(Some(b))
  }

  function SpecificationOf(s: SpecificationIr): Option<Specification> {
    var scenarios :- MapAll(s.scenarios, ScenarioOf);
    var fixtures :- MapAll(s.fixtures, FixtureOf);
    var provenance :- MaybeOf(s.provenance, ProvenanceOf);
    var isolation :- MaybeOf(s.isolation, IsolationOf);
    var mutations := Map(s.mutations, MutationOf);
    Some(Specification(s.name, s.version, s.subject, scenarios, fixtures, mutations, provenance, isolation))
  }

  /** From the printed text to the specification. */
  function ReadPrintedSpecification(text: string): Option<Specification> {
    var ir :- ReadPrintedIr(text);
    if ir.schema == "malcolm.ir/v1" then SpecificationOf(ir.specification) else None
  }

  /** A specification with the generators of its bodies spelled out. */
  function Spelled(spec: Specification): Specification { spec.(scenarios := Map(spec.scenarios, SpelledScenario)) }

  function SpelledScenario(s: Scenario): Scenario {
    s.(request := MapOption(s.request, NormaliseRequest), setups := Map(s.setups, SpelledSetup))
  }

  function SpelledSetup(u: SetupClause): SetupClause { u.(request := MapOption(u.request, NormaliseRequest)) }

  /** What is mapped twice and then read back. */
  lemma {:induction false} MapAllTwice<A, B, C>(xs: seq<A>, f: A -> B, g: B -> B, read: B -> Option<C>, h: A -> C)
    requires forall x <- xs :: read(g(f(x))) == Some(h(x))
    ensures MapAll(Map(Map(xs, f), g), read) == Some(Map(xs, h))
  {
    if xs != [] {
      assert xs[0] in xs && forall x <- xs[1..] :: x in xs;
      MapAllTwice(xs[1..], f, g, read, h);
      assert Map(xs, f)[1..] == Map(xs[1..], f);
      assert Map(Map(xs, f), g)[1..] == Map(Map(xs[1..], f), g);
    }
  }

  lemma {:induction false} MapAllBack<A, B>(xs: seq<A>, f: A -> B, read: B -> Option<A>)
    requires forall x <- xs :: read(f(x)) == Some(x)
    ensures MapAll(Map(xs, f), read) == Some(xs)
  {
    if xs != [] {
      assert xs[0] in xs && forall x <- xs[1..] :: x in xs;
      MapAllBack(xs[1..], f, read);
      assert Map(xs, f)[1..] == Map(xs[1..], f) && [xs[0]] + xs[1..] == xs;
    }
  }

  lemma RequirementsGoBack(requirements: seq<Requirement>)
    ensures MapAll(Map(requirements, RequirementFromAst), RequirementOf) == Some(requirements)
  {
    forall r: Requirement ensures RequirementOf(RequirementFromAst(r)) == Some(r) {
      RequirementGoesBack(r);
    }
    MapAllBack(requirements, RequirementFromAst, RequirementOf);
  }

  lemma RequirementGoesBack(r: Requirement)
    ensures RequirementOf(RequirementFromAst(r)) == Some(r)
  {
    assert |"must"| != |"must_not"|;
  }

  lemma SetupGoesBack(u: SetupClause)
    requires u.when_.Some?
    ensures SetupOf(NormaliseSetup(SetupFromAst(u))) == Some(SpelledSetup(u))
  {
    RequirementsGoBack(u.requirements);
    hide Map, MapAll, NormaliseRequest;
  }

  lemma ScenarioGoesBack(s: Scenario)
    requires s.when_.Some? && forall u <- s.setups :: u.when_.Some?
    ensures ScenarioOf(NormaliseScenario(ScenarioFromAst(s))) == Some(SpelledScenario(s))
  {
    hide SetupOf, NormaliseSetup, SetupFromAst, SpelledSetup, Map, MapAll, NormaliseRequest;
    RequirementsGoBack(s.requirements);
    forall u <- s.setups ensures SetupOf(NormaliseSetup(SetupFromAst(u))) == Some(SpelledSetup(u)) {
      SetupGoesBack(u);
    }
    MapAllTwice(s.setups, SetupFromAst, NormaliseSetup, SetupOf, SpelledSetup);
  }

  lemma FixturesGoBack(fixtures: seq<FixtureClause>)
    requires forall f <- fixtures :: f.owner.Some? && f.purpose.Some? && f.sha256.Some?
    ensures MapAll(Map(fixtures, FixtureFromAst), FixtureOf) == Some(fixtures)
  {
    forall f <- fixtures ensures FixtureOf(FixtureFromAst(f)) == Some(f) {
      FixtureGoesBack(f);
    }
    hide FixtureOf, FixtureFromAst;
    MapAllBack(fixtures, FixtureFromAst, FixtureOf);
  }

  lemma FixtureGoesBack(f: FixtureClause)
    requires f.owner.Some? && f.purpose.Some? && f.sha256.Some?
    ensures FixtureOf(FixtureFromAst(f)) == Some(f)
  {
    assert f.owner.value == Oracle;
  }

  lemma MutationsGoBack(mutations: seq<MutationClause>)
    requires forall m <- mutations :: m.change.Some? && m.scenario.Some? && m.expectedRule.Some?
    ensures Map(Map(mutations, MutationFromAst), MutationOf) == mutations
  {
    forall i | 0 <= i < |mutations| ensures MutationOf(MutationFromAst(mutations[i])) == mutations[i] {
      assert mutations[i] in mutations;
    }
  }

  lemma ProvenanceGoesBack(p: ProvenanceClause)
    ensures ProvenanceOf(ProvenanceFromAst(p)) == Some(p)
  {
    forall r <- p.requirements ensures ProvenanceRequirementOf(ProvenanceRequirementFromAst(r)) == Some(r) {
      ProvenanceRequirementGoesBack(r);
    }
    MapAllBack(p.requirements, ProvenanceRequirementFromAst, ProvenanceRequirementOf);
  }

  lemma ProvenanceRequirementGoesBack(r: ProvenanceRequirement)
    ensures ProvenanceRequirementOf(ProvenanceRequirementFromAst(r)) == Some(r)
  {
    assert r.kind == Create && r.field == ExecutionId;
  }

  lemma IsolationGoesBack(i: IsolationClause)
    requires i.reset.Some?
    ensures IsolationOf(IsolationFromAst(i)) == Some(i)
  {
    assert i.scope == PerScenario;
  }

  lemma SpecificationGoesBack(spec: Specification)
    requires IsCompilable(spec)
    ensures SpecificationOf(NormaliseIr(FromValid(spec)).specification) == Some(Spelled(spec))
  {
    hide ScenarioOf, NormaliseScenario, ScenarioFromAst, SpelledScenario, Map, MapAll;
    hide FixtureFromAst, FixtureOf, MutationFromAst, MutationOf, ProvenanceFromAst, ProvenanceOf, IsolationFromAst;
    hide IsolationOf;
    forall s <- spec.scenarios ensures ScenarioOf(NormaliseScenario(ScenarioFromAst(s))) == Some(SpelledScenario(s)) {
      ScenarioGoesBack(s);
    }
    MapAllTwice(spec.scenarios, ScenarioFromAst, NormaliseScenario, ScenarioOf, SpelledScenario);
    FixturesGoBack(spec.fixtures);
    MutationsGoBack(spec.mutations);
    if spec.provenance.Some? {
      ProvenanceGoesBack(spec.provenance.value);
    }
    if spec.isolation.Some? {
      IsolationGoesBack(spec.isolation.value);
    }
  }

  /** The printed text of a compiled specification is read back as the specification, with the generators of
  its bodies spelled out: every clause stands under its documented key with its documented name. */
  lemma PrintedSpecificationReadsBack(spec: Specification)
    requires IsCompilable(spec)
    ensures ReadPrintedSpecification(Render(IrJson(FromValid(spec)))) == Some(Spelled(spec))
  {
    PrintedIrReadsBack(FromValid(spec));
    SpecificationGoesBack(spec);
    hide ReadPrintedIr, SpecificationOf, Render, IrJson, Map, Spelled;
  }
}
