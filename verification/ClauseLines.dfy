/** The one-line clauses of a Malcolm source: each function is one `parse_*` helper of the parser,
from the clause being filled and a trimmed line to the filled clause or the error. */
module ClauseLines {
  import opened Text
  import opened Ast
  import opened StringCodec
  import opened LiteralGrammar

  function RequireOpenBrace(line: string): Result<string, ErrorKind> {
    match StripSuffix(line, "{")
    case None => Err(MissingOpenBrace)
    case Some(content) => Ok(Trim(content))
  }

  function ParseIdentifier(value: string): (r: Result<string, ErrorKind>)
    ensures r.Ok? ==> IsIdentifier(r.value)
  {
    var v := Trim(value);
    if IsIdentifier(v) then Ok(v) else Err(NotIdentifier)
  }

  function ParseInteger(value: string): Result<I64, ErrorKind> {
    match ParseI64(value)
    case None => Err(NotInteger)
    case Some(n) => Ok(n)
  }

  function RequireExpression(expression: string): Result<string, ErrorKind> {
    var e := Trim(expression);
    if e == "" then Err(MissingExpression) else Ok(e)
  }

  function ParseWhen(value: string): Result<WhenClause, ErrorKind> {
    match SplitOnce(value, ' ')
    case None => Err(WhenShape)
    case Some((name, path)) =>
      if name == "" then Err(WhenMethodMissing)
      else
        var target :- ParseQuoted(Trim(path));
        Ok(WhenClause(name, target))
  }

  // ---------------------------------------------------------------------------
  // Block headers

  function ParseSpecHeader(line: string): (r: Result<Specification, ErrorKind>)
    ensures r.Ok? ==> r.value.scenarios == [] && r.value.fixtures == [] && r.value.mutations == []
    ensures r.Ok? ==> r.value.subject == None && r.value.provenance == None && r.value.isolation == None
  {
    var content :- RequireOpenBrace(line);
    var fields := SplitWhitespace(content);
    if !(2 <= |fields| <= 3) || fields[0] != "spec" then Err(SpecificationHeader)
    else Ok(Specification(fields[1], if |fields| == 3 then Some(fields[2]) else None, None, [], [], [], None, None))
  }

  function ParseScenarioHeader(header: string): (r: Result<Scenario, ErrorKind>)
    ensures r.Ok? ==> r.value.request == None && r.value.setups == []
  {
    var content :- RequireOpenBrace(header);
    var fields := SplitWhitespace(content);
    if |fields| != 1 then Err(ScenarioHeader)
    else Ok(Scenario(fields[0], [], None, None, None, [], []))
  }

  function ParseSetupHeader(header: string): (r: Result<SetupClause, ErrorKind>)
    ensures r.Ok? ==> r.value.request == None && r.value.captures == [] && IsIdentifier(r.value.name)
  {
    var content :- RequireOpenBrace(header);
    var fields := SplitWhitespace(content);
    if |fields| != 1 || !IsIdentifier(fields[0]) then Err(SetupHeader)
    else Ok(SetupClause(fields[0], None, None, [], []))
  }

  function ParseMutationHeader(header: string): Result<MutationClause, ErrorKind> {
    var content :- RequireOpenBrace(header);
    var id :- ParseQuoted(content);
    Ok(MutationClause(id, None, None, None))
  }

  function ParseFixtureHeader(header: string): Result<FixtureClause, ErrorKind> {
    var content :- RequireOpenBrace(header);
    var id :- ParseQuoted(content);
    Ok(FixtureClause(id, None, None, None))
  }

  // ---------------------------------------------------------------------------
  // Lines inside a block

  function ParseFixtureLine(fixture: FixtureClause, line: string): Result<FixtureClause, ErrorKind> {
    match (StripPrefix(line, "owner "), StripPrefix(line, "purpose "), StripPrefix(line, "sha256 "))
    case (Some(value), _, _) =>
      if fixture.owner.Some? then Err(RepeatedOwner)
      else
        var owner :- ParseIdentifier(value);
        if owner != "oracle" then Err(FixtureOwnerName) else Ok(fixture.(owner := Some(Oracle)))
    case (None, Some(value), _) =>
      if fixture.purpose.Some? then Err(RepeatedPurpose)
      else
        var purpose :- ParseQuoted(value);
        Ok(fixture.(purpose := Some(purpose)))
    case (None, None, Some(value)) =>
      if fixture.sha256.Some? then Err(RepeatedSha256)
      else
        var digest :- ParseQuoted(value);
        Ok(fixture.(sha256 := Some(digest)))
    case (None, None, None) => Err(UnknownFixtureLine)
  }

  function ParseChange(value: string): Result<MutationChange, ErrorKind> {
    var fields := SplitWhitespace(value);
    if |fields| != 5 || fields[0] != "response.status" || fields[1] != "from" || fields[3] != "to" then Err(ChangeShape)
    else
      var from :- ParseInteger(fields[2]);
      var target :- ParseInteger(fields[4]);
      Ok(MutationChange(fields[0], from, target))
  }

  function ParseMutationLine(mutation: MutationClause, line: string): Result<MutationClause, ErrorKind> {
    match (StripPrefix(line, "target "), StripPrefix(line, "change "), StripPrefix(line, "expect rule "))
    case (Some(value), _, _) =>
      if mutation.scenario.Some? then Err(RepeatedTarget)
      else
        var scenario :- ParseIdentifier(value);
        Ok(mutation.(scenario := Some(scenario)))
    case (None, Some(value), _) =>
      if mutation.change.Some? then Err(RepeatedChange)
      else
        var change :- ParseChange(value);
        Ok(mutation.(change := Some(change)))
    case (None, None, Some(value)) =>
      if mutation.expectedRule.Some? then Err(RepeatedRule)
      else
        var rule := match StripSuffix(value, " to fail") case None => "" case Some(r) => Trim(r);
        if rule == "" then Err(ExpectedRuleShape) else Ok(mutation.(expectedRule := Some(rule)))
    case (None, None, None) => Err(UnknownMutationLine)
  }

  function ParseProvenanceLine(provenance: ProvenanceClause, line: string): Result<ProvenanceClause, ErrorKind> {
    if SplitWhitespace(line) == ["must", "create", "execution_id"] then
      var requirement := ProvenanceRequirement(Create, ExecutionId);
      if requirement in provenance.requirements then Err(RepeatedRequirement)
      else Ok(ProvenanceClause(provenance.requirements + [requirement]))
    else Err(UnknownProvenanceLine)
  }

  function ParseIsolationLine(isolation: IsolationClause, line: string): Result<IsolationClause, ErrorKind> {
    match StripPrefix(line, "reset ")
    case None => Err(UnknownIsolationLine)
    case Some(value) =>
      if isolation.reset.Some? then Err(RepeatedReset)
      else match SplitOnce(value, ' ')
        case None => Err(ResetShape)
        case Some((name, path)) =>
          if name != "POST" then Err(ResetMethod)
          else
            var target :- ParseQuoted(Trim(path));
            Ok(isolation.(reset := Some(ResetClause(name, target))))
  }

  /** The two requirement clauses that scenarios and setups share. */
  function ParseRequirement(line: string): Option<Result<Requirement, ErrorKind>> {
    match (StripPrefix(line, "must_not "), StripPrefix(line, "must "))
    case (Some(expression), _) => Some(NewRequirement(MustNot, expression))
    case (None, Some(expression)) => Some(NewRequirement(Must, expression))
    case (None, None) => None
  }

  function NewRequirement(kind: RequirementKind, expression: string): Result<Requirement, ErrorKind> {
    var e :- RequireExpression(expression);
    Ok(Requirement(kind, e))
  }

  function ParseScenarioLine(scenario: Scenario, line: string): (r: Result<Scenario, ErrorKind>)
    ensures r.Ok? ==> r.value.request == scenario.request && r.value.setups == scenario.setups
    ensures r.Ok? ==> r.value.name == scenario.name
  {
    match (StripPrefix(line, "state "), StripPrefix(line, "given "), StripPrefix(line, "when "))
    case (Some(state), _, _) =>
      if scenario.state.Some? then Err(RepeatedState)
      else
        var name :- ParseIdentifier(state);
        Ok(scenario.(state := Some(name)))
    case (None, Some(expression), _) =>
      var given :- RequireExpression(expression);
      Ok(scenario.(given := scenario.given + [given]))
    case (None, None, Some(action)) =>
      if scenario.when_.Some? then Err(RepeatedWhen)
      else
        var when_ :- ParseWhen(action);
        Ok(scenario.(when_ := Some(when_)))
    case (None, None, None) =>
      match ParseRequirement(line)
      case None => Err(UnknownScenarioLine)
      case Some(parsed) =>
        var requirement :- parsed;
        Ok(scenario.(requirements := scenario.requirements + [requirement]))
  }

  function ParseSetupLine(setup: SetupClause, line: string): (r: Result<SetupClause, ErrorKind>)
    ensures r.Ok? ==> r.value.request == setup.request && r.value.name == setup.name
  {
    match StripPrefix(line, "when ")
    case Some(action) =>
      if setup.when_.Some? then Err(RepeatedWhen)
      else
        var when_ :- ParseWhen(action);
        Ok(setup.(when_ := Some(when_)))
    case None =>
      match ParseRequirement(line)
      case Some(parsed) =>
        var requirement :- parsed;
        Ok(setup.(requirements := setup.requirements + [requirement]))
      case None =>
        match StripPrefix(line, "capture ")
        case None => Err(UnknownSetupLine)
        case Some(value) =>
          var capture :- ParseCapture(value);
          Ok(setup.(captures := setup.captures + [capture]))
  }

  // ---------------------------------------------------------------------------
  // Captures and body lines

  const SELECTOR_PREFIX := "response.body."

  predicate IsSelectorPath(path: string) {
    forall piece <- SplitOn(path, '.') :: IsIdentifier(piece)
  }

  function ParseCapture(value: string): Result<CaptureClause, ErrorKind> {
    match SplitOnce(value, '=')
    case None => Err(CaptureShape)
    case Some((name, selector)) =>
      var name :- ParseIdentifier(Trim(name));
      match StripPrefix(Trim(selector), SELECTOR_PREFIX)
      case None => Err(CapturePrefix)
      case Some(path) =>
        if IsSelectorPath(path) then Ok(CaptureClause(name, "body." + path)) else Err(CapturePath)
  }

  function ParseBodyLine(fields: seq<BodyField>, line: string): Result<seq<BodyField>, ErrorKind> {
    match SplitOnce(line, '=')
    case None => Err(BodyFieldExpected)
    case Some((name, rawValue)) =>
      var name := Trim(name);
      if !IsIdentifier(name) then Err(BodyFieldName)
      else if HasField(fields, name) then Err(BodyFieldDuplicated(name))
      else
        var value :- ParseLiteral(Trim(rawValue));
        Ok(fields + [BodyField(name, value)])
  }
}
