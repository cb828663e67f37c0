/** `parse`: the line-driven block machine, its step function and its invariant. */
module BlockMachine {
  import opened Text
  import opened Ast
  import opened BracketScanner
  import StringCodec
  import opened ClauseLines

  datatype BodyOwner = ScenarioBody | SetupBody

  /** An unfinished body value and the line it began on. */
  datatype Pending = Pending(text: string, line: nat)

  /** The nine variables of the loop. */
  datatype State = State(
    specification: Option<Specification>,
    scenario: Option<Scenario>,
    setup: Option<SetupClause>,
    mutation: Option<MutationClause>,
    fixture: Option<FixtureClause>,
    provenance: Option<ProvenanceClause>,
    isolation: Option<IsolationClause>,
    bodyOwner: Option<BodyOwner>,
    pending: Option<Pending>)

  const INITIAL := State(None, None, None, None, None, None, None, None, None)

  /** `Panicked` is an `expect` that found nothing, `Orphaned` the error of `specification_mut`. */
  datatype Outcome =
    | Running(state: State)
    | Accepted(specification: Specification)
    | Rejected(error: ParseError)
    | Orphaned(line: nat)
    | Panicked

  function Fail(line: nat, kind: ErrorKind): Outcome { Rejected(ParseError(line, kind)) }

  // ---------------------------------------------------------------------------
  // One line, by the innermost open block

  function Step(st: State, line: string, n: nat): Outcome {
    if st.bodyOwner.Some? then StepBody(st, st.bodyOwner.value, line, n)
    else if st.setup.Some? then StepSetup(st, st.setup.value, line, n)
    else if st.mutation.Some? then StepMutation(st, st.mutation.value, line, n)
    else if st.fixture.Some? then StepFixture(st, st.fixture.value, line, n)
    else if st.provenance.Some? then StepProvenance(st, st.provenance.value, line, n)
    else if st.isolation.Some? then StepIsolation(st, st.isolation.value, line, n)
    else if st.scenario.Some? then StepScenario(st, st.scenario.value, line, n)
    else if st.specification.Some? then StepSpecification(st, st.specification.value, line, n)
    else
      match ParseSpecHeader(line)
      case Err(kind) => Fail(n, kind)
      case Ok(specification) => Running(st.(specification := Some(specification)))
  }

  /** Add a finished body value to the request of the block that owns the body. */
  function Store(st: State, owner: BodyOwner, text: string, n: nat): Outcome {
    match owner
    case ScenarioBody =>
      if st.scenario.None? || st.scenario.value.request.None? then Panicked
      else
        var scenario := st.scenario.value;
        (match ParseBodyLine(scenario.request.value.body, text)
         case Err(kind) => Fail(n, kind)
         case Ok(body) => Running(st.(scenario := Some(scenario.(request := Some(RequestClause(body)))))))
    case SetupBody =>
      if st.setup.None? || st.setup.value.request.None? then Panicked
      else
        var setup := st.setup.value;
        match ParseBodyLine(setup.request.value.body, text)
        case Err(kind) => Fail(n, kind)
        case Ok(body) => Running(st.(setup := Some(setup.(request := Some(RequestClause(body))))))
  }

  function StepBody(st: State, owner: BodyOwner, line: string, n: nat): Outcome {
    match st.pending
    case Some(Pending(text, start)) =>
      var value := text + " " + line;
      if IsComplete(value) then Store(st.(pending := None), owner, value, start)
      else Running(st.(pending := Some(Pending(value, start))))
    case None =>
      if line == "}" then Running(st.(bodyOwner := None))
      else if IsComplete(line) then Store(st, owner, line, n)
      else Running(st.(pending := Some(Pending(line, n))))
  }

  function StepSetup(st: State, setup: SetupClause, line: string, n: nat): Outcome {
    if line == "}" then
      if st.scenario.None? then Panicked
      else
        var scenario := st.scenario.value;
        Running(st.(setup := None, scenario := Some(scenario.(setups := scenario.setups + [setup]))))
    else if line == "given body {" then
      if setup.request.Some? then Fail(n, RepeatedBody)
      else Running(st.(setup := Some(setup.(request := Some(RequestClause([])))), bodyOwner := Some(SetupBody)))
    else
      match ParseSetupLine(setup, line)
      case Err(kind) => Fail(n, kind)
      case Ok(changed) => Running(st.(setup := Some(changed)))
  }

  function StepMutation(st: State, mutation: MutationClause, line: string, n: nat): Outcome {
    if line == "}" then
      if st.specification.None? then Orphaned(n)
      else
        var spec := st.specification.value;
        Running(st.(mutation := None, specification := Some(spec.(mutations := spec.mutations + [mutation]))))
    else
      match ParseMutationLine(mutation, line)
      case Err(kind) => Fail(n, kind)
      case Ok(changed) => Running(st.(mutation := Some(changed)))
  }

  function StepFixture(st: State, fixture: FixtureClause, line: string, n: nat): Outcome {
    if line == "}" then
      if st.specification.None? then Orphaned(n)
      else
        var spec := st.specification.value;
        Running(st.(fixture := None, specification := Some(spec.(fixtures := spec.fixtures + [fixture]))))
    else
      match ParseFixtureLine(fixture, line)
      case Err(kind) => Fail(n, kind)
      case Ok(changed) => Running(st.(fixture := Some(changed)))
  }

  function StepProvenance(st: State, provenance: ProvenanceClause, line: string, n: nat): Outcome {
    if line == "}" then
      if st.specification.None? then Orphaned(n)
      else Running(st.(provenance := None,
        specification := Some(st.specification.value.(provenance := Some(provenance)))))
    else
      match ParseProvenanceLine(provenance, line)
      case Err(kind) => Fail(n, kind)
      case Ok(changed) => Running(st.(provenance := Some(changed)))
  }

  function StepIsolation(st: State, isolation: IsolationClause, line: string, n: nat): Outcome {
    if line == "}" then
      if st.specification.None? then Orphaned(n)
      else Running(st.(isolation := None, specification := Some(st.specification.value.(isolation := Some(isolation)))))
    else
      match ParseIsolationLine(isolation, line)
      case Err(kind) => Fail(n, kind)
      case Ok(changed) => Running(st.(isolation := Some(changed)))
  }

  function StepScenario(st: State, scenario: Scenario, line: string, n: nat): Outcome {
    if line == "}" then
      if st.specification.None? then Orphaned(n)
      else
        var spec := st.specification.value;
        Running(st.(scenario := None, specification := Some(spec.(scenarios := spec.scenarios + [scenario]))))
    else
      match StripPrefix(line, "setup ")
      case Some(header) =>
        (match ParseSetupHeader(header)
         case Err(kind) => Fail(n, kind)
         case Ok(setup) => Running(st.(setup := Some(setup))))
      case None =>
        if line == "given body {" then
          if scenario.request.Some? then Fail(n, RepeatedBody)
          else Running(st.(scenario := Some(scenario.(request := Some(RequestClause([])))),
            bodyOwner := Some(ScenarioBody)))
        else
          match ParseScenarioLine(scenario, line)
          case Err(kind) => Fail(n, kind)
          case Ok(changed) => Running(st.(scenario := Some(changed)))
  }

  /** What a line directly inside the specification is. */
  datatype SpecificationLine =
    | CloseLine
    | SubjectLine(subject: string)
    | ScenarioLine(header: string)
    | MutationLine(header: string)
    | FixtureLine(header: string)
    | ProvenanceLine
    | IsolationLine
    | OtherLine

  function Classify(line: string): SpecificationLine {
    if line == "}" then CloseLine
    else if StripPrefix(line, "subject ").Some? then SubjectLine(StripPrefix(line, "subject ").value)
    else if StripPrefix(line, "scenario ").Some? then ScenarioLine(StripPrefix(line, "scenario ").value)
    else if StripPrefix(line, "mutation ").Some? then MutationLine(StripPrefix(line, "mutation ").value)
    else if StripPrefix(line, "fixture ").Some? then FixtureLine(StripPrefix(line, "fixture ").value)
    else if line == "provenance {" then ProvenanceLine
    else if line == "isolation per scenario {" then IsolationLine
    else OtherLine
  }

  function StepSpecification(st: State, spec: Specification, line: string, n: nat): Outcome {
    StepItem(st, spec, Classify(line), n)
  }

  function OpenScenario(st: State, parsed: Result<Scenario, ErrorKind>, n: nat): Outcome {
    match parsed
    case Err(kind) => Fail(n, kind)
    case Ok(scenario) => Running(st.(scenario := Some(scenario)))
  }

  function OpenMutation(st: State, parsed: Result<MutationClause, ErrorKind>, n: nat): Outcome {
    match parsed
    case Err(kind) => Fail(n, kind)
    case Ok(mutation) => Running(st.(mutation := Some(mutation)))
  }

  function OpenFixture(st: State, parsed: Result<FixtureClause, ErrorKind>, n: nat): Outcome {
    match parsed
    case Err(kind) => Fail(n, kind)
    case Ok(fixture) => Running(st.(fixture := Some(fixture)))
  }

  function SetSubject(st: State, spec: Specification, parsed: Result<string, ErrorKind>, n: nat): Outcome {
    match parsed
    case Err(kind) => Fail(n, kind)
    case Ok(subject) => Running(st.(specification := Some(spec.(subject := Some(subject)))))
  }

  function StepItem(st: State, spec: Specification, kind: SpecificationLine, n: nat): Outcome {
    match kind
    case CloseLine => Accepted(spec)
    case SubjectLine(text) =>
      if spec.subject.Some? then Fail(n, RepeatedSubject)
      else SetSubject(st, spec, StringCodec.ParseQuoted(text), n)
    case ScenarioLine(header) => OpenScenario(st, ParseScenarioHeader(header), n)
    case MutationLine(header) => OpenMutation(st, ParseMutationHeader(header), n)
    case FixtureLine(header) => OpenFixture(st, ParseFixtureHeader(header), n)
    case ProvenanceLine =>
      if spec.provenance.Some? then Fail(n, RepeatedProvenance)
      else Running(st.(provenance := Some(ProvenanceClause([]))))
    case IsolationLine =>
      if spec.isolation.Some? then Fail(n, RepeatedIsolation)
      else Running(st.(isolation := Some(IsolationClause(PerScenario, None))))
    case OtherLine => Fail(n, UnknownSpecificationLine)
  }

  // ---------------------------------------------------------------------------
  // Whole sources

  datatype Numbered = Numbered(text: string, line: nat)

  predicate IsSkipped(line: string) { line == "" || line[0] == '#' }

  /** The trimmed lines that are neither blank nor comments, with their numbers. */
  function Significant(lines: seq<string>, first: nat): seq<Numbered> {
    if lines == [] then []
    else
      var line := Trim(lines[0]);
      if IsSkipped(line) then Significant(lines[1..], first + 1)
      else [Numbered(line, first)] + Significant(lines[1..], first + 1)
  }

  /** The error for the end of the source. */
  function Finish(st: State, last: nat): ParseError {
    match st.pending
    case Some(Pending(_, start)) => ParseError(start, LiteralUnclosed)
    case None => ParseError(last,
      if st.mutation.Some? then MutationUnclosed
      else if st.fixture.Some? then FixtureUnclosed
      else if st.provenance.Some? then ProvenanceUnclosed
      else if st.isolation.Some? then IsolationUnclosed
      else if st.bodyOwner.Some? then BodyUnclosed
      else if st.setup.Some? then SetupUnclosed
      else if st.scenario.Some? then ScenarioUnclosed
      else SpecificationUnclosed)
  }

  function Run(lines: seq<Numbered>, st: State, last: nat): Outcome {
    if lines == [] then Rejected(Finish(st, last))
    else match Step(st, lines[0].text, lines[0].line)
      case Running(next) => Run(lines[1..], next, last)
      case outcome => outcome
  }

  function LastLine(lines: seq<string>): nat { if |lines| == 0 then 1 else |lines| }

  function Parse(source: string): Outcome {
    var lines := Lines(source);
    Run(Significant(lines, 1), INITIAL, LastLine(lines))
  }

  // ---------------------------------------------------------------------------
  // The invariant

  function Count(b: bool): nat { if b then 1 else 0 }

  predicate Invariant(st: State) {
    && (st.bodyOwner == Some(ScenarioBody) ==> st.scenario.Some? && st.scenario.value.request.Some? && st.setup.None?)
    && (st.bodyOwner == Some(SetupBody) ==> st.setup.Some? && st.setup.value.request.Some?)
    && (st.pending.Some? ==> st.bodyOwner.Some?)
    && (st.setup.Some? ==> st.scenario.Some?)
    && Count(st.scenario.Some?) + Count(st.mutation.Some?) + Count(st.fixture.Some?)
       + Count(st.provenance.Some?) + Count(st.isolation.Some?) <= Count(st.specification.Some?)
    && (st.provenance.Some? ==> st.specification.value.provenance.None?)
    && (st.isolation.Some? ==> st.specification.value.isolation.None?)
  }

  /** No panic, no error of `specification_mut`, and the invariant again if the machine goes on. */
  predicate IsSound(outcome: Outcome) {
    && !outcome.Panicked? && !outcome.Orphaned?
    && (outcome.Running? ==> Invariant(outcome.state))
  }

  lemma StoreIsSound(st: State, owner: BodyOwner, text: string, n: nat)
    requires Invariant(st) && st.bodyOwner == Some(owner)
    ensures IsSound(Store(st, owner, text, n))
  {
  }

  lemma StepBodyIsSound(st: State, line: string, n: nat)
    requires Invariant(st) && st.bodyOwner.Some?
    ensures IsSound(StepBody(st, st.bodyOwner.value, line, n))
  {
    match st.pending
    case Some(Pending(text, start)) => StoreIsSound(st.(pending := None), st.bodyOwner.value, text + " " + line, start);
    case None => StoreIsSound(st, st.bodyOwner.value, line, n);
  }

  lemma StepSetupIsSound(st: State, line: string, n: nat)
    requires Invariant(st) && st.bodyOwner.None? && st.setup.Some?
    ensures IsSound(StepSetup(st, st.setup.value, line, n))
  {
  }

  lemma StepMutationIsSound(st: State, line: string, n: nat)
    requires Invariant(st) && st.bodyOwner.None? && st.mutation.Some?
    ensures IsSound(StepMutation(st, st.mutation.value, line, n))
  {
  }

  lemma StepFixtureIsSound(st: State, line: string, n: nat)
    requires Invariant(st) && st.bodyOwner.None? && st.fixture.Some?
    ensures IsSound(StepFixture(st, st.fixture.value, line, n))
  {
  }

  lemma StepProvenanceIsSound(st: State, line: string, n: nat)
    requires Invariant(st) && st.bodyOwner.None? && st.provenance.Some?
    ensures IsSound(StepProvenance(st, st.provenance.value, line, n))
  {
  }

  lemma StepIsolationIsSound(st: State, line: string, n: nat)
    requires Invariant(st) && st.bodyOwner.None? && st.isolation.Some?
    ensures IsSound(StepIsolation(st, st.isolation.value, line, n))
  {
  }

  lemma StepScenarioIsSound(st: State, line: string, n: nat)
    requires Invariant(st) && st.bodyOwner.None? && st.setup.None? && st.scenario.Some?
    ensures IsSound(StepScenario(st, st.scenario.value, line, n))
  {
  }

  lemma StepSpecificationIsSound(st: State, line: string, n: nat)
    requires Invariant(st) && st.bodyOwner.None? && st.specification.Some?
    requires st.scenario.None? && st.mutation.None? && st.fixture.None? && st.provenance.None? && st.isolation.None?
    ensures IsSound(StepSpecification(st, st.specification.value, line, n))
  {
    hide ParseScenarioHeader, ParseMutationHeader, ParseFixtureHeader, Classify, StringCodec.ParseQuoted;
  }

  /** No step from a state the invariant describes panics, errs in `specification_mut` or leaves it. */
  lemma StepIsSound(st: State, line: string, n: nat)
    requires Invariant(st)
    ensures IsSound(Step(st, line, n))
  {
    if st.bodyOwner.Some? {
      StepBodyIsSound(st, line, n);
    } else if st.setup.Some? {
      StepSetupIsSound(st, line, n);
    } else if st.mutation.Some? {
      StepMutationIsSound(st, line, n);
    } else if st.fixture.Some? {
      StepFixtureIsSound(st, line, n);
    } else if st.provenance.Some? {
      StepProvenanceIsSound(st, line, n);
    } else if st.isolation.Some? {
      StepIsolationIsSound(st, line, n);
    } else if st.scenario.Some? {
      StepScenarioIsSound(st, line, n);
    } else if st.specification.Some? {
      StepSpecificationIsSound(st, line, n);
    }
  }

  lemma {:induction false} RunIsSound(lines: seq<Numbered>, st: State, last: nat)
    requires Invariant(st)
    ensures IsSound(Run(lines, st, last)) && !Run(lines, st, last).Running?
  {
    if lines != [] {
      StepIsSound(st, lines[0].text, lines[0].line);
      match Step(st, lines[0].text, lines[0].line)
      case Running(next) => RunIsSound(lines[1..], next, last);
      case _ =>
    }
  }

  /** On every source text no `expect` fires and `specification_mut` never errs. */
  lemma ParseNeverPanics(source: string)
    ensures Parse(source).Accepted? || Parse(source).Rejected?
  {
    RunIsSound(Significant(Lines(source), 1), INITIAL, LastLine(Lines(source)));
  }
}
