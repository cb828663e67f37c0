/** The flat machine runs through a block exactly as the recursive descent reads it. */
module BlockRefinement {
  import opened Text
  import opened Ast
  import opened BracketScanner
  import opened ClauseLines
  import opened BlockMachine
  import opened BlockGrammar
  import StringCodec

  // ---------------------------------------------------------------------------
  // What is left to run once a block has been read

  /** The run after a step with the given outcome. */
  function Stored(outcome: Outcome, rest: seq<Numbered>, last: nat): Outcome {
    match outcome
    case Running(next) => Run(rest, next, last)
    case decided => decided
  }

  function AfterEntry(read: Read<string>, st: State, owner: BodyOwner, start: nat, last: nat): Outcome {
    match read
    case Bad(error) => Rejected(error)
    case Read(value, rest) => Stored(Store(st, owner, value, start), rest, last)
  }

  function AfterBody(read: Read<seq<BodyField>>, st: State, owner: BodyOwner, last: nat): Outcome {
    match read
    case Bad(error) => Rejected(error)
    case Read(body, rest) => Run(rest, WithBody(st, owner, body).(bodyOwner := None), last)
  }

  function AfterSetup(read: Read<SetupClause>, st: State, last: nat): Outcome {
    match read
    case Bad(error) => Rejected(error)
    case Read(setup, rest) => Run(rest, CloseSetup(st, setup), last)
  }

  function AfterScenario(read: Read<Scenario>, spec: Specification, last: nat): Outcome {
    match read
    case Bad(error) => Rejected(error)
    case Read(scenario, rest) => Run(rest, Open(Add(spec, ScenarioItem(scenario))), last)
  }

  function AfterItem(read: Read<Item>, spec: Specification, last: nat): Outcome {
    match read
    case Bad(error) => Rejected(error)
    case Read(item, rest) => Run(rest, Open(Add(spec, item)), last)
  }

  /** The machine between two items of a specification. */
  function Open(spec: Specification): State { INITIAL.(specification := Some(spec)) }

  function WithBody(st: State, owner: BodyOwner, fields: seq<BodyField>): State {
    match owner
    case ScenarioBody =>
      if st.scenario.None? then st
      else st.(scenario := Some(st.scenario.value.(request := Some(RequestClause(fields)))))
    case SetupBody =>
      if st.setup.None? then st
      else st.(setup := Some(st.setup.value.(request := Some(RequestClause(fields)))))
  }

  function CloseSetup(st: State, setup: SetupClause): State {
    if st.scenario.None? then st
    else st.(setup := None, scenario := Some(st.scenario.value.(setups := st.scenario.value.setups + [setup])))
  }

  // ---------------------------------------------------------------------------
  // Request bodies

  /** The state inside a body, with the fields read so far. */
  predicate InBody(st: State, owner: BodyOwner, fields: seq<BodyField>) {
    && Invariant(st) && st.bodyOwner == Some(owner) && st.pending.None?
    && Body(st, owner) == fields
  }

  function Body(st: State, owner: BodyOwner): seq<BodyField>
    requires Invariant(st) && st.bodyOwner == Some(owner)
  {
    match owner
    case ScenarioBody => st.scenario.value.request.value.body
    case SetupBody => st.setup.value.request.value.body
  }

  lemma StoreAppends(st: State, owner: BodyOwner, text: string, n: nat)
    requires Invariant(st) && st.bodyOwner == Some(owner)
    ensures Store(st, owner, text, n) == match ParseBodyLine(Body(st, owner), text)
      case Err(kind) => Fail(n, kind)
      case Ok(fields) => Running(WithBody(st, owner, fields))
  {
  }

  /** A run with an unfinished value goes on as the entry is read. */
  lemma {:induction false} RunPending(
      lines: seq<Numbered>, st: State, owner: BodyOwner, text: string, start: nat, last: nat)
    requires Invariant(st) && st.bodyOwner == Some(owner) && st.pending == Some(Pending(text, start))
    requires !IsComplete(text)
    ensures Run(lines, st, last) == AfterEntry(ReadEntry(text, start, lines), st.(pending := None), owner, start, last)
    decreases |lines|
  {
    if lines != [] {
      var value := text + " " + lines[0].text;
      if !IsComplete(value) {
        RunPending(lines[1..], st.(pending := Some(Pending(value, start))), owner, value, start, last);
      }
    }
  }

  /** One body entry, on as many lines as it takes. */
  lemma RunEntry(lines: seq<Numbered>, st: State, owner: BodyOwner, last: nat)
    requires Invariant(st) && st.bodyOwner == Some(owner) && st.pending.None?
    requires lines != [] && lines[0].text != "}"
    ensures Run(lines, st, last)
         == AfterEntry(ReadEntry(lines[0].text, lines[0].line, lines[1..]), st, owner, lines[0].line, last)
  {
    var text, start := lines[0].text, lines[0].line;
    if !IsComplete(text) {
      var next := st.(pending := Some(Pending(text, start)));
      RunPending(lines[1..], next, owner, text, start, last);
      assert next.(pending := None) == st;
    }
  }

  lemma {:induction false} RunBody(lines: seq<Numbered>, st: State, owner: BodyOwner, fields: seq<BodyField>, last: nat)
    requires InBody(st, owner, fields)
    ensures Run(lines, st, last) == AfterBody(ReadBody(lines, fields, last), st, owner, last)
    decreases |lines|
  {
    if lines == [] {
    } else if lines[0].text == "}" {
      assert WithBody(st, owner, fields) == st;
    } else {
      RunEntry(lines, st, owner, last);
      match ReadEntry(lines[0].text, lines[0].line, lines[1..])
      case Bad(_) =>
      case Read(text, rest) =>
        StoreAppends(st, owner, text, lines[0].line);
        match ParseBodyLine(fields, text)
        case Err(_) =>
        case Ok(more) =>
          RunBody(rest, WithBody(st, owner, more), owner, more, last);
    }
  }

  // ---------------------------------------------------------------------------
  // Setups and scenarios

  function InScenario(spec: Specification, scenario: Scenario): State {
    Open(spec).(scenario := Some(scenario))
  }

  function InSetup(spec: Specification, scenario: Scenario, setup: SetupClause): State {
    InScenario(spec, scenario).(setup := Some(setup))
  }

  lemma {:induction false} RunSetup(
      lines: seq<Numbered>, spec: Specification, scenario: Scenario, setup: SetupClause, last: nat)
    ensures Run(lines, InSetup(spec, scenario, setup), last)
         == AfterSetup(ReadSetup(lines, setup, last), InSetup(spec, scenario, setup), last)
    decreases |lines|
  {
    if lines == [] || lines[0].text == "}" {
    } else if lines[0].text == "given body {" {
      if setup.request.None? {
        var opened_ := setup.(request := Some(RequestClause([])));
        var next := InSetup(spec, scenario, opened_).(bodyOwner := Some(SetupBody));
        RunBody(lines[1..], next, SetupBody, [], last);
        match ReadBody(lines[1..], [], last)
        case Bad(_) =>
        case Read(body, rest) =>
          RunSetup(rest, spec, scenario, setup.(request := Some(RequestClause(body))), last);
      }
    } else {
      match ParseSetupLine(setup, lines[0].text)
      case Err(_) =>
      case Ok(changed) => RunSetup(lines[1..], spec, scenario, changed, last);
    }
  }

  lemma {:induction false} RunScenario(lines: seq<Numbered>, spec: Specification, scenario: Scenario, last: nat)
    ensures Run(lines, InScenario(spec, scenario), last)
      == AfterScenario(ReadScenario(lines, scenario, last), spec, last)
    decreases |lines|, 1
  {
    if lines == [] || lines[0].text == "}" {
    } else if StripPrefix(lines[0].text, "setup ").Some? {
      RunScenarioSetup(lines, spec, scenario, last);
    } else if lines[0].text == "given body {" {
      RunScenarioBody(lines, spec, scenario, last);
    } else {
      match ParseScenarioLine(scenario, lines[0].text)
      case Err(_) =>
      case Ok(changed) => RunScenario(lines[1..], spec, changed, last);
    }
  }

  lemma {:induction false} RunScenarioSetup(lines: seq<Numbered>, spec: Specification, scenario: Scenario, last: nat)
    requires lines != [] && lines[0].text != "}" && StripPrefix(lines[0].text, "setup ").Some?
    ensures Run(lines, InScenario(spec, scenario), last)
      == AfterScenario(ReadScenario(lines, scenario, last), spec, last)
    decreases |lines|, 0
  {
    hide ParseSetupHeader, ParseSetupLine, ParseScenarioLine, ParseBodyLine;
    match ParseSetupHeader(StripPrefix(lines[0].text, "setup ").value)
    case Err(_) =>
    case Ok(setup) =>
      RunSetup(lines[1..], spec, scenario, setup, last);
      match ReadSetup(lines[1..], setup, last)
      case Bad(_) =>
      case Read(finished, rest) =>
        RunScenario(rest, spec, scenario.(setups := scenario.setups + [finished]), last);
  }

  lemma {:induction false} RunScenarioBody(lines: seq<Numbered>, spec: Specification, scenario: Scenario, last: nat)
    requires lines != [] && lines[0].text == "given body {" && StripPrefix(lines[0].text, "setup ").None?
    ensures Run(lines, InScenario(spec, scenario), last)
      == AfterScenario(ReadScenario(lines, scenario, last), spec, last)
    decreases |lines|, 0
  {
    if scenario.request.None? {
      var opened_ := scenario.(request := Some(RequestClause([])));
      var next := InScenario(spec, opened_).(bodyOwner := Some(ScenarioBody));
      RunBody(lines[1..], next, ScenarioBody, [], last);
      match ReadBody(lines[1..], [], last)
      case Bad(_) =>
      case Read(body, rest) =>
        RunScenario(rest, spec, scenario.(request := Some(RequestClause(body))), last);
    }
  }

  // ---------------------------------------------------------------------------
  // Blocks of clause lines

  function InMutation(spec: Specification, mutation: MutationClause): State {
    Open(spec).(mutation := Some(mutation))
  }

  function InFixture(spec: Specification, fixture: FixtureClause): State {
    Open(spec).(fixture := Some(fixture))
  }

  function InProvenance(spec: Specification, provenance: ProvenanceClause): State {
    Open(spec).(provenance := Some(provenance))
  }

  function InIsolation(spec: Specification, isolation: IsolationClause): State {
    Open(spec).(isolation := Some(isolation))
  }

  lemma {:induction false} RunMutation(lines: seq<Numbered>, spec: Specification, mutation: MutationClause, last: nat)
    ensures Run(lines, InMutation(spec, mutation), last)
         == AfterItem(Wrap(ReadMutation(lines, mutation, last), x => MutationItem(x)), spec, last)
    decreases |lines|
  {
    if lines != [] && lines[0].text != "}" {
      match ParseMutationLine(mutation, lines[0].text)
      case Err(_) =>
      case Ok(changed) => RunMutation(lines[1..], spec, changed, last);
    }
  }

  lemma {:induction false} RunFixture(lines: seq<Numbered>, spec: Specification, fixture: FixtureClause, last: nat)
    ensures Run(lines, InFixture(spec, fixture), last)
         == AfterItem(Wrap(ReadFixture(lines, fixture, last), x => FixtureItem(x)), spec, last)
    decreases |lines|
  {
    if lines != [] && lines[0].text != "}" {
      match ParseFixtureLine(fixture, lines[0].text)
      case Err(_) =>
      case Ok(changed) => RunFixture(lines[1..], spec, changed, last);
    }
  }

  lemma {:induction false} RunProvenance(
      lines: seq<Numbered>, spec: Specification, provenance: ProvenanceClause, last: nat)
    ensures Run(lines, InProvenance(spec, provenance), last)
         == AfterItem(Wrap(ReadProvenance(lines, provenance, last), x => ProvenanceItem(x)), spec, last)
    decreases |lines|
  {
    if lines != [] && lines[0].text != "}" {
      match ParseProvenanceLine(provenance, lines[0].text)
      case Err(_) =>
      case Ok(changed) => RunProvenance(lines[1..], spec, changed, last);
    }
  }

  lemma {:induction false} RunIsolation(
      lines: seq<Numbered>, spec: Specification, isolation: IsolationClause, last: nat)
    ensures Run(lines, InIsolation(spec, isolation), last)
         == AfterItem(Wrap(ReadIsolation(lines, isolation, last), x => IsolationItem(x)), spec, last)
    decreases |lines|
  {
    if lines != [] && lines[0].text != "}" {
      match ParseIsolationLine(isolation, lines[0].text)
      case Err(_) =>
      case Ok(changed) => RunIsolation(lines[1..], spec, changed, last);
    }
  }

  // ---------------------------------------------------------------------------
  // The specification

  function SeenIn(spec: Specification): Seen {
    Seen(spec.subject.Some?, spec.provenance.Some?, spec.isolation.Some?)
  }

  lemma RunScenarioItem(lines: seq<Numbered>, spec: Specification, header: string, last: nat)
    requires lines != [] && Classify(lines[0].text) == ScenarioLine(header)
    ensures Run(lines, Open(spec), last) == AfterItem(ReadItem(lines[0], lines[1..], SeenIn(spec), last), spec, last)
  {
    hide ParseScenarioHeader, ParseMutationHeader, ParseFixtureHeader, Classify, StringCodec.ParseQuoted;
    if ParseScenarioHeader(header).Ok? {
      var scenario := ParseScenarioHeader(header).value;
      RunScenario(lines[1..], spec, scenario, last);
    }
  }

  lemma RunMutationItem(lines: seq<Numbered>, spec: Specification, header: string, last: nat)
    requires lines != [] && Classify(lines[0].text) == MutationLine(header)
    ensures Run(lines, Open(spec), last) == AfterItem(ReadItem(lines[0], lines[1..], SeenIn(spec), last), spec, last)
  {
    hide ParseScenarioHeader, ParseMutationHeader, ParseFixtureHeader, Classify, StringCodec.ParseQuoted;
    if ParseMutationHeader(header).Ok? {
      var mutation := ParseMutationHeader(header).value;
      RunMutation(lines[1..], spec, mutation, last);
    }
  }

  lemma RunFixtureItem(lines: seq<Numbered>, spec: Specification, header: string, last: nat)
    requires lines != [] && Classify(lines[0].text) == FixtureLine(header)
    ensures Run(lines, Open(spec), last) == AfterItem(ReadItem(lines[0], lines[1..], SeenIn(spec), last), spec, last)
  {
    hide ParseScenarioHeader, ParseMutationHeader, ParseFixtureHeader, Classify, StringCodec.ParseQuoted;
    if ParseFixtureHeader(header).Ok? {
      var fixture := ParseFixtureHeader(header).value;
      RunFixture(lines[1..], spec, fixture, last);
    }
  }

  lemma RunProvenanceItem(lines: seq<Numbered>, spec: Specification, last: nat)
    requires lines != [] && Classify(lines[0].text) == ProvenanceLine
    ensures Run(lines, Open(spec), last) == AfterItem(ReadItem(lines[0], lines[1..], SeenIn(spec), last), spec, last)
  {
    if spec.provenance.None? {
      RunProvenance(lines[1..], spec, ProvenanceClause([]), last);
    }
  }

  lemma RunIsolationItem(lines: seq<Numbered>, spec: Specification, last: nat)
    requires lines != [] && Classify(lines[0].text) == IsolationLine
    ensures Run(lines, Open(spec), last) == AfterItem(ReadItem(lines[0], lines[1..], SeenIn(spec), last), spec, last)
  {
    if spec.isolation.None? {
      var isolation := IsolationClause(PerScenario, None);
      RunIsolation(lines[1..], spec, isolation, last);
    }
  }

  lemma RunOtherItem(lines: seq<Numbered>, spec: Specification, last: nat)
    requires lines != [] && (Classify(lines[0].text).SubjectLine? || Classify(lines[0].text).OtherLine?)
    ensures Run(lines, Open(spec), last) == AfterItem(ReadItem(lines[0], lines[1..], SeenIn(spec), last), spec, last)
  {
  }

  /** One item of the specification, from its first line to its last. */
  lemma RunItem(lines: seq<Numbered>, spec: Specification, last: nat)
    requires lines != [] && !Classify(lines[0].text).CloseLine?
    ensures Run(lines, Open(spec), last) == AfterItem(ReadItem(lines[0], lines[1..], SeenIn(spec), last), spec, last)
  {
    match Classify(lines[0].text)
    case ScenarioLine(header) => RunScenarioItem(lines, spec, header, last);
    case MutationLine(header) => RunMutationItem(lines, spec, header, last);
    case FixtureLine(header) => RunFixtureItem(lines, spec, header, last);
    case ProvenanceLine => RunProvenanceItem(lines, spec, last);
    case IsolationLine => RunIsolationItem(lines, spec, last);
    case _ => RunOtherItem(lines, spec, last);
  }

  lemma {:induction false} RunItems(lines: seq<Numbered>, spec: Specification, last: nat)
    ensures Run(lines, Open(spec), last) == match ReadItems(lines, SeenIn(spec), last)
      case Err(error) => Rejected(error)
      case Ok(items) => Accepted(Assemble(spec, items))
    decreases |lines|
  {
    hide Run, Classify, ReadItem, Note, SeenIn, Assemble;
    if lines == [] || Classify(lines[0].text).CloseLine? {
      RunEnd(lines, spec, last);
    } else {
      RunItem(lines, spec, last);
      match ReadItem(lines[0], lines[1..], SeenIn(spec), last)
      case Bad(_) =>
      case Read(item, rest) =>
        RunItems(rest, Add(spec, item), last);
        SeenNext(spec, item);
        forall items: seq<Item> {
          AssembleNext(spec, item, items);
        }
    }
  }

  lemma RunEnd(lines: seq<Numbered>, spec: Specification, last: nat)
    requires lines == [] || Classify(lines[0].text).CloseLine?
    ensures Run(lines, Open(spec), last) == match ReadItems(lines, SeenIn(spec), last)
      case Err(error) => Rejected(error)
      case Ok(items) => Accepted(Assemble(spec, items))
  {
    hide ParseScenarioHeader, ParseMutationHeader, ParseFixtureHeader, ReadItem, StringCodec.ParseQuoted, Classify;
  }

  lemma SeenNext(spec: Specification, item: Item)
    ensures SeenIn(Add(spec, item)) == Note(SeenIn(spec), item)
  {
  }

  lemma AssembleNext(spec: Specification, item: Item, items: seq<Item>)
    ensures Assemble(spec, [item] + items) == Assemble(Add(spec, item), items)
  {
    assert ([item] + items)[1..] == items;
  }

  /** For every source text the flat machine and the recursive descent agree: the same specification,
  or the same error on the same line. */
  lemma MachineIsRecursiveDescent(source: string)
    ensures Parse(source) == match ReadSource(source)
      case Err(error) => Rejected(error)
      case Ok(spec) => Accepted(spec)
  {
    var lines := Significant(Lines(source), 1);
    var last := LastLine(Lines(source));
    if lines != [] {
      match ParseSpecHeader(lines[0].text)
      case Err(_) =>
      case Ok(header) => RunItems(lines[1..], header, last);
    }
  }

  /** What the machine accepts holds every block of the source, once and in source order, and nothing else. */
  lemma ParseKeepsEveryBlock(source: string) returns (header: Specification, items: seq<Item>)
    requires Parse(source).Accepted?
    ensures var lines := Significant(Lines(source), 1);
      && lines != [] && ParseSpecHeader(lines[0].text) == Ok(header)
      && ReadItems(lines[1..], Seen(false, false, false), LastLine(Lines(source))) == Ok(items)
    ensures var spec := Parse(source).specification;
      && spec.name == header.name && spec.version == header.version
      && spec.scenarios == ScenariosOf(items)
      && spec.mutations == MutationsOf(items)
      && spec.fixtures == FixturesOf(items)
      && (forall s :: spec.subject == Some(s) <==> SubjectItem(s) in items)
      && (forall p :: spec.provenance == Some(p) <==> ProvenanceItem(p) in items)
      && (forall i :: spec.isolation == Some(i) <==> IsolationItem(i) in items)
  {
    hide ReadItems, Assemble, Run, ParseSpecHeader, Significant, Lines, ScenariosOf, MutationsOf, FixturesOf, LastLine;
    MachineIsRecursiveDescent(source);
    var lines, last := Significant(Lines(source), 1), LastLine(Lines(source));
    header := ParseSpecHeader(lines[0].text).value;
    items := ReadItems(lines[1..], Seen(false, false, false), last).value;
    AssembleKeepsLists(header, items);
    AssembleKeepsSingles(lines[1..], Seen(false, false, false), last, header, items);
    AssembleAddsNothing(header, items);
  }
}
