/** An independent reading of a Malcolm source: a recursive descent over its nested blocks that keeps
every block it meets, and the proof that the flat block machine computes exactly this. */
module BlockGrammar {
  import opened Text
  import opened Ast
  import opened BracketScanner
  import opened ClauseLines
  import opened BlockMachine
  import StringCodec

  /** A block read to its closing brace and the lines after it, or the first error. */
  datatype Read<+T> = Read(value: T, rest: seq<Numbered>) | Bad(error: ParseError) {
    predicate IsFailure() { Bad? }

    function PropagateFailure<U>(): Read<U>
      requires Bad?
    {
      Bad(error)
    }

    function Extract(): (T, seq<Numbered>)
      requires Read?
    {
      (value, rest)
    }
  }

  function At<T>(line: nat, parsed: Result<T, ErrorKind>): Result<T, ParseError> {
    match parsed
    case Ok(value) => Ok(value)
    case Err(kind) => Err(ParseError(line, kind))
  }

  // ---------------------------------------------------------------------------
  // Request bodies

  /** Join lines with spaces until the scanner judges the text complete. */
  function ReadEntry(text: string, start: nat, lines: seq<Numbered>): (r: Read<string>)
    ensures r.Read? ==> |r.rest| <= |lines|
    decreases |lines|
  {
    if IsComplete(text) then Read(text, lines)
    else if lines == [] then Bad(ParseError(start, LiteralUnclosed))
    else ReadEntry(text + " " + lines[0].text, start, lines[1..])
  }

  function ReadBody(lines: seq<Numbered>, fields: seq<BodyField>, last: nat): (r: Read<seq<BodyField>>)
    ensures r.Read? ==> |r.rest| < |lines|
    decreases |lines|
  {
    if lines == [] then Bad(ParseError(last, BodyUnclosed))
    else if lines[0].text == "}" then Read(fields, lines[1..])
    else
      var (text, rest) :- ReadEntry(lines[0].text, lines[0].line, lines[1..]);
      match ParseBodyLine(fields, text)
      case Err(kind) => Bad(ParseError(lines[0].line, kind))
      case Ok(more) => ReadBody(rest, more, last)
  }

  // ---------------------------------------------------------------------------
  // Setups and scenarios

  function ReadSetup(lines: seq<Numbered>, setup: SetupClause, last: nat): (r: Read<SetupClause>)
    ensures r.Read? ==> |r.rest| < |lines|
    decreases |lines|
  {
    if lines == [] then Bad(ParseError(last, SetupUnclosed))
    else if lines[0].text == "}" then Read(setup, lines[1..])
    else if lines[0].text == "given body {" then
      if setup.request.Some? then Bad(ParseError(lines[0].line, RepeatedBody))
      else
        var (body, rest) :- ReadBody(lines[1..], [], last);
        ReadSetup(rest, setup.(request := Some(RequestClause(body))), last)
    else
      match ParseSetupLine(setup, lines[0].text)
      case Err(kind) => Bad(ParseError(lines[0].line, kind))
      case Ok(changed) => ReadSetup(lines[1..], changed, last)
  }

  function ReadScenario(lines: seq<Numbered>, scenario: Scenario, last: nat): (r: Read<Scenario>)
    ensures r.Read? ==> |r.rest| < |lines|
    decreases |lines|
  {
    if lines == [] then Bad(ParseError(last, ScenarioUnclosed))
    else if lines[0].text == "}" then Read(scenario, lines[1..])
    else
      match StripPrefix(lines[0].text, "setup ")
      case Some(header) =>
        (match ParseSetupHeader(header)
         case Err(kind) => Bad(ParseError(lines[0].line, kind))
         case Ok(opened_) =>
           var (setup, rest) :- ReadSetup(lines[1..], opened_, last);
           ReadScenario(rest, scenario.(setups := scenario.setups + [setup]), last))
      case None =>
        if lines[0].text == "given body {" then
          if scenario.request.Some? then Bad(ParseError(lines[0].line, RepeatedBody))
          else
            var (body, rest) :- ReadBody(lines[1..], [], last);
            ReadScenario(rest, scenario.(request := Some(RequestClause(body))), last)
        else
          match ParseScenarioLine(scenario, lines[0].text)
          case Err(kind) => Bad(ParseError(lines[0].line, kind))
          case Ok(changed) => ReadScenario(lines[1..], changed, last)
  }

  // ---------------------------------------------------------------------------
  // Blocks whose lines are all clauses

  /** Read clause lines up to the closing brace, with the parser of one line as a parameter. */
  function ReadClauses<T>(
    lines: seq<Numbered>, block: T, parse: (T, string) -> Result<T, ErrorKind>, unclosed: ErrorKind, last: nat)
    : (r: Read<T>)
    ensures r.Read? ==> |r.rest| < |lines|
    decreases |lines|
  {
    if lines == [] then Bad(ParseError(last, unclosed))
    else if lines[0].text == "}" then Read(block, lines[1..])
    else
      match parse(block, lines[0].text)
      case Err(kind) => Bad(ParseError(lines[0].line, kind))
      case Ok(changed) => ReadClauses(lines[1..], changed, parse, unclosed, last)
  }

  function ReadMutation(lines: seq<Numbered>, mutation: MutationClause, last: nat): (r: Read<MutationClause>)
    ensures r.Read? ==> |r.rest| < |lines|
  {
    ReadClauses(lines, mutation, ParseMutationLine, MutationUnclosed, last)
  }

  function ReadFixture(lines: seq<Numbered>, fixture: FixtureClause, last: nat): (r: Read<FixtureClause>)
    ensures r.Read? ==> |r.rest| < |lines|
  {
    ReadClauses(lines, fixture, ParseFixtureLine, FixtureUnclosed, last)
  }

  function ReadProvenance(lines: seq<Numbered>, provenance: ProvenanceClause, last: nat): (r: Read<ProvenanceClause>)
    ensures r.Read? ==> |r.rest| < |lines|
  {
    ReadClauses(lines, provenance, ParseProvenanceLine, ProvenanceUnclosed, last)
  }

  function ReadIsolation(lines: seq<Numbered>, isolation: IsolationClause, last: nat): (r: Read<IsolationClause>)
    ensures r.Read? ==> |r.rest| < |lines|
  {
    ReadClauses(lines, isolation, ParseIsolationLine, IsolationUnclosed, last)
  }

  // ---------------------------------------------------------------------------
  // The specification: a header and a list of items

  datatype Item =
    | SubjectItem(subject: string)
    | ScenarioItem(scenario: Scenario)
    | MutationItem(mutation: MutationClause)
    | FixtureItem(fixture: FixtureClause)
    | ProvenanceItem(provenance: ProvenanceClause)
    | IsolationItem(isolation: IsolationClause)

  /** Which of the items allowed once have been read. */
  datatype Seen = Seen(subject: bool, provenance: bool, isolation: bool)

  function Note(seen: Seen, item: Item): Seen {
    match item
    case SubjectItem(_) => seen.(subject := true)
    case ProvenanceItem(_) => seen.(provenance := true)
    case IsolationItem(_) => seen.(isolation := true)
    case _ => seen
  }

  function Wrap<T>(read: Read<T>, item: T -> Item): (r: Read<Item>)
    ensures r.Read? <==> read.Read?
    ensures r.Read? ==> r.rest == read.rest
  {
    var (value, rest) :- read;
    Read(item(value), rest)
  }

  /** One item that begins on the given line. */
  function ReadItem(line: Numbered, lines: seq<Numbered>, seen: Seen, last: nat): (r: Read<Item>)
    requires !Classify(line.text).CloseLine?
    ensures r.Read? ==> |r.rest| <= |lines|
  {
    match Classify(line.text)
    case SubjectLine(text) =>
      if seen.subject then Bad(ParseError(line.line, RepeatedSubject))
      else (
        match StringCodec.ParseQuoted(text)
        case Err(kind) => Bad(ParseError(line.line, kind))
        case Ok(subject) => Read(SubjectItem(subject), lines))
    case ScenarioLine(header) => (
      match ParseScenarioHeader(header)
      case Err(kind) => Bad(ParseError(line.line, kind))
      case Ok(scenario) => Wrap(ReadScenario(lines, scenario, last), s => ScenarioItem(s)))
    case MutationLine(header) => (
      match ParseMutationHeader(header)
      case Err(kind) => Bad(ParseError(line.line, kind))
      case Ok(mutation) => Wrap(ReadMutation(lines, mutation, last), m => MutationItem(m)))
    case FixtureLine(header) => (
      match ParseFixtureHeader(header)
      case Err(kind) => Bad(ParseError(line.line, kind))
      case Ok(fixture) => Wrap(ReadFixture(lines, fixture, last), f => FixtureItem(f)))
    case ProvenanceLine =>
      if seen.provenance then Bad(ParseError(line.line, RepeatedProvenance))
      else Wrap(ReadProvenance(lines, ProvenanceClause([]), last), p => ProvenanceItem(p))
    case IsolationLine =>
      if seen.isolation then Bad(ParseError(line.line, RepeatedIsolation))
      else Wrap(ReadIsolation(lines, IsolationClause(PerScenario, None), last), i => IsolationItem(i))
    case OtherLine => Bad(ParseError(line.line, UnknownSpecificationLine))
  }

  /** The items up to the brace that closes the specification; what follows it is not read. */
  function ReadItems(lines: seq<Numbered>, seen: Seen, last: nat): Result<seq<Item>, ParseError>
    decreases |lines|
  {
    if lines == [] then Err(ParseError(last, SpecificationUnclosed))
    else if Classify(lines[0].text).CloseLine? then Ok([])
    else match ReadItem(lines[0], lines[1..], seen, last)
      case Bad(error) => Err(error)
      case Read(item, rest) =>
        var items :- ReadItems(rest, Note(seen, item), last);
        Ok([item] + items)
  }

  /** A source: the items of its specification put together in the order they were read. */
  function ReadSource(source: string): Result<Specification, ParseError> {
    var lines := Significant(Lines(source), 1);
    var last := LastLine(Lines(source));
    if lines == [] then Err(ParseError(last, SpecificationUnclosed))
    else
      var header :- At(lines[0].line, ParseSpecHeader(lines[0].text));
      var items :- ReadItems(lines[1..], Seen(false, false, false), last);
      Ok(Assemble(header, items))
  }

  function Add(spec: Specification, item: Item): Specification {
    match item
    case SubjectItem(subject) => spec.(subject := Some(subject))
    case ScenarioItem(scenario) => spec.(scenarios := spec.scenarios + [scenario])
    case MutationItem(mutation) => spec.(mutations := spec.mutations + [mutation])
    case FixtureItem(fixture) => spec.(fixtures := spec.fixtures + [fixture])
    case ProvenanceItem(provenance) => spec.(provenance := Some(provenance))
    case IsolationItem(isolation) => spec.(isolation := Some(isolation))
  }

  function Assemble(spec: Specification, items: seq<Item>): Specification
    decreases |items|
  {
    if items == [] then spec else Assemble(Add(spec, items[0]), items[1..])
  }

  // ---------------------------------------------------------------------------
  // Nothing read is lost, reordered or overwritten

  function ScenariosOf(items: seq<Item>): seq<Scenario> {
    if items == [] then []
    else (if items[0].ScenarioItem? then [items[0].scenario] else []) + ScenariosOf(items[1..])
  }

  function MutationsOf(items: seq<Item>): seq<MutationClause> {
    if items == [] then []
    else (if items[0].MutationItem? then [items[0].mutation] else []) + MutationsOf(items[1..])
  }

  function FixturesOf(items: seq<Item>): seq<FixtureClause> {
    if items == [] then []
    else (if items[0].FixtureItem? then [items[0].fixture] else []) + FixturesOf(items[1..])
  }

  predicate KeepsLists(r: Specification, spec: Specification, items: seq<Item>) {
    && r.name == spec.name && r.version == spec.version
    && r.scenarios == spec.scenarios + ScenariosOf(items)
    && r.mutations == spec.mutations + MutationsOf(items)
    && r.fixtures == spec.fixtures + FixturesOf(items)
  }

  lemma Associate<T>(a: seq<T>, b: seq<T>, c: seq<T>)
    ensures a + b + c == a + (b + c) && a + [] == a
  {
  }

  lemma NoItems(spec: Specification)
    ensures KeepsLists(spec, spec, [])
  {
  }

  lemma OneItemMore(r: Specification, spec: Specification, item: Item, items: seq<Item>)
    requires KeepsLists(r, Add(spec, item), items)
    ensures KeepsLists(r, spec, [item] + items)
  {
    assert ([item] + items)[1..] == items;
    hide ScenariosOf, MutationsOf, FixturesOf;
    match item
    case ScenarioItem(x) => ListsOf(item, items); Associate(spec.scenarios, [x], ScenariosOf(items));
    case MutationItem(x) => ListsOf(item, items); Associate(spec.mutations, [x], MutationsOf(items));
    case FixtureItem(x) => ListsOf(item, items); Associate(spec.fixtures, [x], FixturesOf(items));
    case _ => ListsOf(item, items);
  }

  lemma ListsOf(item: Item, items: seq<Item>)
    ensures ScenariosOf([item] + items)
      == if item.ScenarioItem? then [item.scenario] + ScenariosOf(items) else ScenariosOf(items)
    ensures MutationsOf([item] + items)
      == if item.MutationItem? then [item.mutation] + MutationsOf(items) else MutationsOf(items)
    ensures FixturesOf([item] + items)
      == if item.FixtureItem? then [item.fixture] + FixturesOf(items) else FixturesOf(items)
  {
    assert ([item] + items)[1..] == items;
  }

  /** Every scenario, mutation and fixture of the source is in the result, once and in source order. */
  lemma {:induction false} AssembleKeepsLists(spec: Specification, items: seq<Item>)
    ensures KeepsLists(Assemble(spec, items), spec, items)
    decreases |items|
  {
    hide Add, KeepsLists;
    if items == [] {
      NoItems(spec);
    } else {
      AssembleKeepsLists(Add(spec, items[0]), items[1..]);
      OneItemMore(Assemble(spec, items), spec, items[0], items[1..]);
      assert [items[0]] + items[1..] == items;
    }
  }

  /** An item allowed once is read at most once, so the value in the result is the one in the source. */
  lemma {:induction false} AssembleKeepsSingles(
      lines: seq<Numbered>, seen: Seen, last: nat, spec: Specification, items: seq<Item>)
    requires ReadItems(lines, seen, last) == Ok(items)
    requires seen == Seen(spec.subject.Some?, spec.provenance.Some?, spec.isolation.Some?)
    ensures var r := Assemble(spec, items);
      && (forall s :: SubjectItem(s) in items ==> r.subject == Some(s))
      && (forall p :: ProvenanceItem(p) in items ==> r.provenance == Some(p))
      && (forall i :: IsolationItem(i) in items ==> r.isolation == Some(i))
      && (seen.subject ==> r.subject == spec.subject)
      && (seen.provenance ==> r.provenance == spec.provenance)
      && (seen.isolation ==> r.isolation == spec.isolation)
    decreases |lines|
  {
    hide ReadItem, Classify;
    if items != [] {
      var r := ReadItem(lines[0], lines[1..], seen, last);
      ItemIsNew(lines[0], lines[1..], seen, last);
      assert items == [r.value] + items[1..];
      AssembleKeepsSingles(r.rest, Note(seen, r.value), last, Add(spec, r.value), items[1..]);
    }
  }

  /** Nothing is in the result that was not in the source. */
  lemma {:induction false} AssembleAddsNothing(spec: Specification, items: seq<Item>)
    ensures var r := Assemble(spec, items);
      && (r.subject.Some? ==> r.subject == spec.subject || SubjectItem(r.subject.value) in items)
      && (r.provenance.Some? ==> r.provenance == spec.provenance || ProvenanceItem(r.provenance.value) in items)
      && (r.isolation.Some? ==> r.isolation == spec.isolation || IsolationItem(r.isolation.value) in items)
    decreases |items|
  {
    if items != [] {
      AssembleAddsNothing(Add(spec, items[0]), items[1..]);
      assert items == [items[0]] + items[1..];
    }
  }

  lemma ItemIsNew(line: Numbered, lines: seq<Numbered>, seen: Seen, last: nat)
    requires !Classify(line.text).CloseLine?
    ensures var r := ReadItem(line, lines, seen, last); r.Read? ==>
      && (r.value.SubjectItem? ==> !seen.subject)
      && (r.value.ProvenanceItem? ==> !seen.provenance)
      && (r.value.IsolationItem? ==> !seen.isolation)
  {
    hide ParseScenarioHeader, ParseMutationHeader, ParseFixtureHeader, Classify, ReadScenario, ReadMutation;
  }
}
