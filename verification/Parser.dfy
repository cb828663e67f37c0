/** The imperative `parse` and `parse_body_line`, proved against the block machine. */
module Parser {
  import opened Text
  import opened Ast
  import opened BracketScanner
  import opened ClauseLines
  import opened BlockMachine
  import LiteralParser
  import StringCodec

  /** What a pass of the loop decides, if anything. */
  type Verdict = Option<Result<Specification, ParseError>>

  method ParseBodyLineMethod(fields: seq<BodyField>, line: string) returns (r: Result<seq<BodyField>, ErrorKind>)
    ensures r == ParseBodyLine(fields, line)
  {
    match SplitOnce(line, '=')
    case None => return Err(BodyFieldExpected);
    case Some((left, rawValue)) =>
      var name := Trim(left);
      if !IsIdentifier(name) {
        return Err(BodyFieldName);
      }
      if exists f <- fields :: f.name == name {
        return Err(BodyFieldDuplicated(name));
      }
      var value :- LiteralParser.ParseLiteral(Trim(rawValue));
      return Ok(fields + [BodyField(name, value)]);
  }

  /** What the loop still has to do, as the machine sees it. */
  ghost predicate Continues(outcome: Outcome, lines: seq<string>, i: nat, st: State, last: nat)
    requires i <= |lines|
  {
    Invariant(st) && outcome == Run(Significant(lines[i..], i + 1), st, last)
  }

  lemma SkipLine(outcome: Outcome, lines: seq<string>, i: nat, st: State, last: nat)
    requires i < |lines| && Continues(outcome, lines, i, st, last) && IsSkipped(Trim(lines[i]))
    ensures Continues(outcome, lines, i + 1, st, last)
  {
    assert lines[i..][1..] == lines[i + 1..];
  }

  /** A significant line decides the outcome or hands the machine its next state. */
  lemma TakeLine(outcome: Outcome, lines: seq<string>, i: nat, st: State, last: nat)
    requires i < |lines| && Continues(outcome, lines, i, st, last) && !IsSkipped(Trim(lines[i]))
    ensures match Step(st, Trim(lines[i]), i + 1)
      case Running(next) => Continues(outcome, lines, i + 1, next, last)
      case decided => outcome == decided
    ensures IsSound(Step(st, Trim(lines[i]), i + 1))
  {
    StepIsSound(st, Trim(lines[i]), i + 1);
    assert lines[i..][1..] == lines[i + 1..];
    var tail := Significant(lines[i + 1..], i + 2);
    assert Significant(lines[i..], i + 1) == [Numbered(Trim(lines[i]), i + 1)] + tail;
    assert ([Numbered(Trim(lines[i]), i + 1)] + tail)[1..] == tail;
  }

  /** The nine variables of the parsing loop, and one method for each kind of open block. A method
  returns `None` where the loop goes on to the next line. */
  class BlockParser {
    var specification: Option<Specification>
    var scenario: Option<Scenario>
    var setup: Option<SetupClause>
    var mutation: Option<MutationClause>
    var fixture: Option<FixtureClause>
    var provenance: Option<ProvenanceClause>
    var isolation: Option<IsolationClause>
    var bodyOwner: Option<BodyOwner>
    var pending: Option<Pending>

    constructor ()
      ensures Contents() == INITIAL
    {
      specification, scenario, setup, mutation, fixture := None, None, None, None, None;
      provenance, isolation, bodyOwner, pending := None, None, None, None;
    }

    ghost function Contents(): State
      reads this
    {
      State(specification, scenario, setup, mutation, fixture, provenance, isolation, bodyOwner, pending)
    }

    /** The method did what the machine's step does. */
    ghost predicate Did(outcome: Outcome, r: Verdict)
      reads this
    {
      match outcome
      case Running(next) => r == None && Contents() == next
      case Accepted(spec) => r == Some(Ok(spec))
      case Rejected(error) => r == Some(Err(error))
      case _ => false
    }

    method Store(owner: BodyOwner, text: string, n: nat) returns (r: Verdict)
      requires Invariant(Contents()) && bodyOwner == Some(owner)
      modifies this
      ensures Did(BlockMachine.Store(old(Contents()), owner, text, n), r)
    {
      match owner
      case ScenarioBody =>
        assert scenario.Some? && scenario.value.request.Some?;
        var body := ParseBodyLineMethod(scenario.value.request.value.body, text);
        if body.Err? {
          return Some(Err(ParseError(n, body.error)));
        }
        scenario := Some(scenario.value.(request := Some(RequestClause(body.value))));
        return None;
      case SetupBody =>
        assert setup.Some? && setup.value.request.Some?;
        var body := ParseBodyLineMethod(setup.value.request.value.body, text);
        if body.Err? {
          return Some(Err(ParseError(n, body.error)));
        }
        setup := Some(setup.value.(request := Some(RequestClause(body.value))));
        return None;
    }

    method InBody(line: string, n: nat) returns (r: Verdict)
      requires Invariant(Contents()) && bodyOwner.Some?
      modifies this
      ensures Did(StepBody(old(Contents()), old(bodyOwner).value, line, n), r)
    {
      if pending.Some? {
        var value := pending.value.text + " " + line;
        var startLine := pending.value.line;
        pending := None;
        var complete := BodyValueIsComplete(value);
        if complete {
          r := Store(bodyOwner.value, value, startLine);
        } else {
          pending := Some(Pending(value, startLine));
          r := None;
        }
        return;
      }
      if line == "}" {
        bodyOwner := None;
        return None;
      }
      var complete := BodyValueIsComplete(line);
      if complete {
        r := Store(bodyOwner.value, line, n);
      } else {
        pending := Some(Pending(line, n));
        r := None;
      }
    }

    method InSetup(line: string, n: nat) returns (r: Verdict)
      requires Invariant(Contents()) && setup.Some?
      modifies this
      ensures Did(StepSetup(old(Contents()), old(setup).value, line, n), r)
    {
      if line == "}" {
        assert scenario.Some?;
        scenario := Some(scenario.value.(setups := scenario.value.setups + [setup.value]));
        setup := None;
        return None;
      }
      if line == "given body {" {
        if setup.value.request.Some? {
          return Some(Err(ParseError(n, RepeatedBody)));
        }
        setup := Some(setup.value.(request := Some(RequestClause([]))));
        bodyOwner := Some(SetupBody);
        return None;
      }
      var changed := ParseSetupLine(setup.value, line);
      if changed.Err? {
        return Some(Err(ParseError(n, changed.error)));
      }
      setup := Some(changed.value);
      return None;
    }

    method InMutation(line: string, n: nat) returns (r: Verdict)
      requires Invariant(Contents()) && mutation.Some?
      modifies this
      ensures Did(StepMutation(old(Contents()), old(mutation).value, line, n), r)
    {
      if line == "}" {
        assert specification.Some?;
        specification := Some(specification.value.(mutations := specification.value.mutations + [mutation.value]));
        mutation := None;
        return None;
      }
      var changed := ParseMutationLine(mutation.value, line);
      if changed.Err? {
        return Some(Err(ParseError(n, changed.error)));
      }
      mutation := Some(changed.value);
      return None;
    }

    method InFixture(line: string, n: nat) returns (r: Verdict)
      requires Invariant(Contents()) && fixture.Some?
      modifies this
      ensures Did(StepFixture(old(Contents()), old(fixture).value, line, n), r)
    {
      if line == "}" {
        assert specification.Some?;
        specification := Some(specification.value.(fixtures := specification.value.fixtures + [fixture.value]));
        fixture := None;
        return None;
      }
      var changed := ParseFixtureLine(fixture.value, line);
      if changed.Err? {
        return Some(Err(ParseError(n, changed.error)));
      }
      fixture := Some(changed.value);
      return None;
    }

    method InProvenance(line: string, n: nat) returns (r: Verdict)
      requires Invariant(Contents()) && provenance.Some?
      modifies this
      ensures Did(StepProvenance(old(Contents()), old(provenance).value, line, n), r)
    {
      if line == "}" {
        assert specification.Some?;
        specification := Some(specification.value.(provenance := Some(provenance.value)));
        provenance := None;
        return None;
      }
      var changed := ParseProvenanceLine(provenance.value, line);
      if changed.Err? {
        return Some(Err(ParseError(n, changed.error)));
      }
      provenance := Some(changed.value);
      return None;
    }

    method InIsolation(line: string, n: nat) returns (r: Verdict)
      requires Invariant(Contents()) && isolation.Some?
      modifies this
      ensures Did(StepIsolation(old(Contents()), old(isolation).value, line, n), r)
    {
      if line == "}" {
        assert specification.Some?;
        specification := Some(specification.value.(isolation := Some(isolation.value)));
        isolation := None;
        return None;
      }
      var changed := ParseIsolationLine(isolation.value, line);
      if changed.Err? {
        return Some(Err(ParseError(n, changed.error)));
      }
      isolation := Some(changed.value);
      return None;
    }

    method InScenario(line: string, n: nat) returns (r: Verdict)
      requires Invariant(Contents()) && scenario.Some?
      modifies this
      ensures Did(StepScenario(old(Contents()), old(scenario).value, line, n), r)
    {
      if line == "}" {
        assert specification.Some?;
        specification := Some(specification.value.(scenarios := specification.value.scenarios + [scenario.value]));
        scenario := None;
        return None;
      }
      var header := StripPrefix(line, "setup ");
      if header.Some? {
        var parsed := ParseSetupHeader(header.value);
        if parsed.Err? {
          return Some(Err(ParseError(n, parsed.error)));
        }
        setup := Some(parsed.value);
        return None;
      }
      if line == "given body {" {
        if scenario.value.request.Some? {
          return Some(Err(ParseError(n, RepeatedBody)));
        }
        scenario := Some(scenario.value.(request := Some(RequestClause([]))));
        bodyOwner := Some(ScenarioBody);
        return None;
      }
      var changed := ParseScenarioLine(scenario.value, line);
      if changed.Err? {
        return Some(Err(ParseError(n, changed.error)));
      }
      scenario := Some(changed.value);
      return None;
    }

    method OpenScenario(parsed: Result<Scenario, ErrorKind>, n: nat) returns (r: Verdict)
      modifies this
      ensures Did(BlockMachine.OpenScenario(old(Contents()), parsed, n), r)
    {
      if parsed.Err? {
        return Some(Err(ParseError(n, parsed.error)));
      }
      scenario := Some(parsed.value);
      return None;
    }

    method OpenMutation(parsed: Result<MutationClause, ErrorKind>, n: nat) returns (r: Verdict)
      modifies this
      ensures Did(BlockMachine.OpenMutation(old(Contents()), parsed, n), r)
    {
      if parsed.Err? {
        return Some(Err(ParseError(n, parsed.error)));
      }
      mutation := Some(parsed.value);
      return None;
    }

    method OpenFixture(parsed: Result<FixtureClause, ErrorKind>, n: nat) returns (r: Verdict)
      modifies this
      ensures Did(BlockMachine.OpenFixture(old(Contents()), parsed, n), r)
    {
      if parsed.Err? {
        return Some(Err(ParseError(n, parsed.error)));
      }
      fixture := Some(parsed.value);
      return None;
    }

    method SetSubject(parsed: Result<string, ErrorKind>, n: nat) returns (r: Verdict)
      requires specification.Some?
      modifies this
      ensures Did(BlockMachine.SetSubject(old(Contents()), old(specification).value, parsed, n), r)
    {
      if parsed.Err? {
        return Some(Err(ParseError(n, parsed.error)));
      }
      specification := Some(specification.value.(subject := Some(parsed.value)));
      return None;
    }

    method InSpecification(kind: SpecificationLine, n: nat) returns (r: Verdict)
      requires specification.Some?
      modifies this
      ensures Did(StepItem(old(Contents()), old(specification).value, kind, n), r)
    {
      var current := specification.value;
      match kind
      case CloseLine =>
        return Some(Ok(current));
      case SubjectLine(text) =>
        if current.subject.Some? {
          return Some(Err(ParseError(n, RepeatedSubject)));
        }
        r := SetSubject(StringCodec.ParseQuoted(text), n);
      case ScenarioLine(header) =>
        r := OpenScenario(ParseScenarioHeader(header), n);
      case MutationLine(header) =>
        r := OpenMutation(ParseMutationHeader(header), n);
      case FixtureLine(header) =>
        r := OpenFixture(ParseFixtureHeader(header), n);
      case ProvenanceLine =>
        if current.provenance.Some? {
          return Some(Err(ParseError(n, RepeatedProvenance)));
        }
        provenance := Some(ProvenanceClause([]));
        return None;
      case IsolationLine =>
        if current.isolation.Some? {
          return Some(Err(ParseError(n, RepeatedIsolation)));
        }
        isolation := Some(IsolationClause(PerScenario, None));
        return None;
      case OtherLine =>
        return Some(Err(ParseError(n, UnknownSpecificationLine)));
    }

    /** One pass of the loop on a line that is neither blank nor a comment. */
    method Line(line: string, n: nat) returns (r: Verdict)
      requires Invariant(Contents())
      modifies this
      ensures Did(Step(old(Contents()), line, n), r)
    {
      if bodyOwner.Some? {
        r := InBody(line, n);
      } else if setup.Some? {
        r := InSetup(line, n);
      } else if mutation.Some? {
        r := InMutation(line, n);
      } else if fixture.Some? {
        r := InFixture(line, n);
      } else if provenance.Some? {
        r := InProvenance(line, n);
      } else if isolation.Some? {
        r := InIsolation(line, n);
      } else if scenario.Some? {
        r := InScenario(line, n);
      } else if specification.Some? {
        r := InSpecification(Classify(line), n);
      } else {
        var header := ParseSpecHeader(line);
        if header.Err? {
          return Some(Err(ParseError(n, header.error)));
        }
        specification := Some(header.value);
        return None;
      }
    }

    /** The error for the end of the source. */
    method End(last: nat) returns (error: ParseError)
      ensures error == Finish(Contents(), last)
    {
      if pending.Some? {
        return ParseError(pending.value.line, LiteralUnclosed);
      }
      if mutation.Some? {
        return ParseError(last, MutationUnclosed);
      }
      if fixture.Some? {
        return ParseError(last, FixtureUnclosed);
      }
      if provenance.Some? {
        return ParseError(last, ProvenanceUnclosed);
      }
      if isolation.Some? {
        return ParseError(last, IsolationUnclosed);
      }
      if bodyOwner.Some? {
        return ParseError(last, BodyUnclosed);
      }
      if setup.Some? {
        return ParseError(last, SetupUnclosed);
      }
      if scenario.Some? {
        return ParseError(last, ScenarioUnclosed);
      }
      return ParseError(last, SpecificationUnclosed);
    }
  }

  method Parse(source: string) returns (r: Result<Specification, ParseError>)
    ensures BlockMachine.Parse(source) == match r
      case Ok(specification) => Accepted(specification)
      case Err(error) => Rejected(error)
  {
    var lines := Lines(source);
    var last := LastLine(lines);
    ghost var outcome := BlockMachine.Parse(source);
    var parser := new BlockParser();
    assert lines[0..] == lines;
    for index := 0 to |lines|
      invariant Continues(outcome, lines, index, parser.Contents(), last)
    {
      var line := Trim(lines[index]);
      if IsSkipped(line) {
        SkipLine(outcome, lines, index, parser.Contents(), last);
        continue;
      }
      TakeLine(outcome, lines, index, parser.Contents(), last);
      var verdict := parser.Line(line, index + 1);
      if verdict.Some? {
        return verdict.value;
      }
    }
    var error := parser.End(last);
    return Err(error);
  }
}
