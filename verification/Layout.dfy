/** Blank lines, comments and line numbers: what the layout of a source can and cannot change. */
module Layout {
  import opened Text
  import opened ClauseLines
  import opened BracketScanner
  import opened BlockMachine
  import StringCodec

  // ---------------------------------------------------------------------------
  // Erasing blank and comment lines

  /** The source without its blank and comment lines, wherever they stand. */
  function EraseSkipped(source: string): string
    decreases |source|
  {
    match SplitOnce(source, '\n')
    case None => if IsSkipped(Trim(source)) then "" else source
    case Some((line, rest)) =>
      if IsSkipped(Trim(DropCarriageReturn(line))) then EraseSkipped(rest) else line + ("\n" + EraseSkipped(rest))
  }

  function Texts(lines: seq<Numbered>): seq<string> {
    if lines == [] then [] else [lines[0].text] + Texts(lines[1..])
  }

  lemma {:induction false} TextsIgnoreNumbers(lines: seq<string>, m: nat, n: nat)
    ensures Texts(Significant(lines, m)) == Texts(Significant(lines, n))
  {
    if lines != [] {
      TextsIgnoreNumbers(lines[1..], m + 1, n + 1);
      SignificantCons(lines[0], lines[1..], m);
      SignificantCons(lines[0], lines[1..], n);
      assert lines == [lines[0]] + lines[1..];
    }
  }

  lemma SignificantCons(line: string, lines: seq<string>, n: nat)
    ensures Texts(Significant([line] + lines, n))
      == (if IsSkipped(Trim(line)) then [] else [Trim(line)]) + Texts(Significant(lines, n + 1))
  {
    assert ([line] + lines)[1..] == lines;
    if !IsSkipped(Trim(line)) {
      var tail := Significant(lines, n + 1);
      assert ([Numbered(Trim(line), n)] + tail)[1..] == tail;
    }
  }

  lemma {:induction false} SplitFirst(line: string, rest: string)
    requires '\n' !in line
    ensures SplitOnce(line + ("\n" + rest), '\n') == Some((line, rest))
  {
    var s := line + ("\n" + rest);
    if line == "" {
      assert s == "\n" + rest && s[1..] == rest;
    } else {
      assert line[0] in line && forall c <- line[1..] :: c in line;
      assert s[0] == line[0] && s[1..] == line[1..] + ("\n" + rest);
      SplitFirst(line[1..], rest);
      assert [line[0]] + line[1..] == line;
    }
  }

  lemma LinesCons(line: string, rest: string)
    requires '\n' !in line
    ensures Lines(line + ("\n" + rest)) == [DropCarriageReturn(line)] + Lines(rest)
  {
    SplitFirst(line, rest);
  }

  lemma EraseCons(line: string, rest: string)
    requires '\n' !in line
    ensures EraseSkipped(line + ("\n" + rest)) ==
      if IsSkipped(Trim(DropCarriageReturn(line))) then EraseSkipped(rest) else line + ("\n" + EraseSkipped(rest))
  {
    hide Trim, IsSkipped, DropCarriageReturn, SplitOnce;
    SplitFirst(line, rest);
  }

  /** Erasing one terminated line and the rest. */
  lemma {:induction false} EraseLine(line: string, rest: string, m: nat, n: nat)
    requires '\n' !in line
    ensures Texts(Significant(Lines(EraseSkipped(line + ("\n" + rest))), m))
         == Texts(Significant(Lines(line + ("\n" + rest)), n))
    decreases |line + ("\n" + rest)|, 0
  {
    hide Trim, IsSkipped, DropCarriageReturn, EraseSkipped, Lines, Significant, Texts;
    var kept, erased := DropCarriageReturn(line), EraseSkipped(rest);
    EraseCons(line, rest);
    LinesCons(line, rest);
    SignificantCons(kept, Lines(rest), n);
    if IsSkipped(Trim(kept)) {
      EraseKeepsTexts(rest, m, n + 1);
    } else {
      EraseKeepsTexts(rest, m + 1, n + 1);
      LinesCons(line, erased);
      SignificantCons(kept, Lines(erased), m);
    }
  }

  lemma {:induction false} EraseKeepsTexts(source: string, m: nat, n: nat)
    ensures Texts(Significant(Lines(EraseSkipped(source)), m)) == Texts(Significant(Lines(source), n))
    decreases |source|, 1
  {
    match SplitOnce(source, '\n')
    case None =>
      TextsIgnoreNumbers(Lines(source), m, n);
      if IsSkipped(Trim(source)) && source != "" {
        SignificantCons(source, [], n);
        assert [source] + [] == [source];
      }
    case Some((line, rest)) =>
      assert source == line + ("\n" + rest);
      EraseLine(line, rest, m, n);
  }

  // ---------------------------------------------------------------------------
  // The machine does not look at line numbers

  /** The same state, except for the line where an unfinished value began. */
  predicate SameState(a: State, b: State) {
    && a.(pending := None) == b.(pending := None)
    && (a.pending.Some? <==> b.pending.Some?)
    && (a.pending.Some? ==> a.pending.value.text == b.pending.value.text)
  }

  /** The same outcome, except for line numbers. */
  predicate SameOutcome(a: Outcome, b: Outcome) {
    match (a, b)
    case (Running(s), Running(t)) => SameState(s, t)
    case (Accepted(s), Accepted(t)) => s == t
    case (Rejected(e), Rejected(f)) => e.kind == f.kind
    case (Orphaned(_), Orphaned(_)) => true
    case (Panicked, Panicked) => true
    case _ => false
  }

  lemma StepBodySame(a: State, b: State, owner: BodyOwner, line: string, m: nat, n: nat)
    requires SameState(a, b)
    ensures SameOutcome(StepBody(a, owner, line, m), StepBody(b, owner, line, n))
  {
    hide ParseBodyLine, IsComplete;
  }

  lemma StepBlocksSame(a: State, b: State, line: string, m: nat, n: nat)
    requires SameState(a, b) && a.bodyOwner.None?
    ensures a.setup.Some? ==> SameOutcome(StepSetup(a, a.setup.value, line, m), StepSetup(b, b.setup.value, line, n))
    ensures a.scenario.Some? ==>
      SameOutcome(StepScenario(a, a.scenario.value, line, m), StepScenario(b, b.scenario.value, line, n))
  {
    hide ParseSetupLine, ParseScenarioLine, ParseSetupHeader;
  }

  lemma StepClausesSame(a: State, b: State, line: string, m: nat, n: nat)
    requires SameState(a, b)
    ensures a.mutation.Some? ==>
      SameOutcome(StepMutation(a, a.mutation.value, line, m), StepMutation(b, b.mutation.value, line, n))
    ensures a.fixture.Some? ==>
      SameOutcome(StepFixture(a, a.fixture.value, line, m), StepFixture(b, b.fixture.value, line, n))
    ensures a.provenance.Some? ==>
      SameOutcome(StepProvenance(a, a.provenance.value, line, m), StepProvenance(b, b.provenance.value, line, n))
    ensures a.isolation.Some? ==>
      SameOutcome(StepIsolation(a, a.isolation.value, line, m), StepIsolation(b, b.isolation.value, line, n))
  {
    hide ParseMutationLine, ParseFixtureLine, ParseProvenanceLine, ParseIsolationLine;
  }

  lemma StepSpecificationSame(a: State, b: State, line: string, m: nat, n: nat)
    requires SameState(a, b) && a.specification.Some?
    ensures SameOutcome(
      StepSpecification(a, a.specification.value, line, m), StepSpecification(b, b.specification.value, line, n))
  {
    hide ParseScenarioHeader, ParseMutationHeader, ParseFixtureHeader, Classify, StringCodec.ParseQuoted;
  }

  lemma StepSame(a: State, b: State, line: string, m: nat, n: nat)
    requires SameState(a, b)
    ensures SameOutcome(Step(a, line, m), Step(b, line, n))
  {
    hide StepBody, StepSetup, StepScenario, StepSpecification, StepMutation, StepFixture, StepProvenance, StepIsolation;
    hide ParseSpecHeader;
    if a.bodyOwner.Some? {
      StepBodySame(a, b, a.bodyOwner.value, line, m, n);
    } else {
      StepBlocksSame(a, b, line, m, n);
      StepClausesSame(a, b, line, m, n);
      if a.specification.Some? {
        StepSpecificationSame(a, b, line, m, n);
      }
    }
  }

  lemma {:induction false} RunSame(a: seq<Numbered>, b: seq<Numbered>, sa: State, sb: State, lastA: nat, lastB: nat)
    requires SameState(sa, sb) && Texts(a) == Texts(b)
    ensures SameOutcome(Run(a, sa, lastA), Run(b, sb, lastB))
    decreases |a|
  {
    hide Step;
    if a != [] && b != [] {
      assert Texts(a)[0] == Texts(b)[0] && Texts(a)[1..] == Texts(b)[1..];
      StepSame(sa, sb, a[0].text, a[0].line, b[0].line);
      match (Step(sa, a[0].text, a[0].line), Step(sb, b[0].text, b[0].line))
      case (Running(s), Running(t)) => RunSame(a[1..], b[1..], s, t, lastA, lastB);
      case _ =>
    }
  }

  /** Erasing all blank and comment lines, even inside an unfinished literal, leaves an accepted
  specification unchanged and a rejected source rejected for the same reason. */
  lemma ErasingKeepsTheOutcome(source: string)
    ensures SameOutcome(Parse(source), Parse(EraseSkipped(source)))
  {
    EraseKeepsTexts(source, 1, 1);
    RunSame(Significant(Lines(source), 1), Significant(Lines(EraseSkipped(source)), 1), INITIAL, INITIAL,
      LastLine(Lines(source)), LastLine(Lines(EraseSkipped(source))));
  }

  // ---------------------------------------------------------------------------
  // Reported lines

  predicate InRange(line: nat, last: nat) { 1 <= line <= last }

  predicate PendingInRange(st: State, last: nat) {
    st.pending.Some? ==> InRange(st.pending.value.line, last)
  }

  predicate OutcomeInRange(outcome: Outcome, last: nat) {
    match outcome
    case Running(next) => PendingInRange(next, last)
    case Rejected(error) => InRange(error.line, last)
    case _ => true
  }

  lemma StepInRange(st: State, line: string, n: nat, last: nat)
    requires PendingInRange(st, last) && InRange(n, last)
    ensures OutcomeInRange(Step(st, line, n), last)
  {
    hide ParseBodyLine, IsComplete, ParseSetupLine, ParseScenarioLine, ParseSetupHeader, ParseSpecHeader;
    hide ParseMutationLine, ParseFixtureLine, ParseProvenanceLine, ParseIsolationLine;
    hide ParseScenarioHeader, ParseMutationHeader, ParseFixtureHeader, Classify, StringCodec.ParseQuoted;
  }

  lemma {:induction false} RunInRange(lines: seq<Numbered>, st: State, last: nat)
    requires PendingInRange(st, last) && 1 <= last && forall l <- lines :: InRange(l.line, last)
    ensures OutcomeInRange(Run(lines, st, last), last)
  {
    hide Step;
    if lines != [] {
      StepInRange(st, lines[0].text, lines[0].line, last);
      match Step(st, lines[0].text, lines[0].line)
      case Running(next) => RunInRange(lines[1..], next, last);
      case _ =>
    }
  }

  lemma {:induction false} SignificantInRange(lines: seq<string>, first: nat)
    requires 1 <= first
    ensures forall l <- Significant(lines, first) :: first <= l.line < first + |lines|
  {
    hide Trim, IsSkipped;
    if lines != [] {
      SignificantInRange(lines[1..], first + 1);
    }
  }

  /** Every error is reported on a line of the source, or on line 1 of an empty one. */
  lemma ErrorLineInRange(source: string)
    requires Parse(source).Rejected?
    ensures 1 <= Parse(source).error.line
    ensures Parse(source).error.line <= if |Lines(source)| == 0 then 1 else |Lines(source)|
  {
    SignificantInRange(Lines(source), 1);
    RunInRange(Significant(Lines(source), 1), INITIAL, LastLine(Lines(source)));
  }
}
