/** The line an error names is the first one that spoils the source. */
module ErrorLines {
  import opened Text
  import opened Ast
  import opened ClauseLines
  import opened BracketScanner
  import opened BlockMachine
  import opened ClauseText
  import opened BrokenSources
  import R = BlockRefinement

  /** `parse` on a source that is split into lines already. */
  function ParseLines(lines: seq<string>): Outcome { Run(Significant(lines, 1), INITIAL, LastLine(lines)) }

  /** Some lines after these would make an accepted source. */
  ghost predicate CanBeCompleted(lines: seq<string>) { exists ending :: ParseLines(lines + ending).Accepted? }

  /** Whatever follows these lines, the source is refused with this error. */
  ghost predicate IsSpoilt(lines: seq<string>, error: ParseError) {
    forall ending :: ParseLines(lines + ending) == Rejected(error)
  }

  // ---------------------------------------------------------------------------
  // Closing the open blocks

  function Braces(n: nat): seq<string> { if n == 0 then [] else ["}"] + Braces(n - 1) }

  function Depth(st: State): nat {
    Count(st.bodyOwner.Some?) + Count(st.setup.Some?)
    + Count(st.mutation.Some? || st.fixture.Some? || st.provenance.Some? || st.isolation.Some? || st.scenario.Some?) + 1
  }

  lemma BraceCloses(st: State, n: nat)
    requires Invariant(st) && st.pending.None? && st.specification.Some?
    ensures match Step(st, "}", n)
      case Running(next) => next.pending.None? && next.specification.Some? && Depth(next) == Depth(st) - 1
      case Accepted(_) => Depth(st) == 1
      case _ => false
  {
    hide ParseSetupLine, ParseMutationLine, ParseFixtureLine, ParseProvenanceLine, ParseIsolationLine;
    hide ParseScenarioLine, ParseSetupHeader, ParseScenarioHeader, ParseMutationHeader, ParseFixtureHeader, IsComplete;
    hide Store;
  }

  lemma BraceIsSignificant(n: nat, more: seq<string>)
    ensures Significant(["}"] + more, n) == [Numbered("}", n)] + Significant(more, n + 1)
  {
    assert TrimEnd(TrimStart("}")) == "}";
    assert (["}"] + more)[1..] == more;
  }

  lemma {:induction false} BracesAccept(st: State, n: nat, last: nat)
    requires Invariant(st) && st.pending.None? && st.specification.Some?
    ensures Run(Significant(Braces(Depth(st)), n), st, last).Accepted?
    decreases Depth(st)
  {
    BraceCloses(st, n);
    StepIsSound(st, "}", n);
    hide Step, Invariant, Depth;
    assert Depth(st) >= 1 by { hide *; }
    BraceIsSignificant(n, Braces(Depth(st) - 1));
    hide Significant;
    match Step(st, "}", n)
    case Running(next) => BracesAccept(next, n + 1, last);
    case _ =>
  }

  lemma NothingRead(st: State)
    requires Invariant(st) && st.specification.None?
    ensures st == INITIAL
  {
    assert st.setup.None? && st.scenario.None?;
    match st.bodyOwner
    case None =>
    case Some(ScenarioBody) =>
    case Some(SetupBody) =>
  }

  const EMPTY_HEADER := "spec s {"

  lemma HeaderOpens(n: nat, more: seq<string>)
    ensures exists spec :: Step(INITIAL, EMPTY_HEADER, n) == Running(INITIAL.(specification := Some(spec)))
    ensures Significant([EMPTY_HEADER] + more, n) == [Numbered(EMPTY_HEADER, n)] + Significant(more, n + 1)
  {
    hide ParseSpecHeader;
    assert IsWord("s");
    assert SpecText("s", None) == EMPTY_HEADER;
    SpecReads("s", None);
    assert ([EMPTY_HEADER] + more)[1..] == more;
  }

  /** From every state between two entries some lines lead to acceptance. */
  lemma SomeEnding(st: State, n: nat, last: nat) returns (ending: seq<string>)
    requires Invariant(st) && st.pending.None?
    ensures Run(Significant(ending, n), st, last).Accepted?
  {
    hide Run, Step, Significant, Invariant, Depth, Braces;
    if st.specification.Some? {
      ending := Braces(Depth(st));
      BracesAccept(st, n, last);
    } else {
      NothingRead(st);
      ending := FromNothing(n, last);
    }
  }

  lemma FromNothing(n: nat, last: nat) returns (ending: seq<string>)
    ensures Run(Significant(ending, n), INITIAL, last).Accepted?
  {
    hide Step, Significant, ParseSpecHeader;
    var braces := Braces(1);
    HeaderOpens(n, braces);
    var spec :| Step(INITIAL, EMPTY_HEADER, n) == Running(INITIAL.(specification := Some(spec)));
    BracesAccept(INITIAL.(specification := Some(spec)), n + 1, last);
    ending := [EMPTY_HEADER] + braces;
  }

  // ---------------------------------------------------------------------------
  // The machine on a prefix of the lines

  /** Where the entry began that a state is in the middle of, or where the next one begins. */
  function EntryLine(st: State, next: nat): nat { if st.pending.Some? then st.pending.value.line else next }

  lemma StepKeepsEntry(st: State, line: string, n: nat)
    requires Invariant(st)
    ensures match Step(st, line, n)
      case Running(next) => next.pending.Some? ==> next.pending.value.line == EntryLine(st, n)
      case Rejected(e) => e.line == EntryLine(st, n)
      case _ => true
  {
    hide ParseSetupLine, ParseMutationLine, ParseFixtureLine, ParseProvenanceLine, ParseIsolationLine;
    hide ParseScenarioLine, ParseSetupHeader, ParseScenarioHeader, ParseMutationHeader, ParseFixtureHeader, IsComplete;
    hide ParseBodyLine, ParseSpecHeader, Classify;
  }

  lemma LastIsForErrors(lines: seq<Numbered>, st: State, last: nat, other: nat)
    requires Run(lines, st, last).Accepted?
    ensures Run(lines, st, other).Accepted?
  {
    hide Step;
  }

  function After(lines: seq<string>): Outcome { Advance(Significant(lines, 1), INITIAL) }

  lemma OnPrefix(lines: seq<string>, ending: seq<string>)
    ensures ParseLines(lines + ending)
      == R.Stored(After(lines), Significant(ending, 1 + |lines|), LastLine(lines + ending))
  {
    SignificantAppend(lines, ending, 1);
    RunAfter(Significant(lines, 1), Significant(ending, 1 + |lines|), INITIAL, LastLine(lines + ending));
  }

  predicate IsBetweenEntries(lines: seq<string>) { After(lines).Running? && After(lines).state.pending.None? }

  lemma PrefixCompletes(lines: seq<string>)
    requires IsBetweenEntries(lines)
    ensures CanBeCompleted(lines)
  {
    AfterIsSound(lines);
    hide Significant, After, Run, Invariant, ParseLines;
    var st := After(lines).state;
    var ending := SomeEnding(st, 1 + |lines|, 0);
    OnPrefix(lines, ending);
    LastIsForErrors(Significant(ending, 1 + |lines|), st, 0, LastLine(lines + ending));
    assert ParseLines(lines + ending).Accepted?;
  }

  lemma AfterIsSound(lines: seq<string>)
    ensures IsSound(After(lines))
  {
    hide Step;
    AdvanceIsSound(Significant(lines, 1), INITIAL);
  }

  lemma PrefixSpoils(lines: seq<string>, error: ParseError)
    requires After(lines) == Rejected(error)
    ensures IsSpoilt(lines, error)
  {
    hide Significant, After, Run, ParseLines;
    forall ending ensures ParseLines(lines + ending) == Rejected(error) {
      OnPrefix(lines, ending);
    }
  }

  lemma {:induction false} AdvanceAppend(a: seq<Numbered>, b: seq<Numbered>, st: State)
    ensures Advance(a + b, st) == match Advance(a, st)
      case Running(next) => Advance(b, next)
      case decided => decided
    decreases |a|
  {
    hide Step;
    if a == [] {
      assert a + b == b;
    } else {
      assert (a + b)[0] == a[0] && (a + b)[1..] == a[1..] + b;
      match Step(st, a[0].text, a[0].line)
      case Running(next) => AdvanceAppend(a[1..], b, next);
      case _ =>
    }
  }

  /** The machine on one more line: it is skipped or it is a step. */
  lemma OneMore(lines: seq<string>, line: string)
    ensures match After(lines)
      case Running(st) =>
        After(lines + [line]) == After(lines) || After(lines + [line]) == Step(st, Trim(line), 1 + |lines|)
      case decided => After(lines + [line]) == decided
  {
    hide Step, Trim, IsSkipped;
    SignificantAppend(lines, [line], 1);
    AdvanceAppend(Significant(lines, 1), Significant([line], 1 + |lines|), INITIAL);
    var st := Advance(Significant(lines, 1), INITIAL);
    if st.Running? && !IsSkipped(Trim(line)) {
      OneStep(Numbered(Trim(line), 1 + |lines|), st.state);
      assert Significant([line], 1 + |lines|) == [Numbered(Trim(line), 1 + |lines|)];
    } else {
      assert Significant([line], 1 + |lines|) == [] || !st.Running?;
    }
  }

  lemma OneStep(line: Numbered, st: State)
    ensures Advance([line], st) == Step(st, line.text, line.line)
  {
    hide Step;
    assert [line][1..] == [];
  }

  /** Where the entry begins that the lines end in, or where the next one would begin. */
  function NextEntry(lines: seq<string>): nat
    requires After(lines).Running?
  {
    EntryLine(After(lines).state, |lines| + 1)
  }

  /** One more line: it begins or continues an entry, ends one, or is refused at the line where its entry began. */
  lemma NextLine(lines: seq<string>, line: string)
    requires After(lines).Running?
    ensures var more := lines + [line]; match After(more)
      case Running(_) =>
        (IsBetweenEntries(more) && NextEntry(more) == |more| + 1) || NextEntry(more) == NextEntry(lines)
      case Rejected(e) => e.line == NextEntry(lines)
      case _ => true
  {
    AfterIsSound(lines);
    OneMore(lines, line);
    var st := After(lines).state;
    StepKeepsEntry(st, Trim(line), 1 + |lines|);
    hide Step, Invariant, After, Trim;
  }

  ghost predicate CompletesBefore(lines: seq<string>, k: nat) {
    1 <= k <= |lines| + 1 && CanBeCompleted(lines[..k - 1])
  }

  lemma LongerCompletesBefore(lines: seq<string>, line: string, k: nat)
    requires CompletesBefore(lines, k)
    ensures CompletesBefore(lines + [line], k) && k <= |lines + [line]|
  {
    hide CanBeCompleted;
    assert (lines + [line])[..k - 1] == lines[..k - 1];
  }

  /** What is known of lines that are neither refused nor accepted: those before the entry that they end in can be
  completed. */
  ghost predicate IsPromising(lines: seq<string>) {
    && After(lines).Running?
    && CompletesBefore(lines, NextEntry(lines))
    && (IsBetweenEntries(lines) || NextEntry(lines) <= |lines|)
  }

  /** Reading on from promising lines: they stay promising, or the error is at the line where their entry begins. */
  lemma StaysPromising(lines: seq<string>, line: string)
    requires IsPromising(lines) && After(lines + [line]).Running?
    ensures IsPromising(lines + [line])
  {
    NextLine(lines, line);
    hide CompletesBefore, After, NextEntry, IsBetweenEntries;
    var more := lines + [line];
    if IsBetweenEntries(more) && NextEntry(more) == |more| + 1 {
      BetweenCompletes(more);
    } else {
      LongerCompletesBefore(lines, line, NextEntry(lines));
    }
  }

  lemma BetweenCompletes(lines: seq<string>)
    requires IsBetweenEntries(lines)
    ensures CompletesBefore(lines, |lines| + 1)
  {
    hide CanBeCompleted, IsBetweenEntries;
    PrefixCompletes(lines);
    assert lines[..|lines|] == lines;
  }

  lemma BreaksPromise(lines: seq<string>, line: string)
    requires IsPromising(lines) && After(lines + [line]).Rejected?
    ensures var more := lines + [line]; var e := After(more).error;
      1 <= e.line <= |more| && CanBeCompleted(more[..e.line - 1]) && IsSpoilt(more, e)
  {
    NextLine(lines, line);
    hide CanBeCompleted, After, IsSpoilt, NextEntry;
    var more := lines + [line];
    PrefixSpoils(more, After(more).error);
    assert more[..NextEntry(lines) - 1] == lines[..NextEntry(lines) - 1];
  }

  lemma NothingIsPromising()
    ensures IsPromising([])
  {
    var lines: seq<string> := [];
    assert Significant(lines, 1) == [] && Advance([], INITIAL) == Running(INITIAL);
    PrefixCompletes(lines);
    assert lines[..0] == lines;
  }

  /** The lines before the one that an error names can be completed to an accepted source. */
  ghost predicate IsBlamedRightly(lines: seq<string>, error: ParseError) {
    && 1 <= error.line <= LastLine(lines)
    && CanBeCompleted(lines[..error.line - 1])
    && (
      || (exists p: nat :: error.line <= p <= |lines| && IsSpoilt(lines[..p], error))
      || (error.kind == LiteralUnclosed)
      || (error.line == LastLine(lines) && CanBeCompleted(lines)))
  }

  lemma {:induction false} RestOfLines(lines: seq<string>, i: nat, error: ParseError)
    requires i <= |lines| && IsPromising(lines[..i]) && ParseLines(lines) == Rejected(error)
    ensures IsBlamedRightly(lines, error)
    decreases |lines| - i
  {
    hide CanBeCompleted, Significant, After, IsSpoilt, Run, ParseLines, IsPromising, IsBlamedRightly;
    if i < |lines| {
      var front, more := lines[..i], lines[..i + 1];
      assert more == front + [lines[i]] && more + lines[i + 1..] == lines;
      AfterDecides(more, lines[i + 1..]);
      if After(more).Running? {
        StaysPromising(front, lines[i]);
        RestOfLines(lines, i + 1, error);
      } else {
        BreaksPromise(front, lines[i]);
        SpoiltIsBlamed(lines, i + 1, error);
      }
    } else {
      assert lines[..i] == lines;
      EndOfLines(lines, error);
    }
  }

  lemma AfterDecides(lines: seq<string>, ending: seq<string>)
    ensures After(lines).Running? || ParseLines(lines + ending) == After(lines)
  {
    hide After, Run, ParseLines;
    OnPrefix(lines, ending);
  }

  lemma SpoiltIsBlamed(lines: seq<string>, p: nat, error: ParseError)
    requires 1 <= error.line <= p <= |lines|
    requires CanBeCompleted(lines[..p][..error.line - 1]) && IsSpoilt(lines[..p], error)
    ensures IsBlamedRightly(lines, error)
  {
    hide CanBeCompleted, IsSpoilt;
    assert lines[..p][..error.line - 1] == lines[..error.line - 1];
  }

  lemma EndError(lines: seq<string>, error: ParseError)
    requires After(lines).Running? && ParseLines(lines) == Rejected(error)
    ensures error == Finish(After(lines).state, LastLine(lines))
  {
    assert lines + [] == lines;
    OnPrefix(lines, []);
    assert Significant([], 1 + |lines|) == [];
    hide After, ParseLines, Finish;
  }

  lemma ShorterCompletes(lines: seq<string>)
    requires lines != [] && CanBeCompleted(lines)
    ensures CanBeCompleted(lines[..|lines| - 1])
  {
    hide ParseLines;
    var ending :| ParseLines(lines + ending).Accepted?;
    var n := |lines| - 1;
    assert lines + ending == lines[..n] + ([lines[n]] + ending);
  }

  lemma EndOfLines(lines: seq<string>, error: ParseError)
    requires IsPromising(lines) && ParseLines(lines) == Rejected(error)
    ensures IsBlamedRightly(lines, error)
  {
    hide After, IsSpoilt, ParseLines, CanBeCompleted;
    EndError(lines, error);
    assert lines[..|lines|] == lines;
    if After(lines).state.pending.None? && lines != [] {
      ShorterCompletes(lines);
    }
  }

  /** An error names the first line that spoils the source: what comes before it can still be completed to an accepted
  source, and with some lines more every continuation is refused with the same error. The exceptions are errors for
  the end of the source: at the line where a literal begins that is never closed, or at the last line of a source that
  lines after it could still complete. */
  lemma ErrorIsAtFirstBadLine(source: string)
    requires Parse(source).Rejected?
    ensures IsBlamedRightly(Lines(source), Parse(source).error)
  {
    hide IsPromising, IsBlamedRightly, Run;
    NothingIsPromising();
    assert Lines(source)[..0] == [];
    RestOfLines(Lines(source), 0, Parse(source).error);
  }
}
