/** The source text of a specification is read as that specification. */
module SourceRoundTrip {
  import opened Text
  import opened Ast
  import opened StringCodec
  import opened LiteralGrammar
  import opened LiteralRoundTrip
  import opened LiteralSource
  import opened ClauseLines
  import opened BracketScanner
  import opened BlockMachine
  import opened BlockGrammar
  import opened ClauseText
  import opened SourceText
  import L = BrokenLiterals

  // ---------------------------------------------------------------------------
  // Lines that hold given texts

  /** The lines begin with these texts. */
  predicate Holds(lines: seq<Numbered>, texts: seq<string>) {
    |texts| <= |lines| && forall i | 0 <= i < |texts| :: lines[i].text == texts[i]
  }

  lemma HoldsSplit(lines: seq<Numbered>, a: seq<string>, b: seq<string>)
    requires Holds(lines, a + b)
    ensures Holds(lines, a) && Holds(lines[|a|..], b)
    ensures lines[|a|..][|b|..] == lines[|a + b|..]
  {
    assert forall i | 0 <= i < |a| :: (a + b)[i] == a[i];
    assert forall i | 0 <= i < |b| :: (a + b)[|a| + i] == b[i];
  }

  lemma HoldsOne(lines: seq<Numbered>, text: string, rest: seq<string>)
    requires Holds(lines, [text] + rest)
    ensures lines != [] && lines[0].text == text && Holds(lines[1..], rest)
    ensures lines[1..][|rest|..] == lines[|[text] + rest|..]
  {
    HoldsSplit(lines, [text], rest);
  }

  // ---------------------------------------------------------------------------
  // Bodies

  lemma BodyIsComplete(fields: seq<BodyField>, f: BodyField)
    requires IsIdentifier(f.name) && WellFormed(f.value) && !HasField(fields, f.name)
    ensures IsComplete(BodyText(f)) && BodyText(f) != "}"
  {
    hide ParseBodyLine, WellFormed, IsComplete, ScanFrom, LiteralText;
    BodyReads(fields, f);
    L.AcceptedLineScans(fields, BodyText(f));
    assert IsNameStart(BodyText(f)[0]);
  }

  lemma {:induction false} BodyLinesRead(
      lines: seq<Numbered>, before: seq<BodyField>, fields: seq<BodyField>, last: nat)
    requires Holds(lines, BodyLines(fields) + ["}"]) && WellFormedFields(fields) && DistinctNames(before + fields)
    ensures ReadBody(lines, before, last) == Read(before + fields, lines[|fields| + 1..])
    decreases |fields|
  {
    hide BodyText, ParseBodyLine, WellFormed, IsComplete, HasField, IsIdentifier;
    if fields == [] {
      assert BodyLines(fields) + ["}"] == ["}"] + [];
      HoldsOne(lines, "}", []);
      assert before + fields == before;
    } else {
      var f, tail := fields[0], fields[1..];
      assert BodyLines(fields) + ["}"] == [BodyText(f)] + (BodyLines(tail) + ["}"]);
      HoldsOne(lines, BodyText(f), BodyLines(tail) + ["}"]);
      NewField(before, fields);
      BodyReads(before, f);
      BodyIsComplete(before, f);
      assert before + [f] + tail == before + fields;
      BodyLinesRead(lines[1..], before + [f], tail, last);
    }
  }

  /** A request body, wherever it stands. */
  lemma RequestRead(lines: seq<Numbered>, body: seq<BodyField>, last: nat)
    requires Holds(lines, ["given body {"] + (BodyLines(body) + ["}"]))
    requires WellFormedFields(body) && DistinctNames(body)
    ensures lines != [] && lines[0].text == "given body {"
    ensures ReadBody(lines[1..], [], last) == Read(body, lines[|body| + 2..])
  {
    HoldsOne(lines, "given body {", BodyLines(body) + ["}"]);
    assert [] + body == body;
    BodyLinesRead(lines[1..], [], body, last);
  }

  // ---------------------------------------------------------------------------
  // Setups

  /** A line that is neither a brace nor the opening of a body. */
  predicate IsClause(text: string) { text != "}" && text != "given body {" }

  lemma SetupStep(lines: seq<Numbered>, u: SetupClause, v: SetupClause, text: string, last: nat)
    requires lines != [] && lines[0].text == text && IsClause(text) && ParseSetupLine(u, text) == Ok(v)
    ensures ReadSetup(lines, u, last) == ReadSetup(lines[1..], v, last)
  {
    hide ParseSetupLine;
  }

  lemma WhenIsClause(w: WhenClause)
    ensures IsClause(WhenText(w)) && WhenText(w) != "" && WhenText(w)[0] == 'w'
  {
    assert WhenText(w)[0] == 'w';
  }

  lemma RequirementIsClause(r: Requirement)
    ensures IsClause(RequirementText(r)) && RequirementText(r) != "" && RequirementText(r)[0] == 'm'
  {
    assert RequirementText(r)[0] == 'm';
  }

  lemma CaptureIsClause(c: CaptureClause)
    ensures IsClause(CaptureText(c))
  {
    assert CaptureText(c)[0] == 'c';
  }

  lemma SetupRequestRead(lines: seq<Numbered>, u: SetupClause, request: Option<RequestClause>, last: nat)
    requires Holds(lines, RequestLines(request)) && CanWriteRequest(request) && u.request.None?
    ensures ReadSetup(lines, u, last) == ReadSetup(lines[|RequestLines(request)|..], u.(request := request), last)
  {
    hide ReadBody, BodyLines, WellFormedFields, ParseSetupLine;
    if request.Some? {
      RequestRead(lines, request.value.body, last);
      assert request == Some(RequestClause(request.value.body));
    } else {
      assert lines[0..] == lines && u.(request := None) == u;
    }
  }

  lemma SetupWhenRead(lines: seq<Numbered>, u: SetupClause, w: Option<WhenClause>, last: nat)
    requires Holds(lines, Line(w, WhenText)) && (w.Some? ==> CanWriteWhen(w.value)) && u.when_.None?
    ensures ReadSetup(lines, u, last) == ReadSetup(lines[|Line(w, WhenText)|..], u.(when_ := w), last)
  {
    hide ParseSetupLine, ReadSetup, CanWriteWhen, WhenText;
    if w.Some? {
      WhenIsClause(w.value);
      SetupWhenReads(u, w.value);
      SetupStep(lines, u, u.(when_ := w), WhenText(w.value), last);
    } else {
      assert lines[0..] == lines && u.(when_ := None) == u;
    }
  }

  lemma {:induction false} SetupRequirementsRead(
      lines: seq<Numbered>, u: SetupClause, requirements: seq<Requirement>, last: nat)
    requires Holds(lines, RequirementLines(requirements)) && forall r <- requirements :: IsPhrase(r.expression)
    ensures ReadSetup(lines, u, last)
         == ReadSetup(lines[|requirements|..], u.(requirements := u.requirements + requirements), last)
    decreases |requirements|
  {
    hide ParseSetupLine, ReadSetup, IsPhrase, RequirementText;
    if requirements == [] {
      assert lines[0..] == lines && u.requirements + [] == u.requirements;
    } else {
      var r, tail := requirements[0], requirements[1..];
      HoldsOne(lines, RequirementText(r), RequirementLines(tail));
      RequirementIsClause(r);
      SetupRequirementReads(u, r);
      var v := u.(requirements := u.requirements + [r]);
      SetupStep(lines, u, v, RequirementText(r), last);
      SetupRequirementsRead(lines[1..], v, tail, last);
      assert u.requirements + [r] + tail == u.requirements + requirements;
    }
  }

  lemma {:induction false} SetupCapturesRead(
      lines: seq<Numbered>, u: SetupClause, captures: seq<CaptureClause>, last: nat)
    requires Holds(lines, CaptureLines(captures)) && forall c <- captures :: CanWriteCapture(c)
    ensures ReadSetup(lines, u, last)
         == ReadSetup(lines[|captures|..], u.(captures := u.captures + captures), last)
    decreases |captures|
  {
    hide ParseSetupLine, ReadSetup, CanWriteCapture, CaptureText;
    if captures == [] {
      assert lines[0..] == lines && u.captures + [] == u.captures;
    } else {
      var c, tail := captures[0], captures[1..];
      HoldsOne(lines, CaptureText(c), CaptureLines(tail));
      CaptureIsClause(c);
      SetupCaptureReads(u, c);
      var v := u.(captures := u.captures + [c]);
      SetupStep(lines, u, v, CaptureText(c), last);
      SetupCapturesRead(lines[1..], v, tail, last);
      assert u.captures + [c] + tail == u.captures + captures;
    }
  }

  lemma SetupRead(lines: seq<Numbered>, u: SetupClause, last: nat)
    requires Holds(lines, SetupInside(u)) && CanWriteSetup(u)
    ensures ReadSetup(lines, SetupClause(u.name, None, None, [], []), last) == Read(u, lines[|SetupInside(u)|..])
  {
    hide RequestLines, Line, RequirementLines, CaptureLines, CanWriteRequest, CanWriteWhen, IsPhrase, CanWriteCapture;
    hide Holds;
    var a, b := RequestLines(u.request), Line(u.when_, WhenText);
    var c, d := RequirementLines(u.requirements), CaptureLines(u.captures);
    HoldsSplit(lines, a, b + (c + (d + ["}"])));
    var l1 := lines[|a|..];
    HoldsSplit(l1, b, c + (d + ["}"]));
    var l2 := l1[|b|..];
    HoldsSplit(l2, c, d + ["}"]);
    var l3 := l2[|c|..];
    HoldsSplit(l3, d, ["}"]);
    var l4 := l3[|d|..];
    HoldsBrace(l4);
    var u0 := SetupClause(u.name, None, None, [], []);
    var u1 := u0.(request := u.request);
    var u2 := u1.(when_ := u.when_);
    var u3 := u2.(requirements := u.requirements);
    assert [] + u.requirements == u.requirements && [] + u.captures == u.captures;
    SetupRequestRead(lines, u0, u.request, last);
    SetupWhenRead(l1, u1, u.when_, last);
    SetupRequirementsRead(l2, u2, u.requirements, last);
    SetupCapturesRead(l3, u3, u.captures, last);
    assert u3.(captures := u.captures) == u;
    assert SetupInside(u) == a + (b + (c + (d + ["}"])));
  }

  lemma HoldsBrace(lines: seq<Numbered>)
    requires Holds(lines, ["}"])
    ensures lines != [] && lines[0].text == "}"
  {
  }

  // ---------------------------------------------------------------------------
  // Scenarios

  lemma ScenarioStep(lines: seq<Numbered>, s: Scenario, t: Scenario, text: string, last: nat)
    requires lines != [] && lines[0].text == text && IsClause(text)
    requires StripPrefix(text, "setup ").None? && ParseScenarioLine(s, text) == Ok(t)
    ensures ReadScenario(lines, s, last) == ReadScenario(lines[1..], t, last)
  {
    hide ParseScenarioLine, ParseSetupHeader;
  }

  lemma GivenIsClause(e: string)
    ensures IsClause(GivenText(e)) && GivenText(e) != "" && GivenText(e)[0] == 'g'
  {
    assert GivenText(e)[0] == 'g';
    assert ("given " + e)[6..] == e && "given body {"[6..] == "body {";
    assert "given  body {"[6] == ' ';
  }

  lemma StateIsClause(name: string)
    ensures IsClause(StateText(name)) && StripPrefix(StateText(name), "setup ").None?
  {
    assert StateText(name)[0] == 's' && StateText(name)[1] == 't';
    NotPrefixed(StateText(name), "setup ", 1);
  }

  lemma {:induction false} GivensRead(lines: seq<Numbered>, s: Scenario, given: seq<string>, last: nat)
    requires Holds(lines, GivenLines(given)) && forall e <- given :: IsPhrase(e)
    ensures ReadScenario(lines, s, last) == ReadScenario(lines[|given|..], s.(given := s.given + given), last)
    decreases |given|
  {
    hide ParseScenarioLine, ReadScenario, IsPhrase, GivenText, StripPrefix;
    if given == [] {
      assert lines[0..] == lines && s.given + [] == s.given;
    } else {
      var e, tail := given[0], given[1..];
      HoldsOne(lines, GivenText(e), GivenLines(tail));
      GivenIsClause(e);
      NotPrefixed(GivenText(e), "setup ", 0);
      GivenReads(s, e);
      var t := s.(given := s.given + [e]);
      ScenarioStep(lines, s, t, GivenText(e), last);
      GivensRead(lines[1..], t, tail, last);
      assert s.given + [e] + tail == s.given + given;
    }
  }

  lemma StateRead(lines: seq<Numbered>, s: Scenario, state: Option<string>, last: nat)
    requires Holds(lines, Line(state, StateText)) && (state.Some? ==> IsIdentifier(state.value)) && s.state.None?
    ensures ReadScenario(lines, s, last)
         == ReadScenario(lines[|Line(state, StateText)|..], s.(state := state), last)
  {
    hide ParseScenarioLine, ReadScenario, IsIdentifier, StateText;
    if state.Some? {
      StateIsClause(state.value);
      StateReads(s, state.value);
      ScenarioStep(lines, s, s.(state := state), StateText(state.value), last);
    } else {
      assert lines[0..] == lines && s.(state := None) == s;
    }
  }

  lemma ScenarioRequestRead(lines: seq<Numbered>, s: Scenario, request: Option<RequestClause>, last: nat)
    requires Holds(lines, RequestLines(request)) && CanWriteRequest(request) && s.request.None?
    ensures ReadScenario(lines, s, last) == ReadScenario(lines[|RequestLines(request)|..], s.(request := request), last)
  {
    hide ReadBody, BodyLines, WellFormedFields, ParseScenarioLine, ParseSetupHeader;
    if request.Some? {
      RequestRead(lines, request.value.body, last);
      NotPrefixed("given body {", "setup ", 0);
      assert request == Some(RequestClause(request.value.body));
    } else {
      assert lines[0..] == lines && s.(request := None) == s;
    }
  }

  lemma ScenarioWhenRead(lines: seq<Numbered>, s: Scenario, w: Option<WhenClause>, last: nat)
    requires Holds(lines, Line(w, WhenText)) && (w.Some? ==> CanWriteWhen(w.value)) && s.when_.None?
    ensures ReadScenario(lines, s, last) == ReadScenario(lines[|Line(w, WhenText)|..], s.(when_ := w), last)
  {
    hide ParseScenarioLine, ReadScenario, CanWriteWhen, WhenText;
    if w.Some? {
      WhenIsClause(w.value);
      NotPrefixed(WhenText(w.value), "setup ", 0);
      ScenarioWhenReads(s, w.value);
      ScenarioStep(lines, s, s.(when_ := w), WhenText(w.value), last);
    } else {
      assert lines[0..] == lines && s.(when_ := None) == s;
    }
  }

  lemma SetupBlockRead(lines: seq<Numbered>, s: Scenario, u: SetupClause, last: nat)
    requires Holds(lines, SetupLines(u)) && CanWriteSetup(u)
    ensures ReadScenario(lines, s, last)
         == ReadScenario(lines[|SetupLines(u)|..], s.(setups := s.setups + [u]), last)
  {
    hide SetupInside, CanWriteSetup, ReadSetup, ParseSetupHeader, ParseScenarioLine, Opening, Holds;
    HoldsOne(lines, "setup " + Opening(u.name), SetupInside(u));
    Prefixed("setup ", Opening(u.name));
    SetupNameReads(u);
    SetupRead(lines[1..], u, last);
    assert ("setup " + Opening(u.name))[0] == 's';
  }

  lemma SetupNameReads(u: SetupClause)
    requires CanWriteSetup(u)
    ensures ParseSetupHeader(Opening(u.name)) == Ok(SetupClause(u.name, None, None, [], []))
  {
    SetupHeaderReads(u.name);
  }

  lemma {:induction false} SetupsRead(lines: seq<Numbered>, s: Scenario, setups: seq<SetupClause>, last: nat)
    requires Holds(lines, AllSetupLines(setups)) && forall u <- setups :: CanWriteSetup(u)
    ensures ReadScenario(lines, s, last)
         == ReadScenario(lines[|AllSetupLines(setups)|..], s.(setups := s.setups + setups), last)
    decreases |setups|
  {
    hide ReadScenario, CanWriteSetup, SetupLines, Holds;
    if setups == [] {
      assert lines[0..] == lines && s.setups + [] == s.setups;
    } else {
      var u, tail := setups[0], setups[1..];
      HoldsSplit(lines, SetupLines(u), AllSetupLines(tail));
      SetupBlockRead(lines, s, u, last);
      SetupsRead(lines[|SetupLines(u)|..], s.(setups := s.setups + [u]), tail, last);
      assert s.setups + [u] + tail == s.setups + setups;
    }
  }

  lemma {:induction false} ScenarioRequirementsRead(
      lines: seq<Numbered>, s: Scenario, requirements: seq<Requirement>, last: nat)
    requires Holds(lines, RequirementLines(requirements)) && forall r <- requirements :: IsPhrase(r.expression)
    ensures ReadScenario(lines, s, last)
         == ReadScenario(lines[|requirements|..], s.(requirements := s.requirements + requirements), last)
    decreases |requirements|
  {
    hide ParseScenarioLine, ReadScenario, IsPhrase, RequirementText;
    if requirements == [] {
      assert lines[0..] == lines && s.requirements + [] == s.requirements;
    } else {
      var r, tail := requirements[0], requirements[1..];
      HoldsOne(lines, RequirementText(r), RequirementLines(tail));
      RequirementIsClause(r);
      NotPrefixed(RequirementText(r), "setup ", 0);
      ScenarioRequirementReads(s, r);
      var t := s.(requirements := s.requirements + [r]);
      ScenarioStep(lines, s, t, RequirementText(r), last);
      ScenarioRequirementsRead(lines[1..], t, tail, last);
      assert s.requirements + [r] + tail == s.requirements + requirements;
    }
  }

  lemma ScenarioRead(lines: seq<Numbered>, s: Scenario, last: nat)
    requires Holds(lines, ScenarioInside(s)) && CanWriteScenario(s)
    ensures ReadScenario(lines, Scenario(s.name, [], None, None, None, [], []), last)
         == Read(s, lines[|ScenarioInside(s)|..])
  {
    hide RequestLines, Line, RequirementLines, GivenLines, AllSetupLines;
    hide CanWriteRequest, CanWriteWhen, IsPhrase, CanWriteSetup, Holds, IsIdentifier, IsWord;
    var a, b, c := GivenLines(s.given), Line(s.state, StateText), RequestLines(s.request);
    var d, e, f := Line(s.when_, WhenText), AllSetupLines(s.setups), RequirementLines(s.requirements);
    HoldsSplit(lines, a, b + (c + (d + (e + (f + ["}"])))));
    var l1 := lines[|a|..];
    HoldsSplit(l1, b, c + (d + (e + (f + ["}"]))));
    var l2 := l1[|b|..];
    HoldsSplit(l2, c, d + (e + (f + ["}"])));
    var l3 := l2[|c|..];
    HoldsSplit(l3, d, e + (f + ["}"]));
    var l4 := l3[|d|..];
    HoldsSplit(l4, e, f + ["}"]);
    var l5 := l4[|e|..];
    HoldsSplit(l5, f, ["}"]);
    var l6 := l5[|f|..];
    HoldsBrace(l6);
    var s0 := Scenario(s.name, [], None, None, None, [], []);
    var s1 := s0.(given := s.given);
    var s2 := s1.(state := s.state);
    var s3 := s2.(request := s.request);
    var s4 := s3.(when_ := s.when_);
    var s5 := s4.(setups := s.setups);
    assert [] + s.given == s.given && [] + s.setups == s.setups && [] + s.requirements == s.requirements;
    GivensRead(lines, s0, s.given, last);
    StateRead(l1, s1, s.state, last);
    ScenarioRequestRead(l2, s2, s.request, last);
    ScenarioWhenRead(l3, s3, s.when_, last);
    SetupsRead(l4, s4, s.setups, last);
    ScenarioRequirementsRead(l5, s5, s.requirements, last);
    assert s5.(requirements := s.requirements) == s;
    assert ScenarioInside(s) == a + (b + (c + (d + (e + (f + ["}"])))));
  }

  // ---------------------------------------------------------------------------
  // Blocks of clauses

  lemma ClauseStep<T>(
      lines: seq<Numbered>, block: T, changed: T, parse: (T, string) -> Result<T, ErrorKind>, unclosed: ErrorKind,
      text: string, last: nat)
    requires lines != [] && lines[0].text == text && text != "}" && parse(block, text) == Ok(changed)
    ensures ReadClauses(lines, block, parse, unclosed, last) == ReadClauses(lines[1..], changed, parse, unclosed, last)
  {
  }

  lemma ClausesEnd<T>(
      lines: seq<Numbered>, block: T, parse: (T, string) -> Result<T, ErrorKind>, unclosed: ErrorKind, last: nat)
    requires Holds(lines, ["}"])
    ensures ReadClauses(lines, block, parse, unclosed, last) == Read(block, lines[1..])
  {
  }

  /** A clause that may be left out. */
  lemma OptionalClause<T, U>(
      lines: seq<Numbered>, block: T, changed: T, parse: (T, string) -> Result<T, ErrorKind>, unclosed: ErrorKind,
      x: Option<U>, text: U -> string, last: nat)
    requires Holds(lines, Line(x, text))
    requires if x.Some? then text(x.value) != "}" && parse(block, text(x.value)) == Ok(changed) else changed == block
    ensures ReadClauses(lines, block, parse, unclosed, last)
         == ReadClauses(lines[|Line(x, text)|..], changed, parse, unclosed, last)
  {
    if x.Some? {
      ClauseStep(lines, block, changed, parse, unclosed, text(x.value), last);
    } else {
      assert lines[0..] == lines;
    }
  }

  lemma MutationRead(lines: seq<Numbered>, m: MutationClause, last: nat)
    requires Holds(lines, MutationInside(m)) && CanWriteMutation(m)
    ensures ReadMutation(lines, MutationClause(m.id, None, None, None), last) == Read(m, lines[|MutationInside(m)|..])
  {
    hide Line, ReadClauses, ParseMutationLine, TargetText, ChangeText, RuleText, IsIdentifier, IsPhrase, Holds;
    var a, b, c := Line(m.scenario, TargetText), Line(m.change, ChangeText), Line(m.expectedRule, RuleText);
    HoldsSplit(lines, a, b + (c + ["}"]));
    var l1 := lines[|a|..];
    HoldsSplit(l1, b, c + ["}"]);
    var l2 := l1[|b|..];
    HoldsSplit(l2, c, ["}"]);
    var l3 := l2[|c|..];
    var m0 := MutationClause(m.id, None, None, None);
    var m1 := m0.(scenario := m.scenario);
    var m2 := m1.(change := m.change);
    MutationSteps(m0, m1, m2, m);
    OptionalClause(lines, m0, m1, ParseMutationLine, MutationUnclosed, m.scenario, TargetText, last);
    OptionalClause(l1, m1, m2, ParseMutationLine, MutationUnclosed, m.change, ChangeText, last);
    OptionalClause(l2, m2, m, ParseMutationLine, MutationUnclosed, m.expectedRule, RuleText, last);
    ClausesEnd(l3, m, ParseMutationLine, MutationUnclosed, last);
    assert MutationInside(m) == a + (b + (c + ["}"]));
  }

  lemma MutationSteps(m0: MutationClause, m1: MutationClause, m2: MutationClause, m: MutationClause)
    requires CanWriteMutation(m) && m0 == MutationClause(m.id, None, None, None)
    requires m1 == m0.(scenario := m.scenario) && m2 == m1.(change := m.change)
    ensures m.scenario.Some? ==>
      TargetText(m.scenario.value) != "}" && ParseMutationLine(m0, TargetText(m.scenario.value)) == Ok(m1)
    ensures m.change.Some? ==>
      ChangeText(m.change.value) != "}" && ParseMutationLine(m1, ChangeText(m.change.value)) == Ok(m2)
    ensures m.expectedRule.Some? ==>
      RuleText(m.expectedRule.value) != "}" && ParseMutationLine(m2, RuleText(m.expectedRule.value)) == Ok(m)
  {
    hide ParseMutationLine, IsIdentifier, IsPhrase, FormatInt;
    if m.scenario.Some? {
      TargetReads(m0, m.scenario.value);
      assert TargetText(m.scenario.value)[0] == 't';
    }
    if m.change.Some? {
      ChangeReads(m1, m.change.value);
      assert ChangeText(m.change.value)[0] == 'c';
    }
    if m.expectedRule.Some? {
      RuleReads(m2, m.expectedRule.value);
      assert RuleText(m.expectedRule.value)[0] == 'e';
    }
  }

  lemma FixtureRead(lines: seq<Numbered>, f: FixtureClause, last: nat)
    requires Holds(lines, FixtureInside(f)) && CanWriteFixture(f)
    ensures ReadFixture(lines, FixtureClause(f.id, None, None, None), last) == Read(f, lines[|FixtureInside(f)|..])
  {
    hide Line, ReadClauses, ParseFixtureLine, PurposeText, DigestText, OWNER_TEXT, IsClean, Holds;
    var ownerText := (owner: FixtureOwner) => OWNER_TEXT;
    var a, b, c := Line(f.owner, ownerText), Line(f.purpose, PurposeText), Line(f.sha256, DigestText);
    assert FixtureInside(f) == a + (b + (c + ["}"]));
    HoldsSplit(lines, a, b + (c + ["}"]));
    var l1 := lines[|a|..];
    HoldsSplit(l1, b, c + ["}"]);
    var l2 := l1[|b|..];
    HoldsSplit(l2, c, ["}"]);
    var l3 := l2[|c|..];
    var f0 := FixtureClause(f.id, None, None, None);
    var f1 := f0.(owner := f.owner);
    var f2 := f1.(purpose := f.purpose);
    FixtureSteps(f0, f1, f2, f);
    OptionalClause(lines, f0, f1, ParseFixtureLine, FixtureUnclosed, f.owner, ownerText, last);
    OptionalClause(l1, f1, f2, ParseFixtureLine, FixtureUnclosed, f.purpose, PurposeText, last);
    OptionalClause(l2, f2, f, ParseFixtureLine, FixtureUnclosed, f.sha256, DigestText, last);
    ClausesEnd(l3, f, ParseFixtureLine, FixtureUnclosed, last);
  }

  lemma FixtureSteps(f0: FixtureClause, f1: FixtureClause, f2: FixtureClause, f: FixtureClause)
    requires CanWriteFixture(f) && f0 == FixtureClause(f.id, None, None, None)
    requires f1 == f0.(owner := f.owner) && f2 == f1.(purpose := f.purpose)
    ensures f.owner.Some? ==> OWNER_TEXT != "}" && ParseFixtureLine(f0, OWNER_TEXT) == Ok(f1)
    ensures f.purpose.Some? ==>
      PurposeText(f.purpose.value) != "}" && ParseFixtureLine(f1, PurposeText(f.purpose.value)) == Ok(f2)
    ensures f.sha256.Some? ==>
      DigestText(f.sha256.value) != "}" && ParseFixtureLine(f2, DigestText(f.sha256.value)) == Ok(f)
  {
    hide ParseFixtureLine, IsClean, Quoted;
    if f.owner.Some? {
      OwnerReads(f0);
      assert f.owner.value == Oracle;
    }
    if f.purpose.Some? {
      PurposeReads(f1, f.purpose.value);
      assert PurposeText(f.purpose.value)[0] == 'p';
    }
    if f.sha256.Some? {
      DigestReads(f2, f.sha256.value);
      assert DigestText(f.sha256.value)[0] == 's';
    }
  }

  lemma ProvenanceRead(lines: seq<Numbered>, p: ProvenanceClause, last: nat)
    requires Holds(lines, ProvenanceInside(p)) && |p.requirements| <= 1
    ensures ReadProvenance(lines, ProvenanceClause([]), last) == Read(p, lines[|ProvenanceInside(p)|..])
  {
    hide ReadClauses, ParseProvenanceLine, EXECUTION_ID_TEXT, Holds;
    if p.requirements == [] {
      assert ProvenanceInside(p) == ["}"];
      ClausesEnd(lines, p, ParseProvenanceLine, ProvenanceUnclosed, last);
    } else {
      var required := ProvenanceRequirement(Create, ExecutionId);
      assert p.requirements[0].kind == Create && p.requirements[0].field == ExecutionId;
      assert p.requirements == [required] && [] + [required] == [required];
      HoldsOne(lines, EXECUTION_ID_TEXT, ["}"]);
      ExecutionIdReads(ProvenanceClause([]));
      ExecutionIdIsClause();
      ClauseStep(lines, ProvenanceClause([]), p, ParseProvenanceLine, ProvenanceUnclosed, EXECUTION_ID_TEXT, last);
      ClausesEnd(lines[1..], p, ParseProvenanceLine, ProvenanceUnclosed, last);
    }
  }

  lemma ExecutionIdIsClause()
    ensures EXECUTION_ID_TEXT != "}"
  {
    assert EXECUTION_ID_TEXT[0] == 'm';
  }

  lemma IsolationRead(lines: seq<Numbered>, i: IsolationClause, last: nat)
    requires Holds(lines, IsolationInside(i)) && CanWriteIsolation(i)
    ensures ReadIsolation(lines, IsolationClause(PerScenario, None), last) == Read(i, lines[|IsolationInside(i)|..])
  {
    hide Line, ReadClauses, ParseIsolationLine, ResetText, IsClean, Holds;
    var resetText := (r: ResetClause) => ResetText(r.path);
    var a := Line(i.reset, resetText);
    assert IsolationInside(i) == a + ["}"];
    HoldsSplit(lines, a, ["}"]);
    var i0 := IsolationClause(PerScenario, None);
    if i.reset.Some? {
      ResetReads(i0, i.reset.value.path);
      ResetIsClause(i.reset.value.path);
      assert i == i0.(reset := Some(ResetClause("POST", i.reset.value.path)));
    }
    OptionalClause(lines, i0, i, ParseIsolationLine, IsolationUnclosed, i.reset, resetText, last);
    ClausesEnd(lines[|a|..], i, ParseIsolationLine, IsolationUnclosed, last);
  }

  lemma ResetIsClause(path: string)
    ensures ResetText(path) != "}"
  {
    assert ResetText(path)[0] == 'r';
  }
}
