/** Every specification that can be written is what its source text is accepted as. */
module SourceAccepted {
  import opened Text
  import opened Ast
  import opened StringCodec
  import opened LiteralRoundTrip
  import opened LiteralSource
  import opened ClauseLines
  import opened BlockMachine
  import opened BlockGrammar
  import opened Layout
  import opened ClauseText
  import opened SourceText
  import opened SourceRoundTrip
  import B = BrokenSources
  import R = BlockRefinement

  // ---------------------------------------------------------------------------
  // One item

  predicate WasSeen(seen: Seen, item: Item) {
    (item.SubjectItem? && seen.subject) || (item.ProvenanceItem? && seen.provenance)
    || (item.IsolationItem? && seen.isolation)
  }

  /** Where an item begins. */
  lemma HeaderIsClassified(item: Item)
    ensures var text := ItemLines(item)[0]; Classify(text) == match item
      case SubjectItem(subject) => SubjectLine(Quoted(subject))
      case ScenarioItem(scenario) => ScenarioLine(Opening(scenario.name))
      case MutationItem(mutation) => MutationLine(Opening(Quoted(mutation.id)))
      case FixtureItem(fixture) => FixtureLine(Opening(Quoted(fixture.id)))
      case ProvenanceItem(_) => ProvenanceLine
      case IsolationItem(_) => IsolationLine
  {
    hide ScenarioInside, MutationInside, FixtureInside, ProvenanceInside, IsolationInside, Opening, Quoted;
    var text := ItemLines(item)[0];
    match item
    case SubjectItem(subject) =>
      Prefixed("subject ", Quoted(subject));
      assert text[0] == 's';
    case ScenarioItem(scenario) =>
      Prefixed("scenario ", Opening(scenario.name));
      assert text[0] == 's';
      NotPrefixed(text, "subject ", 1);
    case MutationItem(mutation) =>
      Prefixed("mutation ", Opening(Quoted(mutation.id)));
      assert text[0] == 'm';
      NotPrefixed(text, "subject ", 0);
      NotPrefixed(text, "scenario ", 0);
    case FixtureItem(fixture) =>
      Prefixed("fixture ", Opening(Quoted(fixture.id)));
      assert text[0] == 'f';
      NotPrefixed(text, "subject ", 0);
      NotPrefixed(text, "scenario ", 0);
      NotPrefixed(text, "mutation ", 0);
    case ProvenanceItem(_) =>
      OtherHeader(text);
    case IsolationItem(_) =>
      OtherHeader(text);
      assert "isolation per scenario {"[0] != "provenance {"[0];
  }

  lemma OtherHeader(text: string)
    requires text != "" && (text[0] == 'p' || text[0] == 'i')
    ensures StripPrefix(text, "subject ").None? && StripPrefix(text, "scenario ").None?
    ensures StripPrefix(text, "mutation ").None? && StripPrefix(text, "fixture ").None? && text != "}"
  {
    NotPrefixed(text, "subject ", 0);
    NotPrefixed(text, "scenario ", 0);
    NotPrefixed(text, "mutation ", 0);
    NotPrefixed(text, "fixture ", 0);
  }

  predicate ReadsAs(lines: seq<Numbered>, item: Item, seen: Seen, last: nat) {
    && lines != [] && !Classify(lines[0].text).CloseLine? && |ItemLines(item)| <= |lines|
    && ReadItem(lines[0], lines[1..], seen, last) == Read(item, lines[|ItemLines(item)|..])
  }

  lemma ScenarioItemRead(lines: seq<Numbered>, s: Scenario, seen: Seen, last: nat)
    requires Holds(lines, ItemLines(ScenarioItem(s))) && CanWriteScenario(s)
    ensures ReadsAs(lines, ScenarioItem(s), seen, last)
  {
    hide ScenarioInside, CanWriteScenario, ReadScenario, ParseScenarioHeader, Opening, Classify;
    HeaderIsClassified(ScenarioItem(s));
    HoldsOne(lines, "scenario " + Opening(s.name), ScenarioInside(s));
    ScenarioNameReads(s);
    ScenarioRead(lines[1..], s, last);
  }

  lemma ScenarioNameReads(s: Scenario)
    requires CanWriteScenario(s)
    ensures ParseScenarioHeader(Opening(s.name)) == Ok(Scenario(s.name, [], None, None, None, [], []))
  {
    ScenarioHeaderReads(s.name);
  }

  lemma MutationItemRead(lines: seq<Numbered>, m: MutationClause, seen: Seen, last: nat)
    requires Holds(lines, ItemLines(MutationItem(m))) && CanWriteMutation(m)
    ensures ReadsAs(lines, MutationItem(m), seen, last)
  {
    hide MutationInside, ReadMutation, ParseMutationHeader, Opening, Classify, Quoted, IsClean, IsIdentifier, IsPhrase;
    HeaderIsClassified(MutationItem(m));
    HoldsOne(lines, "mutation " + Opening(Quoted(m.id)), MutationInside(m));
    MutationHeaderReads(m.id);
    MutationRead(lines[1..], m, last);
  }

  lemma FixtureItemRead(lines: seq<Numbered>, f: FixtureClause, seen: Seen, last: nat)
    requires Holds(lines, ItemLines(FixtureItem(f))) && CanWriteFixture(f)
    ensures ReadsAs(lines, FixtureItem(f), seen, last)
  {
    hide FixtureInside, ReadFixture, ParseFixtureHeader, Opening, Classify, Quoted, IsClean;
    HeaderIsClassified(FixtureItem(f));
    HoldsOne(lines, "fixture " + Opening(Quoted(f.id)), FixtureInside(f));
    FixtureHeaderReads(f.id);
    FixtureRead(lines[1..], f, last);
  }

  lemma SubjectItemRead(lines: seq<Numbered>, subject: string, seen: Seen, last: nat)
    requires Holds(lines, ItemLines(SubjectItem(subject))) && IsClean(subject) && !seen.subject
    ensures ReadsAs(lines, SubjectItem(subject), seen, last)
  {
    hide Classify, ParseQuoted, Quoted, IsClean;
    HeaderIsClassified(SubjectItem(subject));
    QuotedParses(subject);
    HoldsOne(lines, "subject " + Quoted(subject), []);
  }

  lemma ProvenanceItemRead(lines: seq<Numbered>, p: ProvenanceClause, seen: Seen, last: nat)
    requires Holds(lines, ItemLines(ProvenanceItem(p))) && CanWriteItem(ProvenanceItem(p)) && !seen.provenance
    ensures ReadsAs(lines, ProvenanceItem(p), seen, last)
  {
    hide Classify, ProvenanceInside, ReadProvenance;
    HeaderIsClassified(ProvenanceItem(p));
    HoldsOne(lines, "provenance {", ProvenanceInside(p));
    ProvenanceRead(lines[1..], p, last);
  }

  lemma IsolationItemRead(lines: seq<Numbered>, i: IsolationClause, seen: Seen, last: nat)
    requires Holds(lines, ItemLines(IsolationItem(i))) && CanWriteIsolation(i) && !seen.isolation
    ensures ReadsAs(lines, IsolationItem(i), seen, last)
  {
    hide Classify, IsolationInside, ReadIsolation, CanWriteIsolation;
    HeaderIsClassified(IsolationItem(i));
    HoldsOne(lines, "isolation per scenario {", IsolationInside(i));
    IsolationRead(lines[1..], i, last);
  }

  lemma ItemRead(lines: seq<Numbered>, item: Item, seen: Seen, last: nat)
    requires Holds(lines, ItemLines(item)) && CanWriteItem(item) && !WasSeen(seen, item)
    ensures ReadsAs(lines, item, seen, last)
  {
    hide ReadsAs, Holds, ItemLines, CanWriteScenario, CanWriteMutation, CanWriteFixture, CanWriteIsolation, IsClean;
    match item
    case SubjectItem(subject) => SubjectItemRead(lines, subject, seen, last);
    case ScenarioItem(scenario) => ScenarioItemRead(lines, scenario, seen, last);
    case MutationItem(mutation) => MutationItemRead(lines, mutation, seen, last);
    case FixtureItem(fixture) => FixtureItemRead(lines, fixture, seen, last);
    case ProvenanceItem(provenance) => ProvenanceItemRead(lines, provenance, seen, last);
    case IsolationItem(isolation) => IsolationItemRead(lines, isolation, seen, last);
  }

  // ---------------------------------------------------------------------------
  // All items

  /** What may stand once does not come again. */
  predicate OnceEach(items: seq<Item>, seen: Seen)
    decreases |items|
  {
    items == [] || (!WasSeen(seen, items[0]) && OnceEach(items[1..], Note(seen, items[0])))
  }

  lemma {:induction false} ItemsRead(lines: seq<Numbered>, items: seq<Item>, seen: Seen, last: nat)
    requires Holds(lines, AllItemLines(items) + ["}"]) && OnceEach(items, seen)
    requires forall item <- items :: CanWriteItem(item)
    ensures ReadItems(lines, seen, last) == Ok(items)
    decreases |items|
  {
    hide ItemLines, CanWriteItem, ReadItem, Note, WasSeen, Holds;
    if items == [] {
      assert AllItemLines(items) + ["}"] == ["}"];
      HoldsBrace(lines);
    } else {
      var item, tail := items[0], items[1..];
      assert items == [item] + tail;
      assert AllItemLines(items) + ["}"] == ItemLines(item) + (AllItemLines(tail) + ["}"]);
      HoldsSplit(lines, ItemLines(item), AllItemLines(tail) + ["}"]);
      ItemRead(lines, item, seen, last);
      ItemsRead(lines[|ItemLines(item)|..], tail, Note(seen, item), last);
    }
  }

  /** Items that may stand any number of times, before others. */
  lemma {:induction false} RepeatableItems(items: seq<Item>, rest: seq<Item>, seen: Seen)
    requires forall item <- items :: item.ScenarioItem? || item.MutationItem? || item.FixtureItem?
    requires OnceEach(rest, seen)
    ensures OnceEach(items + rest, seen)
    decreases |items|
  {
    if items == [] {
      assert items + rest == rest;
    } else {
      assert items[0] in items && Note(seen, items[0]) == seen;
      assert (items + rest)[0] == items[0] && (items + rest)[1..] == items[1..] + rest;
      RepeatableItems(items[1..], rest, seen);
    }
  }

  lemma OneItem(item: Item, rest: seq<Item>, seen: Seen)
    requires !WasSeen(seen, item) && OnceEach(rest, Note(seen, item))
    ensures OnceEach([item] + rest, seen)
  {
    assert ([item] + rest)[1..] == rest;
  }

  lemma {:induction false} SeenLess(items: seq<Item>, seen: Seen, less: Seen)
    requires OnceEach(items, seen)
    requires (less.subject ==> seen.subject) && (less.provenance ==> seen.provenance)
    requires less.isolation ==> seen.isolation
    ensures OnceEach(items, less)
    decreases |items|
  {
    if items != [] {
      SeenLess(items[1..], Note(seen, items[0]), Note(less, items[0]));
    }
  }

  lemma ItemsOfOnce(spec: Specification)
    ensures OnceEach(ItemsOf(spec), Seen(false, false, false))
  {
    var a := OptionalItem(spec.subject, (s: string) => SubjectItem(s));
    var b := Items(spec.scenarios, (s: Scenario) => ScenarioItem(s));
    var c := Items(spec.fixtures, (f: FixtureClause) => FixtureItem(f));
    var d := Items(spec.mutations, (m: MutationClause) => MutationItem(m));
    var e := OptionalItem(spec.provenance, (p: ProvenanceClause) => ProvenanceItem(p));
    var f := OptionalItem(spec.isolation, (i: IsolationClause) => IsolationItem(i));
    var subject := Seen(true, false, false);
    assert OnceEach(f, Seen(true, true, false));
    SeenLess(f, Seen(true, true, false), subject);
    assert e == [] ==> e + f == f;
    if e != [] {
      OneItem(e[0], f, subject);
      assert e == [e[0]];
    }
    RepeatableItems(d, e + f, subject);
    RepeatableItems(c, d + (e + f), subject);
    RepeatableItems(b, c + (d + (e + f)), subject);
    var rest := b + (c + (d + (e + f)));
    SeenLess(rest, subject, Seen(false, false, false));
    if a == [] {
      assert a + rest == rest;
    } else {
      OneItem(a[0], rest, Seen(false, false, false));
      assert a == [a[0]];
    }
    assert ItemsOf(spec) == a + rest;
  }

  lemma ItemsOfCanBeWritten(spec: Specification)
    requires CanWrite(spec)
    ensures forall item <- ItemsOf(spec) :: CanWriteItem(item)
  {
    hide CanWriteScenario, CanWriteFixture, CanWriteMutation, CanWriteIsolation, IsClean, IsWord;
    var b := Items(spec.scenarios, (s: Scenario) => ScenarioItem(s));
    var c := Items(spec.fixtures, (f: FixtureClause) => FixtureItem(f));
    var d := Items(spec.mutations, (m: MutationClause) => MutationItem(m));
    forall item <- b ensures CanWriteItem(item) {
      var i :| 0 <= i < |b| && b[i] == item;
      assert spec.scenarios[i] in spec.scenarios;
    }
    forall item <- c ensures CanWriteItem(item) {
      var i :| 0 <= i < |c| && c[i] == item;
      assert spec.fixtures[i] in spec.fixtures;
    }
    forall item <- d ensures CanWriteItem(item) {
      var i :| 0 <= i < |d| && d[i] == item;
      assert spec.mutations[i] in spec.mutations;
    }
  }

  // ---------------------------------------------------------------------------
  // Putting the items together

  lemma {:induction false} AssembleAppend(spec: Specification, a: seq<Item>, b: seq<Item>)
    ensures Assemble(spec, a + b) == Assemble(Assemble(spec, a), b)
    decreases |a|
  {
    if a == [] {
      assert a + b == b;
    } else {
      assert (a + b)[0] == a[0] && (a + b)[1..] == a[1..] + b;
      AssembleAppend(Add(spec, a[0]), a[1..], b);
    }
  }

  lemma AssembleStep(spec: Specification, items: seq<Item>)
    ensures Assemble(spec, items) == if items == [] then spec else Assemble(Add(spec, items[0]), items[1..])
  {
  }

  lemma FirstAndRest<T>(before: seq<T>, xs: seq<T>)
    requires xs != []
    ensures before + [xs[0]] + xs[1..] == before + xs
  {
  }

  lemma {:induction false} AssembleScenarios(spec: Specification, scenarios: seq<Scenario>)
    ensures Assemble(spec, Items(scenarios, (s: Scenario) => ScenarioItem(s)))
         == spec.(scenarios := spec.scenarios + scenarios)
    decreases |scenarios|
  {
    hide Assemble;
    var items := Items(scenarios, (s: Scenario) => ScenarioItem(s));
    AssembleStep(spec, items);
    if scenarios == [] {
      assert spec.scenarios + [] == spec.scenarios;
    } else {
      var next := spec.(scenarios := spec.scenarios + [scenarios[0]]);
      assert items[0] == ScenarioItem(scenarios[0]) && Add(spec, items[0]) == next;
      assert items[1..] == Items(scenarios[1..], (s: Scenario) => ScenarioItem(s));
      AssembleScenarios(next, scenarios[1..]);
      hide Items;
      FirstAndRest(spec.scenarios, scenarios);
    }
  }

  lemma {:induction false} AssembleFixtures(spec: Specification, fixtures: seq<FixtureClause>)
    ensures Assemble(spec, Items(fixtures, (f: FixtureClause) => FixtureItem(f)))
         == spec.(fixtures := spec.fixtures + fixtures)
    decreases |fixtures|
  {
    hide Assemble;
    var items := Items(fixtures, (f: FixtureClause) => FixtureItem(f));
    AssembleStep(spec, items);
    if fixtures == [] {
      assert spec.fixtures + [] == spec.fixtures;
    } else {
      var next := spec.(fixtures := spec.fixtures + [fixtures[0]]);
      assert items[0] == FixtureItem(fixtures[0]) && Add(spec, items[0]) == next;
      assert items[1..] == Items(fixtures[1..], (f: FixtureClause) => FixtureItem(f));
      AssembleFixtures(next, fixtures[1..]);
      hide Items;
      FirstAndRest(spec.fixtures, fixtures);
    }
  }

  lemma {:induction false} AssembleMutations(spec: Specification, mutations: seq<MutationClause>)
    ensures Assemble(spec, Items(mutations, (m: MutationClause) => MutationItem(m)))
         == spec.(mutations := spec.mutations + mutations)
    decreases |mutations|
  {
    hide Assemble;
    var items := Items(mutations, (m: MutationClause) => MutationItem(m));
    AssembleStep(spec, items);
    if mutations == [] {
      assert spec.mutations + [] == spec.mutations;
    } else {
      var next := spec.(mutations := spec.mutations + [mutations[0]]);
      assert items[0] == MutationItem(mutations[0]) && Add(spec, items[0]) == next;
      assert items[1..] == Items(mutations[1..], (m: MutationClause) => MutationItem(m));
      AssembleMutations(next, mutations[1..]);
      hide Items;
      FirstAndRest(spec.mutations, mutations);
    }
  }

  lemma AssembleOptional<T>(spec: Specification, x: Option<T>, item: T -> Item)
    ensures Assemble(spec, OptionalItem(x, item)) == if x.Some? then Add(spec, item(x.value)) else spec
  {
    if x.Some? {
      assert [item(x.value)][1..] == [];
    }
  }

  lemma SinglesAdded(spec: Specification, s0: Specification, s4: Specification, s5: Specification)
    requires s0.subject.None? && s4.provenance.None? && s5.isolation.None?
    requires s5 == spec.(isolation := None)
    ensures s0.(subject := spec.subject) == if spec.subject.Some? then Add(s0, SubjectItem(spec.subject.value)) else s0
    ensures s4.(provenance := spec.provenance)
         == if spec.provenance.Some? then Add(s4, ProvenanceItem(spec.provenance.value)) else s4
    ensures spec == if spec.isolation.Some? then Add(s5, IsolationItem(spec.isolation.value)) else s5
  {
  }

  lemma AssembleSix(
      spec: Specification, a: seq<Item>, b: seq<Item>, c: seq<Item>, d: seq<Item>, e: seq<Item>, f: seq<Item>)
    ensures Assemble(spec, a + (b + (c + (d + (e + f)))))
      == Assemble(Assemble(Assemble(Assemble(Assemble(Assemble(spec, a), b), c), d), e), f)
  {
    hide Assemble;
    var s1 := Assemble(spec, a);
    var s2 := Assemble(s1, b);
    var s3 := Assemble(s2, c);
    AssembleAppend(spec, a, b + (c + (d + (e + f))));
    AssembleAppend(s1, b, c + (d + (e + f)));
    AssembleAppend(s2, c, d + (e + f));
    AssembleAppend(s3, d, e + f);
    AssembleAppend(Assemble(s3, d), e, f);
  }

  lemma ItemsOfAssemble(spec: Specification)
    ensures Assemble(Specification(spec.name, spec.version, None, [], [], [], None, None), ItemsOf(spec)) == spec
  {
    var a := OptionalItem(spec.subject, (s: string) => SubjectItem(s));
    var b := Items(spec.scenarios, (s: Scenario) => ScenarioItem(s));
    var c := Items(spec.fixtures, (f: FixtureClause) => FixtureItem(f));
    var d := Items(spec.mutations, (m: MutationClause) => MutationItem(m));
    var e := OptionalItem(spec.provenance, (p: ProvenanceClause) => ProvenanceItem(p));
    var f := OptionalItem(spec.isolation, (i: IsolationClause) => IsolationItem(i));
    assert ItemsOf(spec) == a + (b + (c + (d + (e + f))));
    hide Assemble, Items, OptionalItem, ItemsOf, Add;
    var s0 := Specification(spec.name, spec.version, None, [], [], [], None, None);
    var s1 := s0.(subject := spec.subject);
    var s2 := s1.(scenarios := [] + spec.scenarios);
    var s3 := s2.(fixtures := [] + spec.fixtures);
    var s4 := s3.(mutations := [] + spec.mutations);
    var s5 := s4.(provenance := spec.provenance);
    AssembleOptional(s0, spec.subject, (s: string) => SubjectItem(s));
    AssembleScenarios(s1, spec.scenarios);
    AssembleFixtures(s2, spec.fixtures);
    AssembleMutations(s3, spec.mutations);
    AssembleOptional(s4, spec.provenance, (p: ProvenanceClause) => ProvenanceItem(p));
    AssembleOptional(s5, spec.isolation, (i: IsolationClause) => IsolationItem(i));
    SinglesAdded(spec, s0, s4, s5);
    AssembleSix(s0, a, b, c, d, e, f);
  }

  // ---------------------------------------------------------------------------
  // Every line is one visible line, and no comment

  predicate IsLine(text: string) { IsPhrase(text) && text[0] != '#' }

  predicate AreLines(texts: seq<string>) { forall t <- texts :: IsLine(t) }

  predicate EndsLine(tail: string) { tail != "" && !IsWhitespace(tail[|tail| - 1]) && '\n' !in tail }

  predicate StartsLine(p: string) { p != "" && !IsWhitespace(p[0]) && p[0] != '#' && '\n' !in p }

  lemma LineOf(p: string, tail: string)
    requires StartsLine(p) && EndsLine(tail)
    ensures IsLine(p + tail)
  {
    var s := p + tail;
    assert s[0] == p[0] && s[|s| - 1] == tail[|tail| - 1];
  }

  lemma EndsMore(p: string, tail: string)
    requires '\n' !in p && EndsLine(tail)
    ensures EndsLine(p + tail)
  {
    assert (p + tail)[|p + tail| - 1] == tail[|tail| - 1];
  }

  lemma QuotedEnds(v: string)
    ensures EndsLine(Quoted(v)) && '\n' !in Quoted(v)
  {
    QuotedIsPhrase(v);
  }

  lemma OpeningEnds(content: string)
    requires '\n' !in content
    ensures EndsLine(Opening(content))
  {
  }

  lemma WordHasNoBreak(w: string)
    requires IsWord(w)
    ensures '\n' !in w && EndsLine(w)
  {
    WordIsPhrase(w);
  }

  predicate IsKeywordChar(c: char) { 'a' <= c <= 'z' || IsDigit(c) || c == ' ' || c == '_' || c == '{' || c == '}' }

  lemma KeywordStarts(p: string)
    requires p != "" && p[0] != ' ' && forall c <- p :: IsKeywordChar(c)
    ensures StartsLine(p)
  {
    assert p[0] in p;
  }

  lemma KeywordIsLine(p: string)
    requires p != "" && p[0] != ' ' && p[|p| - 1] != ' ' && forall c <- p :: IsKeywordChar(c)
    ensures IsLine(p)
  {
    assert p[0] in p && p[|p| - 1] in p;
  }

  lemma LinesAppend(a: seq<string>, b: seq<string>)
    requires AreLines(a) && AreLines(b)
    ensures AreLines(a + b)
  {
    hide IsLine;
  }

  lemma OneLine(text: string)
    requires IsLine(text)
    ensures AreLines([text])
  {
    hide IsLine;
  }

  lemma BraceIsLine()
    ensures AreLines(["}"])
  {
    KeywordIsLine("}");
    OneLine("}");
  }

  lemma PhraseEnds(e: string)
    requires IsPhrase(e)
    ensures EndsLine(e)
  {
  }

  lemma {:induction false} GivenAreLines(given: seq<string>)
    requires forall e <- given :: IsPhrase(e)
    ensures AreLines(GivenLines(given))
  {
    hide IsPhrase, IsLine, StartsLine, EndsLine;
    if given != [] {
      var e := given[0];
      if e == "body {" {
        KeywordIsLine("given  body {");
      } else {
        PhraseEnds(e);
        KeywordStarts("given ");
        LineOf("given ", e);
      }
      OneLine(GivenText(e));
      GivenAreLines(given[1..]);
      LinesAppend([GivenText(e)], GivenLines(given[1..]));
    }
  }

  lemma {:induction false} RequirementsAreLines(requirements: seq<Requirement>)
    requires forall r <- requirements :: IsPhrase(r.expression)
    ensures AreLines(RequirementLines(requirements))
  {
    hide IsPhrase, IsLine, StartsLine, EndsLine;
    if requirements != [] {
      var r := requirements[0];
      PhraseEnds(r.expression);
      KeywordStarts("must ");
      KeywordStarts("must_not ");
      LineOf(match r.kind case Must => "must " case MustNot => "must_not ", r.expression);
      OneLine(RequirementText(r));
      RequirementsAreLines(requirements[1..]);
      LinesAppend([RequirementText(r)], RequirementLines(requirements[1..]));
    }
  }

  lemma CaptureIsLine(c: CaptureClause)
    requires CanWriteCapture(c)
    ensures IsLine(CaptureText(c))
  {
    var path := c.selector[5..];
    assert c.selector == "body." + path;
    SelectorIsPhrase(path);
    assert SELECTOR_PREFIX + path == "response." + c.selector;
    PhraseEnds(SELECTOR_PREFIX + path);
    IdentifierIsWord(c.name);
    KeywordStarts("capture ");
    hide IsSelectorPath, IsIdentifier, IsPhrase, IsLine, StartsLine, IsWord;
    assert c.name + " = response." + c.selector == (c.name + " = ") + (SELECTOR_PREFIX + path);
    assert '\n' !in c.name + " = ";
    EndsMore(c.name + " = ", SELECTOR_PREFIX + path);
    LineOf("capture ", c.name + " = response." + c.selector);
  }

  lemma {:induction false} CapturesAreLines(captures: seq<CaptureClause>)
    requires forall c <- captures :: CanWriteCapture(c)
    ensures AreLines(CaptureLines(captures))
  {
    hide CanWriteCapture, IsLine;
    if captures != [] {
      CaptureIsLine(captures[0]);
      OneLine(CaptureText(captures[0]));
      CapturesAreLines(captures[1..]);
      LinesAppend([CaptureText(captures[0])], CaptureLines(captures[1..]));
    }
  }

  lemma LiteralEndsLine(l: Literal)
    ensures EndsLine(LiteralText(l))
  {
    LiteralIsOneLine(l);
    LiteralEnds(l);
    assert IsControl('\n');
    hide LiteralText;
  }

  lemma BodyIsLine(f: BodyField)
    requires IsIdentifier(f.name)
    ensures IsLine(BodyText(f))
  {
    LiteralEndsLine(f.value);
    IdentifierIsWord(f.name);
    assert IsNameStart(f.name[0]);
    hide IsIdentifier, LiteralText, EndsLine, IsLine;
    LineOf(f.name + " = ", LiteralText(f.value));
  }

  lemma {:induction false} BodiesAreLines(fields: seq<BodyField>)
    requires WellFormedFields(fields)
    ensures AreLines(BodyLines(fields))
  {
    hide IsLine, BodyText, WellFormed, IsIdentifier;
    if fields != [] {
      BodyIsLine(fields[0]);
      OneLine(BodyText(fields[0]));
      BodiesAreLines(fields[1..]);
      LinesAppend([BodyText(fields[0])], BodyLines(fields[1..]));
    }
  }

  lemma RequestIsLines(request: Option<RequestClause>)
    requires CanWriteRequest(request)
    ensures AreLines(RequestLines(request))
  {
    hide IsLine, WellFormedFields, DistinctNames, BodyLines;
    if request.Some? {
      KeywordIsLine("given body {");
      OneLine("given body {");
      BodiesAreLines(request.value.body);
      BraceIsLine();
      LinesAppend(BodyLines(request.value.body), ["}"]);
      LinesAppend(["given body {"], BodyLines(request.value.body) + ["}"]);
    }
  }

  lemma WhenIsLines(w: Option<WhenClause>)
    requires w.Some? ==> CanWriteWhen(w.value)
    ensures AreLines(Line(w, WhenText))
  {
    hide IsLine, StartsLine, EndsLine, Quoted;
    if w.Some? {
      QuotedEnds(w.value.path);
      assert '\n' !in w.value.method_ + " ";
      EndsMore(w.value.method_ + " ", Quoted(w.value.path));
      KeywordStarts("when ");
      LineOf("when ", w.value.method_ + " " + Quoted(w.value.path));
    }
  }

  /** A line of a keyword and what ends it. */
  lemma KeywordLine<T>(x: Option<T>, text: T -> string, p: string, tail: string)
    requires x.Some? ==> text(x.value) == p + tail && EndsLine(tail)
    requires p != "" && p[0] != ' ' && forall c <- p :: IsKeywordChar(c)
    ensures AreLines(Line(x, text))
  {
    hide IsLine, EndsLine, IsKeywordChar, StartsLine;
    if x.Some? {
      KeywordStarts(p);
      LineOf(p, tail);
    }
  }

  lemma SetupIsLines(u: SetupClause)
    requires CanWriteSetup(u)
    ensures AreLines(SetupLines(u))
  {
    IdentifierIsWord(u.name);
    OpeningEnds(u.name);
    KeywordStarts("setup ");
    hide IsLine, StartsLine, EndsLine, IsPhrase, CanWriteRequest, CanWriteWhen, CanWriteCapture, IsIdentifier, IsWord;
    hide AreLines, RequestLines, Line, RequirementLines, CaptureLines, Opening;
    LineOf("setup ", Opening(u.name));
    OneLine("setup " + Opening(u.name));
    RequestIsLines(u.request);
    WhenIsLines(u.when_);
    RequirementsAreLines(u.requirements);
    CapturesAreLines(u.captures);
    BraceIsLine();
    var d := CaptureLines(u.captures) + ["}"];
    LinesAppend(CaptureLines(u.captures), ["}"]);
    var c := RequirementLines(u.requirements) + d;
    LinesAppend(RequirementLines(u.requirements), d);
    LinesAppend(Line(u.when_, WhenText), c);
    LinesAppend(RequestLines(u.request), Line(u.when_, WhenText) + c);
    LinesAppend(["setup " + Opening(u.name)], SetupInside(u));
  }

  lemma {:induction false} SetupsAreLines(setups: seq<SetupClause>)
    requires forall u <- setups :: CanWriteSetup(u)
    ensures AreLines(AllSetupLines(setups))
  {
    hide CanWriteSetup, SetupLines, IsLine;
    if setups != [] {
      SetupIsLines(setups[0]);
      SetupsAreLines(setups[1..]);
      LinesAppend(SetupLines(setups[0]), AllSetupLines(setups[1..]));
    }
  }

  lemma StateIsLines(state: Option<string>)
    requires state.Some? ==> IsIdentifier(state.value)
    ensures AreLines(Line(state, StateText))
  {
    if state.Some? {
      IdentifierIsWord(state.value);
      PhraseEnds(state.value);
    }
    hide IsIdentifier, EndsLine;
    KeywordLine(state, StateText, "state ", if state.Some? then state.value else "");
  }

  lemma ScenarioIsLines(s: Scenario)
    requires CanWriteScenario(s)
    ensures AreLines(ItemLines(ScenarioItem(s)))
  {
    WordHasNoBreak(s.name);
    OpeningEnds(s.name);
    KeywordStarts("scenario ");
    hide IsLine, StartsLine, EndsLine, IsPhrase, CanWriteRequest, CanWriteWhen, CanWriteSetup, IsIdentifier, IsWord;
    hide AreLines, RequestLines, Line, RequirementLines, GivenLines, AllSetupLines, Opening;
    LineOf("scenario ", Opening(s.name));
    OneLine("scenario " + Opening(s.name));
    GivenAreLines(s.given);
    StateIsLines(s.state);
    RequestIsLines(s.request);
    WhenIsLines(s.when_);
    SetupsAreLines(s.setups);
    RequirementsAreLines(s.requirements);
    BraceIsLine();
    var f := RequirementLines(s.requirements) + ["}"];
    LinesAppend(RequirementLines(s.requirements), ["}"]);
    var e := AllSetupLines(s.setups) + f;
    LinesAppend(AllSetupLines(s.setups), f);
    var d := Line(s.when_, WhenText) + e;
    LinesAppend(Line(s.when_, WhenText), e);
    var c := RequestLines(s.request) + d;
    LinesAppend(RequestLines(s.request), d);
    var b := Line(s.state, StateText) + c;
    LinesAppend(Line(s.state, StateText), c);
    LinesAppend(GivenLines(s.given), b);
    LinesAppend(["scenario " + Opening(s.name)], ScenarioInside(s));
  }

  lemma ChangeEnds(c: MutationChange)
    ensures ChangeText(c) == "change " + ChangeText(c)[7..] && EndsLine(ChangeText(c)[7..])
  {
    var head := "response.status" + " " + "from" + " ";
    var from, target := FormatInt(c.from), FormatInt(c.to_);
    NumberIsWord(c.from);
    NumberIsWord(c.to_);
    WordHasNoBreak(from);
    WordHasNoBreak(target);
    hide FormatInt, EndsLine, IsWord;
    assert ChangeText(c)[7..] == (head + from + " to ") + target;
    assert '\n' !in head + from + " to ";
    EndsMore(head + from + " to ", target);
  }

  lemma TargetIsLines(scenario: Option<string>)
    requires scenario.Some? ==> IsIdentifier(scenario.value)
    ensures AreLines(Line(scenario, TargetText))
  {
    if scenario.Some? {
      IdentifierIsWord(scenario.value);
      PhraseEnds(scenario.value);
    }
    hide IsIdentifier, EndsLine;
    KeywordLine(scenario, TargetText, "target ", if scenario.Some? then scenario.value else "");
  }

  lemma ChangeIsLines(change: Option<MutationChange>)
    ensures AreLines(Line(change, ChangeText))
  {
    if change.Some? {
      ChangeEnds(change.value);
    }
    hide EndsLine, ChangeText;
    KeywordLine(change, ChangeText, "change ", if change.Some? then ChangeText(change.value)[7..] else "");
  }

  lemma RuleIsLines(rule: Option<string>)
    requires rule.Some? ==> IsPhrase(rule.value)
    ensures AreLines(Line(rule, RuleText))
  {
    if rule.Some? {
      RuleEnds(rule.value);
    }
    hide EndsLine;
    KeywordLine(rule, RuleText, "expect rule ", if rule.Some? then rule.value + " to fail" else "");
  }

  lemma MutationIsLines(m: MutationClause)
    requires CanWriteMutation(m)
    ensures AreLines(ItemLines(MutationItem(m)))
  {
    hide IsLine, StartsLine, EndsLine, IsPhrase, IsIdentifier, IsClean, AreLines, Line, Opening, Quoted;
    QuotedEnds(m.id);
    OpeningEnds(Quoted(m.id));
    TargetIsLines(m.scenario);
    ChangeIsLines(m.change);
    RuleIsLines(m.expectedRule);
    KeywordStarts("mutation ");
    LineOf("mutation ", Opening(Quoted(m.id)));
    BlockIsLines("mutation " + Opening(Quoted(m.id)), Line(m.scenario, TargetText), Line(m.change, ChangeText),
      Line(m.expectedRule, RuleText));
  }

  lemma RuleEnds(rule: string)
    requires IsPhrase(rule)
    ensures EndsLine(rule + " to fail")
  {
    EndsMore(rule, " to fail");
  }

  lemma BlockIsLines(header: string, a: seq<string>, b: seq<string>, c: seq<string>)
    requires IsLine(header) && AreLines(a) && AreLines(b) && AreLines(c)
    ensures AreLines([header] + (a + (b + (c + ["}"]))))
  {
    hide IsLine;
    BraceIsLine();
    OneLine(header);
    hide AreLines;
    LinesAppend(c, ["}"]);
    LinesAppend(b, c + ["}"]);
    LinesAppend(a, b + (c + ["}"]));
    LinesAppend([header], a + (b + (c + ["}"])));
  }

  lemma FixtureIsLines(f: FixtureClause)
    ensures AreLines(ItemLines(FixtureItem(f)))
  {
    QuotedEnds(f.id);
    OpeningEnds(Quoted(f.id));
    if f.purpose.Some? {
      QuotedEnds(f.purpose.value);
    }
    if f.sha256.Some? {
      QuotedEnds(f.sha256.value);
    }
    OracleEnds();
    hide IsLine, StartsLine, EndsLine, AreLines, Line, Opening, Quoted;
    var ownerText := (owner: FixtureOwner) => OWNER_TEXT;
    KeywordLine(f.owner, ownerText, "owner ", "oracle");
    KeywordLine(f.purpose, PurposeText, "purpose ", if f.purpose.Some? then Quoted(f.purpose.value) else "");
    KeywordLine(f.sha256, DigestText, "sha256 ", if f.sha256.Some? then Quoted(f.sha256.value) else "");
    KeywordStarts("fixture ");
    LineOf("fixture ", Opening(Quoted(f.id)));
    BlockIsLines("fixture " + Opening(Quoted(f.id)), Line(f.owner, ownerText), Line(f.purpose, PurposeText),
      Line(f.sha256, DigestText));
  }

  lemma OracleEnds()
    ensures EndsLine("oracle") && OWNER_TEXT == "owner " + "oracle"
  {
  }

  lemma ItemIsLines(item: Item)
    requires CanWriteItem(item)
    ensures AreLines(ItemLines(item))
  {
    hide IsLine, EndsLine, StartsLine, CanWriteScenario, CanWriteMutation, CanWriteFixture;
    match item
    case SubjectItem(subject) => SubjectIsLines(subject);
    case ScenarioItem(scenario) => ScenarioIsLines(scenario);
    case MutationItem(mutation) => MutationIsLines(mutation);
    case FixtureItem(fixture) => FixtureIsLines(fixture);
    case ProvenanceItem(provenance) => ProvenanceIsLines(provenance);
    case IsolationItem(isolation) => IsolationIsLines(isolation);
  }

  lemma SubjectIsLines(subject: string)
    ensures AreLines(ItemLines(SubjectItem(subject)))
  {
    QuotedEnds(subject);
    KeywordStarts("subject ");
    hide IsLine, EndsLine, StartsLine, Quoted;
    LineOf("subject ", Quoted(subject));
  }

  lemma ProvenanceIsLines(p: ProvenanceClause)
    ensures AreLines(ItemLines(ProvenanceItem(p)))
  {
    hide IsLine;
    KeywordIsLine("must create execution_id");
    KeywordIsLine("provenance {");
    KeywordIsLine("}");
  }

  lemma IsolationIsLines(i: IsolationClause)
    ensures AreLines(ItemLines(IsolationItem(i)))
  {
    var resetText := (r: ResetClause) => ResetText(r.path);
    if i.reset.Some? {
      QuotedEnds(i.reset.value.path);
      EndsMore("POST ", Quoted(i.reset.value.path));
      assert "POST " + Quoted(i.reset.value.path) == "POST" + " " + Quoted(i.reset.value.path);
    }
    hide IsLine, EndsLine, Quoted, Line;
    KeywordLine(i.reset, resetText, "reset ", if i.reset.Some? then "POST" + " " + Quoted(i.reset.value.path) else "");
    KeywordIsLine("isolation per scenario {");
    BlockIsLines("isolation per scenario {", Line(i.reset, resetText), [], []);
    assert Line(i.reset, resetText) + ([] + ([] + ["}"])) == IsolationInside(i);
  }

  lemma {:induction false} ItemsAreLines(items: seq<Item>)
    requires forall item <- items :: CanWriteItem(item)
    ensures AreLines(AllItemLines(items))
  {
    hide CanWriteItem, ItemLines, IsLine;
    if items != [] {
      ItemIsLines(items[0]);
      ItemsAreLines(items[1..]);
      LinesAppend(ItemLines(items[0]), AllItemLines(items[1..]));
    }
  }

  lemma SpecTextIsLine(name: string, version: Option<string>)
    requires IsWord(name) && (version.Some? ==> IsWord(version.value))
    ensures IsLine(SpecText(name, version))
  {
    SpecContent(name, version);
    var content := SpecWords(name, version);
    assert content[0] == 's';
    hide SpecWords, IsWord;
    assert SpecText(name, version) == content + " {";
    LineOf(content, " {");
  }

  // ---------------------------------------------------------------------------
  // The text as a source

  lemma LineIsLineText(text: string)
    requires IsLine(text)
    ensures B.IsLineText(text)
  {
    PhraseIsTrimmed(text);
    hide Trim;
  }

  lemma {:induction false} JoinedLines(texts: seq<string>, n: nat)
    requires AreLines(texts)
    ensures Texts(Significant(Lines(Join(texts)), n)) == texts
  {
    hide IsLine, Lines, Significant, Texts;
    if texts == [] {
      NothingJoined(n);
    } else {
      var text, rest := texts[0], Join(texts[1..]);
      LineIsLineText(text);
      NoIndent();
      hide B.IsLineText, B.IsIndent;
      B.LineTexts("", text, rest, n);
      assert "" + (text + ("\n" + rest)) == Join(texts);
      JoinedLines(texts[1..], n);
    }
  }

  lemma NothingJoined(n: nat)
    ensures Texts(Significant(Lines(""), n)) == []
  {
  }

  lemma NoIndent()
    ensures B.IsIndent("")
  {
  }

  lemma {:induction false} TextsHold(lines: seq<Numbered>)
    ensures |Texts(lines)| == |lines| && Holds(lines, Texts(lines))
  {
    if lines != [] {
      TextsHold(lines[1..]);
    }
  }

  lemma SpecIsLines(spec: Specification)
    requires CanWrite(spec)
    ensures AreLines(SpecLines(spec))
  {
    ItemsOfCanBeWritten(spec);
    SpecTextIsLine(spec.name, spec.version);
    hide IsLine, CanWrite, CanWriteItem, AllItemLines, ItemsOf, SpecText;
    ItemsAreLines(ItemsOf(spec));
    BraceIsLine();
    OneLine(SpecText(spec.name, spec.version));
    hide AreLines;
    LinesAppend(AllItemLines(ItemsOf(spec)), ["}"]);
    LinesAppend([SpecText(spec.name, spec.version)], AllItemLines(ItemsOf(spec)) + ["}"]);
  }

  lemma SpecIsRead(lines: seq<Numbered>, spec: Specification, last: nat)
    requires CanWrite(spec) && Holds(lines, SpecLines(spec))
    ensures lines != []
    ensures ParseSpecHeader(lines[0].text)
         == Ok(Specification(spec.name, spec.version, None, [], [], [], None, None))
    ensures ReadItems(lines[1..], Seen(false, false, false), last) == Ok(ItemsOf(spec))
  {
    ItemsOfCanBeWritten(spec);
    ItemsOfOnce(spec);
    SpecReads(spec.name, spec.version);
    hide CanWriteItem, AllItemLines, ItemsOf, SpecText, OnceEach, ReadItems, ParseSpecHeader, Holds;
    HoldsOne(lines, SpecText(spec.name, spec.version), AllItemLines(ItemsOf(spec)) + ["}"]);
    ItemsRead(lines[1..], ItemsOf(spec), Seen(false, false, false), last);
  }

  /** The parser accepts the source text of a specification as that specification. */
  lemma SourceIsAccepted(spec: Specification)
    requires CanWrite(spec)
    ensures Parse(SourceOf(spec)) == Accepted(spec)
  {
    var source := SourceOf(spec);
    hide CanWrite, SpecLines, Lines, Significant, Join, ReadItems, ParseSpecHeader, Assemble, ItemsOf, Run, IsLine;
    SpecIsLines(spec);
    JoinedLines(SpecLines(spec), 1);
    var lines := Significant(Lines(source), 1);
    TextsHold(lines);
    hide Texts, Holds, AreLines;
    SpecIsRead(lines, spec, LastLine(Lines(source)));
    ItemsOfAssemble(spec);
    R.MachineIsRecursiveDescent(source);
  }
}
