/** What every accepted source guarantees: that its specification can be written, so well-formed bodies and
captures at every depth. */
module AcceptedSources {
  import opened Text
  import opened Ast
  import opened StringCodec
  import opened LiteralGrammar
  import opened ClauseLines
  import opened BracketScanner
  import opened BlockMachine
  import opened BlockGrammar
  import opened LiteralRoundTrip
  import opened ClauseText
  import opened SourceText
  import R = BlockRefinement
  import S = SourceAccepted
  import J = Json

  // ---------------------------------------------------------------------------
  // Pieces of accepted lines

  lemma TrimmedIsPhrase(s: string)
    requires '\n' !in s && Trim(s) != ""
    ensures IsPhrase(Trim(s))
  {
    hide IsWhitespace;
    var t := TrimStart(s);
    TrimStartIsPart(s);
    TrimEndIsPart(t);
    assert Trim(s)[0] == t[0];
  }

  lemma {:induction false} TrimStartIsPart(s: string)
    ensures forall c <- TrimStart(s) :: c in s
  {
    if s != "" && IsWhitespace(s[0]) {
      TrimStartIsPart(s[1..]);
      assert forall c <- s[1..] :: c in s;
    }
  }

  lemma TrimEndIsPart(s: string)
    ensures forall c <- TrimEnd(s) :: c in s
  {
    var r := TrimEnd(s);
    forall c | c in r ensures c in s {
      var i :| 0 <= i < |r| && r[i] == c;
      assert s[i] == c;
    }
  }

  lemma AfterPrefix(line: string, p: string)
    requires '\n' !in line && StripPrefix(line, p).Some?
    ensures '\n' !in StripPrefix(line, p).value
  {
    var rest := StripPrefix(line, p).value;
    forall c | c in rest ensures c in line {
      var i :| 0 <= i < |rest| && rest[i] == c;
      assert line[|p| + i] == c;
    }
  }

  lemma BeforeSuffix(line: string, suffix: string)
    requires '\n' !in line && StripSuffix(line, suffix).Some?
    ensures '\n' !in StripSuffix(line, suffix).value
  {
    var rest := StripSuffix(line, suffix).value;
    forall c | c in rest ensures c in line {
      var i :| 0 <= i < |rest| && rest[i] == c;
      assert line[i] == c;
    }
  }

  lemma {:induction false} WordsAreWords(s: string)
    ensures forall w <- SplitWhitespace(s) :: IsWord(w)
    decreases |s|
  {
    hide IsWhitespace;
    var t := TrimStart(s);
    if t != "" {
      var w := TakeWord(t);
      WordsAreWords(t[|w|..]);
      assert IsWord(w);
    }
  }

  lemma QuotedIsClean(value: string)
    requires ParseQuoted(value).Ok?
    ensures IsClean(ParseQuoted(value).value)
  {
    var v := Trim(value);
    DecodedIsClean(v[1..|v| - 1]);
  }

  lemma ExpressionIsPhrase(expression: string)
    requires '\n' !in expression && RequireExpression(expression).Ok?
    ensures IsPhrase(RequireExpression(expression).value)
  {
    TrimmedIsPhrase(expression);
  }

  lemma WhenCanBeWritten(value: string)
    requires '\n' !in value && ParseWhen(value).Ok?
    ensures CanWriteWhen(ParseWhen(value).value)
  {
    var (name, path) := SplitOnce(value, ' ').value;
    assert forall c <- name :: c in value;
    QuotedIsClean(Trim(path));
    hide ParseQuoted, Trim, SplitOnce, IsClean;
  }

  lemma RequirementIsPhrase(line: string)
    requires '\n' !in line && ParseRequirement(line).Some? && ParseRequirement(line).value.Ok?
    ensures IsPhrase(ParseRequirement(line).value.value.expression)
  {
    hide RequireExpression, StripPrefix, IsPhrase;
    if StripPrefix(line, "must_not ").Some? {
      AfterPrefix(line, "must_not ");
      ExpressionIsPhrase(StripPrefix(line, "must_not ").value);
    } else {
      AfterPrefix(line, "must ");
      ExpressionIsPhrase(StripPrefix(line, "must ").value);
    }
  }

  lemma CaptureCanBeWritten(value: string)
    requires ParseCapture(value).Ok?
    ensures CanWriteCapture(ParseCapture(value).value)
  {
    var path := StripPrefix(Trim(SplitOnce(value, '=').value.1), SELECTOR_PREFIX).value;
    assert ("body." + path)[5..] == path;
  }

  // ---------------------------------------------------------------------------
  // Lines keep what can be written

  lemma ScenarioLineKeeps(s: Scenario, line: string)
    requires CanWriteScenario(s) && '\n' !in line && ParseScenarioLine(s, line).Ok?
    ensures CanWriteScenario(ParseScenarioLine(s, line).value)
  {
    hide StripPrefix, ParseWhen, ParseRequirement, RequireExpression, IsPhrase, CanWriteWhen, CanWriteSetup;
    hide CanWriteRequest, IsWord, ParseIdentifier, IsIdentifier;
    if StripPrefix(line, "state ").Some? {
    } else if StripPrefix(line, "given ").Some? {
      AfterPrefix(line, "given ");
      ExpressionIsPhrase(StripPrefix(line, "given ").value);
    } else if StripPrefix(line, "when ").Some? {
      AfterPrefix(line, "when ");
      WhenCanBeWritten(StripPrefix(line, "when ").value);
    } else {
      RequirementIsPhrase(line);
    }
  }

  lemma SetupLineKeeps(u: SetupClause, line: string)
    requires CanWriteSetup(u) && '\n' !in line && ParseSetupLine(u, line).Ok?
    ensures CanWriteSetup(ParseSetupLine(u, line).value)
  {
    hide StripPrefix, ParseWhen, ParseRequirement, ParseCapture, IsPhrase, CanWriteWhen, CanWriteCapture;
    hide CanWriteRequest, IsIdentifier;
    if StripPrefix(line, "when ").Some? {
      AfterPrefix(line, "when ");
      WhenCanBeWritten(StripPrefix(line, "when ").value);
    } else if ParseRequirement(line).Some? {
      RequirementIsPhrase(line);
    } else {
      CaptureCanBeWritten(StripPrefix(line, "capture ").value);
    }
  }

  lemma MutationLineKeeps(m: MutationClause, line: string)
    requires CanWriteMutation(m) && '\n' !in line && ParseMutationLine(m, line).Ok?
    ensures CanWriteMutation(ParseMutationLine(m, line).value)
  {
    hide StripPrefix, StripSuffix, IsPhrase, IsIdentifier, ParseIdentifier, IsClean, Trim, ParseInteger;
    hide SplitWhitespace;
    if StripPrefix(line, "target ").None? && StripPrefix(line, "change ").None? {
      AfterPrefix(line, "expect rule ");
      var value := StripPrefix(line, "expect rule ").value;
      BeforeSuffix(value, " to fail");
      TrimmedIsPhrase(StripSuffix(value, " to fail").value);
    }
  }

  lemma FixtureLineKeeps(f: FixtureClause, line: string)
    requires CanWriteFixture(f) && ParseFixtureLine(f, line).Ok?
    ensures CanWriteFixture(ParseFixtureLine(f, line).value)
  {
    hide StripPrefix, ParseQuoted, ParseIdentifier, IsClean;
    var purpose, digest := StripPrefix(line, "purpose "), StripPrefix(line, "sha256 ");
    if purpose.Some? && ParseQuoted(purpose.value).Ok? {
      QuotedIsClean(purpose.value);
    }
    if digest.Some? && ParseQuoted(digest.value).Ok? {
      QuotedIsClean(digest.value);
    }
  }

  lemma OnlyRequirement(p: ProvenanceClause)
    requires p.requirements != []
    ensures ProvenanceRequirement(Create, ExecutionId) in p.requirements
  {
    var r := p.requirements[0];
    assert r.kind == Create && r.field == ExecutionId;
  }

  lemma ProvenanceLineKeeps(p: ProvenanceClause, line: string)
    requires |p.requirements| <= 1 && ParseProvenanceLine(p, line).Ok?
    ensures |ParseProvenanceLine(p, line).value.requirements| <= 1
  {
    hide SplitWhitespace;
    if p.requirements != [] {
      OnlyRequirement(p);
    }
  }

  lemma IsolationLineKeeps(i: IsolationClause, line: string)
    requires CanWriteIsolation(i) && ParseIsolationLine(i, line).Ok?
    ensures CanWriteIsolation(ParseIsolationLine(i, line).value)
  {
    hide StripPrefix, ParseQuoted, IsClean, Trim;
    var (name, path) := SplitOnce(StripPrefix(line, "reset ").value, ' ').value;
    QuotedIsClean(Trim(path));
  }

  lemma BodyLineKeeps(fields: seq<BodyField>, line: string)
    requires WellFormedFields(fields) && DistinctNames(fields) && ParseBodyLine(fields, line).Ok?
    ensures WellFormedFields(ParseBodyLine(fields, line).value) && DistinctNames(ParseBodyLine(fields, line).value)
  {
    var parts := SplitOnce(line, '=').value;
    var value := ParseLiteral(Trim(parts.1)).value;
    ParsedIsWellFormed(Trim(parts.1));
    var field := BodyField(Trim(parts.0), value);
    AppendWellFormedField(fields, field);
    AppendDistinct(fields, field);
  }

  // ---------------------------------------------------------------------------
  // So do blocks

  /** No text of a line has a line break. */
  predicate AreUnbroken(lines: seq<Numbered>) { forall l <- lines :: '\n' !in l.text }

  predicate IsPart(rest: seq<Numbered>, lines: seq<Numbered>) { forall l <- rest :: l in lines }

  lemma PartIsUnbroken(rest: seq<Numbered>, lines: seq<Numbered>)
    requires IsPart(rest, lines) && AreUnbroken(lines)
    ensures AreUnbroken(rest)
  {
  }

  lemma {:induction false} EntryIsPart(text: string, start: nat, lines: seq<Numbered>)
    requires ReadEntry(text, start, lines).Read?
    ensures IsPart(ReadEntry(text, start, lines).rest, lines)
    decreases |lines|
  {
    hide IsComplete;
    if !IsComplete(text) && lines != [] {
      EntryIsPart(text + " " + lines[0].text, start, lines[1..]);
    }
  }

  lemma {:induction false} BodyKeeps(lines: seq<Numbered>, fields: seq<BodyField>, last: nat)
    requires WellFormedFields(fields) && DistinctNames(fields) && ReadBody(lines, fields, last).Read?
    ensures var r := ReadBody(lines, fields, last);
      WellFormedFields(r.value) && DistinctNames(r.value) && IsPart(r.rest, lines)
    decreases |lines|
  {
    hide ParseBodyLine, WellFormedFields, DistinctNames, ReadEntry;
    if lines[0].text != "}" {
      var entry := ReadEntry(lines[0].text, lines[0].line, lines[1..]);
      EntryIsPart(lines[0].text, lines[0].line, lines[1..]);
      BodyLineKeeps(fields, entry.value);
      BodyKeeps(entry.rest, ParseBodyLine(fields, entry.value).value, last);
    }
  }

  lemma NoBody()
    ensures WellFormedFields([]) && DistinctNames([])
  {
  }

  lemma {:induction false} SetupKeeps(lines: seq<Numbered>, u: SetupClause, last: nat)
    requires CanWriteSetup(u) && AreUnbroken(lines) && ReadSetup(lines, u, last).Read?
    ensures var r := ReadSetup(lines, u, last); CanWriteSetup(r.value) && IsPart(r.rest, lines)
    decreases |lines|
  {
    hide ParseSetupLine, CanWriteSetup, ReadBody;
    if lines[0].text == "}" {
    } else if lines[0].text == "given body {" {
      NoBody();
      BodyKeeps(lines[1..], [], last);
      var body := ReadBody(lines[1..], [], last);
      SetupWithRequest(u, body.value);
      PartIsUnbroken(body.rest, lines);
      SetupKeeps(body.rest, u.(request := Some(RequestClause(body.value))), last);
    } else {
      SetupLineKeeps(u, lines[0].text);
      SetupKeeps(lines[1..], ParseSetupLine(u, lines[0].text).value, last);
    }
  }

  lemma SetupWithRequest(u: SetupClause, body: seq<BodyField>)
    requires CanWriteSetup(u) && WellFormedFields(body) && DistinctNames(body)
    ensures CanWriteSetup(u.(request := Some(RequestClause(body))))
  {
    hide WellFormedFields, DistinctNames, CanWriteWhen, IsPhrase, CanWriteCapture, IsIdentifier;
  }

  lemma ScenarioWithRequest(s: Scenario, body: seq<BodyField>)
    requires CanWriteScenario(s) && WellFormedFields(body) && DistinctNames(body)
    ensures CanWriteScenario(s.(request := Some(RequestClause(body))))
  {
    hide WellFormedFields, DistinctNames, CanWriteWhen, IsPhrase, CanWriteSetup, IsIdentifier, IsWord;
  }

  lemma ScenarioWithSetup(s: Scenario, u: SetupClause)
    requires CanWriteScenario(s) && CanWriteSetup(u)
    ensures CanWriteScenario(s.(setups := s.setups + [u]))
  {
    hide CanWriteWhen, IsPhrase, CanWriteSetup, IsIdentifier, IsWord, CanWriteRequest;
  }

  lemma NewSetup(header: string)
    requires ParseSetupHeader(header).Ok?
    ensures CanWriteSetup(ParseSetupHeader(header).value)
  {
    hide RequireOpenBrace, SplitWhitespace, IsIdentifier;
  }

  lemma {:induction false} ScenarioKeeps(lines: seq<Numbered>, s: Scenario, last: nat)
    requires CanWriteScenario(s) && AreUnbroken(lines) && ReadScenario(lines, s, last).Read?
    ensures var r := ReadScenario(lines, s, last); CanWriteScenario(r.value) && IsPart(r.rest, lines)
    decreases |lines|
  {
    hide ParseScenarioLine, ParseSetupHeader, CanWriteScenario, ReadBody, ReadSetup, StripPrefix;
    var line := lines[0].text;
    if line == "}" {
    } else if StripPrefix(line, "setup ").Some? {
      var header := StripPrefix(line, "setup ").value;
      NewSetup(header);
      SetupKeeps(lines[1..], ParseSetupHeader(header).value, last);
      var setup := ReadSetup(lines[1..], ParseSetupHeader(header).value, last);
      ScenarioWithSetup(s, setup.value);
      PartIsUnbroken(setup.rest, lines);
      ScenarioKeeps(setup.rest, s.(setups := s.setups + [setup.value]), last);
    } else if line == "given body {" {
      NoBody();
      BodyKeeps(lines[1..], [], last);
      var body := ReadBody(lines[1..], [], last);
      ScenarioWithRequest(s, body.value);
      PartIsUnbroken(body.rest, lines);
      ScenarioKeeps(body.rest, s.(request := Some(RequestClause(body.value))), last);
    } else {
      ScenarioLineKeeps(s, line);
      ScenarioKeeps(lines[1..], ParseScenarioLine(s, line).value, last);
    }
  }

  lemma {:induction false} ClausesKeep<T>(
      lines: seq<Numbered>, block: T, parse: (T, string) -> Result<T, ErrorKind>, unclosed: ErrorKind, last: nat,
      keeps: T -> bool)
    requires keeps(block) && AreUnbroken(lines) && ReadClauses(lines, block, parse, unclosed, last).Read?
    requires forall b, line | keeps(b) && '\n' !in line && parse(b, line).Ok? :: keeps(parse(b, line).value)
    ensures var r := ReadClauses(lines, block, parse, unclosed, last); keeps(r.value) && IsPart(r.rest, lines)
    decreases |lines|
  {
    if lines[0].text != "}" {
      ClausesKeep(lines[1..], parse(block, lines[0].text).value, parse, unclosed, last, keeps);
    }
  }

  lemma MutationKeeps(lines: seq<Numbered>, m: MutationClause, last: nat)
    requires CanWriteMutation(m) && AreUnbroken(lines) && ReadMutation(lines, m, last).Read?
    ensures var r := ReadMutation(lines, m, last); CanWriteMutation(r.value) && IsPart(r.rest, lines)
  {
    hide ParseMutationLine, CanWriteMutation;
    forall b, line | CanWriteMutation(b) && '\n' !in line && ParseMutationLine(b, line).Ok?
      ensures CanWriteMutation(ParseMutationLine(b, line).value)
    {
      MutationLineKeeps(b, line);
    }
    ClausesKeep(lines, m, ParseMutationLine, MutationUnclosed, last, CanWriteMutation);
  }

  lemma FixtureKeeps(lines: seq<Numbered>, f: FixtureClause, last: nat)
    requires CanWriteFixture(f) && AreUnbroken(lines) && ReadFixture(lines, f, last).Read?
    ensures var r := ReadFixture(lines, f, last); CanWriteFixture(r.value) && IsPart(r.rest, lines)
  {
    hide ParseFixtureLine, CanWriteFixture;
    forall b, line | CanWriteFixture(b) && '\n' !in line && ParseFixtureLine(b, line).Ok?
      ensures CanWriteFixture(ParseFixtureLine(b, line).value)
    {
      FixtureLineKeeps(b, line);
    }
    ClausesKeep(lines, f, ParseFixtureLine, FixtureUnclosed, last, CanWriteFixture);
  }

  lemma ProvenanceKeeps(lines: seq<Numbered>, last: nat)
    requires AreUnbroken(lines) && ReadProvenance(lines, ProvenanceClause([]), last).Read?
    ensures var r := ReadProvenance(lines, ProvenanceClause([]), last);
      |r.value.requirements| <= 1 && IsPart(r.rest, lines)
  {
    hide ParseProvenanceLine;
    var keeps := (p: ProvenanceClause) => |p.requirements| <= 1;
    forall b, line | keeps(b) && '\n' !in line && ParseProvenanceLine(b, line).Ok?
      ensures keeps(ParseProvenanceLine(b, line).value)
    {
      ProvenanceLineKeeps(b, line);
    }
    ClausesKeep(lines, ProvenanceClause([]), ParseProvenanceLine, ProvenanceUnclosed, last, keeps);
  }

  lemma IsolationKeeps(lines: seq<Numbered>, last: nat)
    requires AreUnbroken(lines) && ReadIsolation(lines, IsolationClause(PerScenario, None), last).Read?
    ensures var r := ReadIsolation(lines, IsolationClause(PerScenario, None), last);
      CanWriteIsolation(r.value) && IsPart(r.rest, lines)
  {
    hide ParseIsolationLine;
    forall b, line | CanWriteIsolation(b) && '\n' !in line && ParseIsolationLine(b, line).Ok?
      ensures CanWriteIsolation(ParseIsolationLine(b, line).value)
    {
      IsolationLineKeeps(b, line);
    }
    ClausesKeep(
      lines, IsolationClause(PerScenario, None), ParseIsolationLine, IsolationUnclosed, last, CanWriteIsolation);
  }

  lemma NewScenario(header: string)
    requires ParseScenarioHeader(header).Ok?
    ensures CanWriteScenario(ParseScenarioHeader(header).value)
  {
    var content := RequireOpenBrace(header).value;
    WordsAreWords(content);
    hide RequireOpenBrace, SplitWhitespace, IsWord;
    assert SplitWhitespace(content)[0] in SplitWhitespace(content);
  }

  lemma NewMutation(header: string)
    requires ParseMutationHeader(header).Ok?
    ensures CanWriteMutation(ParseMutationHeader(header).value)
  {
    QuotedIsClean(RequireOpenBrace(header).value);
    hide RequireOpenBrace, ParseQuoted, IsClean;
  }

  lemma NewFixture(header: string)
    requires ParseFixtureHeader(header).Ok?
    ensures CanWriteFixture(ParseFixtureHeader(header).value)
  {
    QuotedIsClean(RequireOpenBrace(header).value);
    hide RequireOpenBrace, ParseQuoted, IsClean;
  }

  lemma ItemKeeps(line: Numbered, lines: seq<Numbered>, seen: Seen, last: nat)
    requires !Classify(line.text).CloseLine? && AreUnbroken(lines) && ReadItem(line, lines, seen, last).Read?
    ensures var r := ReadItem(line, lines, seen, last); CanWriteItem(r.value) && IsPart(r.rest, lines)
  {
    hide Classify, ParseScenarioHeader, ParseMutationHeader, ParseFixtureHeader, ParseQuoted;
    hide ReadScenario, ReadMutation, ReadFixture, ReadProvenance, ReadIsolation;
    hide CanWriteScenario, CanWriteMutation, CanWriteFixture, CanWriteIsolation, AreUnbroken;
    match Classify(line.text)
    case SubjectLine(text) => QuotedIsClean(text);
    case ScenarioLine(header) =>
      NewScenario(header);
      ScenarioKeeps(lines, ParseScenarioHeader(header).value, last);
    case MutationLine(header) =>
      NewMutation(header);
      MutationKeeps(lines, ParseMutationHeader(header).value, last);
    case FixtureLine(header) =>
      NewFixture(header);
      FixtureKeeps(lines, ParseFixtureHeader(header).value, last);
    case ProvenanceLine => ProvenanceKeeps(lines, last);
    case IsolationLine => IsolationKeeps(lines, last);
    case _ =>
  }

  lemma {:induction false} ItemsKeep(lines: seq<Numbered>, seen: Seen, last: nat)
    requires AreUnbroken(lines) && ReadItems(lines, seen, last).Ok?
    ensures forall item <- ReadItems(lines, seen, last).value :: CanWriteItem(item)
    decreases |lines|
  {
    hide Classify, ReadItem, CanWriteItem, Note;
    if !Classify(lines[0].text).CloseLine? {
      ItemKeeps(lines[0], lines[1..], seen, last);
      var r := ReadItem(lines[0], lines[1..], seen, last);
      PartIsUnbroken(r.rest, lines);
      ItemsKeep(r.rest, Note(seen, r.value), last);
    }
  }

  // ---------------------------------------------------------------------------
  // So do specifications

  lemma AddKeeps(spec: Specification, item: Item)
    requires CanWrite(spec) && CanWriteItem(item)
    ensures CanWrite(Add(spec, item))
  {
    hide CanWriteScenario, CanWriteMutation, CanWriteFixture, CanWriteIsolation, IsWord, IsClean;
  }

  lemma {:induction false} AssembleKeeps(spec: Specification, items: seq<Item>)
    requires CanWrite(spec) && forall item <- items :: CanWriteItem(item)
    ensures CanWrite(Assemble(spec, items))
    decreases |items|
  {
    hide CanWrite, CanWriteItem, Add;
    if items != [] {
      AddKeeps(spec, items[0]);
      AssembleKeeps(Add(spec, items[0]), items[1..]);
    }
  }

  lemma NewSpecification(line: string)
    requires ParseSpecHeader(line).Ok?
    ensures CanWrite(ParseSpecHeader(line).value)
  {
    var fields := SplitWhitespace(RequireOpenBrace(line).value);
    WordsAreWords(RequireOpenBrace(line).value);
    hide RequireOpenBrace, SplitWhitespace, IsWord;
    assert forall i | 0 <= i < |fields| :: fields[i] in fields;
  }

  lemma {:induction false} LinesAreUnbroken(source: string)
    ensures forall line <- Lines(source) :: '\n' !in line
    decreases |source|
  {
    match SplitOnce(source, '\n')
    case None =>
    case Some((line, rest)) =>
      LinesAreUnbroken(rest);
      var kept := DropCarriageReturn(line);
      assert forall c <- kept :: c in line;
  }

  lemma {:induction false} SignificantIsUnbroken(lines: seq<string>, n: nat)
    requires forall line <- lines :: '\n' !in line
    ensures AreUnbroken(Significant(lines, n))
  {
    hide TrimStart, TrimEnd, IsSkipped;
    if lines != [] {
      TrimStartIsPart(lines[0]);
      TrimEndIsPart(TrimStart(lines[0]));
      SignificantIsUnbroken(lines[1..], n + 1);
    }
  }

  /** In everything the parser accepts, field names are identifiers and distinct in each object, strings
  hold no control character but the five escapes, captures select `body.` paths, and names, expressions and
  identifiers are what can be written: the specification has a source text of its own. */
  lemma AcceptedIsWellFormed(source: string)
    requires Parse(source).Accepted?
    ensures CanWrite(Parse(source).specification)
  {
    R.MachineIsRecursiveDescent(source);
    LinesAreUnbroken(source);
    SignificantIsUnbroken(Lines(source), 1);
    hide Parse, Lines, Significant, ReadItems, Assemble, ParseSpecHeader, CanWrite, CanWriteItem;
    var lines, last := Significant(Lines(source), 1), LastLine(Lines(source));
    NewSpecification(lines[0].text);
    PartIsUnbroken(lines[1..], lines);
    ItemsKeep(lines[1..], Seen(false, false, false), last);
    AssembleKeeps(ParseSpecHeader(lines[0].text).value, ReadItems(lines[1..], Seen(false, false, false), last).value);
  }

  /** The parser accepts exactly the specifications that can be written: each is what its own source text is
  read as, and nothing else is ever returned. */
  lemma AcceptedExactly(spec: Specification)
    ensures (exists source :: Parse(source) == Accepted(spec)) <==> CanWrite(spec)
  {
    hide Parse, CanWrite;
    if CanWrite(spec) {
      S.SourceIsAccepted(spec);
      assert Parse(SourceOf(spec)) == Accepted(spec);
    }
    forall source | Parse(source) == Accepted(spec) ensures CanWrite(spec) {
      AcceptedIsWellFormed(source);
    }
  }

  /** Reading a source and writing what was read gives a source that is read the same. */
  lemma AcceptedIsReadAgain(source: string)
    requires Parse(source).Accepted?
    ensures Parse(SourceOf(Parse(source).specification)) == Parse(source)
  {
    AcceptedIsWellFormed(source);
    S.SourceIsAccepted(Parse(source).specification);
  }

  // ---------------------------------------------------------------------------
  // So the printer writes no `\u` escape and no repeated key for a body

  /** A string is clean exactly when the printer escapes no character of it with `\u`. */
  lemma CleanNeedsNoUnicodeEscape(value: string)
    ensures IsClean(value) <==> forall c <- value :: |EscapeChar(c)| <= 2
  {
  }

  /** No string that needs a `\u` escape, and no repeated key, at any depth. */
  predicate IsTidy(j: J.Json) {
    match j
    case Str(text) => IsClean(text)
    case Number(lexeme) => J.IsIntegerLexeme(lexeme)
    case Arr(items) => forall item <- items :: IsTidy(item)
    case Obj(members) =>
      && (forall m <- members :: IsClean(m.name) && IsTidy(m.value))
      && forall i, k | 0 <= i < k < |members| :: members[i].name != members[k].name
    case _ => true
  }

  lemma {:induction false} LiteralIsTidy(l: Literal)
    requires WellFormed(l)
    ensures IsTidy(LiteralJson(l))
    decreases l, 0
  {
    match l
    case Object(fields) => FieldsAreTidy(fields); FieldNames(fields);
    case Array(values) => ValuesAreTidy(values);
    case Repeat(value, count) => RepeatIsTidy(value, count);
    case Integer(value) => J.FormatIsIntegerLexeme(value);
    case _ =>
  }

  lemma RepeatIsTidy(value: string, count: I64)
    requires IsClean(value)
    ensures IsTidy(RepeatJson(value, count))
  {
    var inner := RepeatJson(value, count).members[0].value;
    J.FormatIsIntegerLexeme(count);
    GeneratorNames();
    IdentifierIsClean("kind");
    IdentifierIsClean("value");
    IdentifierIsClean("count");
    IdentifierIsClean(GENERATED);
    assert IsClean("repeat");
    assert IsTidy(inner);
  }

  lemma IdentifierIsClean(name: string)
    requires IsIdentifier(name)
    ensures IsClean(name)
  {
    assert name == [name[0]] + name[1..];
  }

  lemma {:induction false} FieldNames(fields: seq<BodyField>)
    ensures forall i | 0 <= i < |fields| :: FieldsJson(fields)[i].name == fields[i].name
  {
    if fields != [] {
      FieldNames(fields[1..]);
    }
  }

  lemma {:induction false} FieldsAreTidy(fields: seq<BodyField>)
    requires WellFormedFields(fields)
    ensures forall m <- FieldsJson(fields) :: IsClean(m.name) && IsTidy(m.value)
    decreases fields, 1
  {
    if fields != [] {
      LiteralIsTidy(fields[0].value);
      IdentifierIsClean(fields[0].name);
      FieldsAreTidy(fields[1..]);
    }
  }

  lemma {:induction false} ValuesAreTidy(values: seq<Literal>)
    requires WellFormedValues(values)
    ensures forall item <- ValuesJson(values) :: IsTidy(item)
    decreases values, 1
  {
    if values != [] {
      LiteralIsTidy(values[0]);
      ValuesAreTidy(values[1..]);
    }
  }

  /** A whole accepted body prints tidily. */
  lemma BodyIsTidy(fields: seq<BodyField>)
    requires WellFormedFields(fields) && DistinctNames(fields)
    ensures IsTidy(J.Obj(FieldsJson(fields)))
  {
    LiteralIsTidy(Object(fields));
  }

  // ---------------------------------------------------------------------------
  // The printed text

  /** Every backslash starts a complete escape of two characters, and none is `\u`. */
  predicate EscapesAreShort(text: string)
    decreases |text|
  {
    if text == "" then true
    else if text[0] == '\\' then |text| >= 2 && text[1] != 'u' && EscapesAreShort(text[2..])
    else EscapesAreShort(text[1..])
  }

  lemma {:induction false} ShortAppend(x: string, y: string)
    requires EscapesAreShort(x) && EscapesAreShort(y)
    ensures EscapesAreShort(x + y)
    decreases |x|
  {
    if x == "" {
      assert x + y == y;
    } else if x[0] == '\\' {
      assert (x + y)[2..] == x[2..] + y;
      ShortAppend(x[2..], y);
    } else {
      assert (x + y)[1..] == x[1..] + y;
      ShortAppend(x[1..], y);
    }
  }

  lemma {:induction false} PlainIsShort(text: string)
    requires '\\' !in text
    ensures EscapesAreShort(text)
  {
    if text != "" {
      assert text[0] in text && forall c <- text[1..] :: c in text;
      PlainIsShort(text[1..]);
    }
  }

  lemma EscapeIsShort(c: char)
    requires |EscapeChar(c)| <= 2
    ensures EscapesAreShort(EscapeChar(c))
  {
    var e := EscapeChar(c);
    assert e[1..] == "" || e[2..] == "";
  }

  lemma {:induction false} EscapedIsShort(value: string)
    requires IsClean(value)
    ensures EscapesAreShort(Escaped(value))
  {
    hide EscapeChar, EscapesAreShort, HasShortEscape, IsControl;
    CleanNeedsNoUnicodeEscape(value);
    if value == "" {
      PlainIsShort("");
    } else {
      assert value[0] in value && forall c <- value[1..] :: c in value;
      EscapeIsShort(value[0]);
      EscapedIsShort(value[1..]);
      ShortAppend(EscapeChar(value[0]), Escaped(value[1..]));
    }
  }

  lemma QuotedIsShort(value: string)
    requires IsClean(value)
    ensures EscapesAreShort(Quoted(value))
  {
    EscapedIsShort(value);
    PlainIsShort("\"");
    hide EscapesAreShort, Escaped, IsClean;
    ShortAppend("\"", Escaped(value));
    ShortAppend("\"" + Escaped(value), "\"");
  }

  lemma LexemeIsShort(lexeme: string)
    requires J.IsIntegerLexeme(lexeme)
    ensures EscapesAreShort(lexeme)
  {
    assert lexeme[0] == '-' ==> lexeme == [lexeme[0]] + lexeme[1..];
    assert '\\' !in lexeme;
    PlainIsShort(lexeme);
  }

  /** Text between brackets. */
  lemma BetweenIsShort(open: string, inner: string, close: string)
    requires '\\' !in open && '\\' !in close && EscapesAreShort(inner)
    ensures EscapesAreShort(open + inner + close)
  {
    PlainIsShort(open);
    PlainIsShort(close);
    ShortAppend(open, inner);
    ShortAppend(open + inner, close);
  }

  lemma {:induction false} RenderIsShort(j: J.Json)
    requires IsTidy(j)
    ensures EscapesAreShort(J.Render(j))
    decreases j, 2
  {
    match j
    case Null => PlainIsShort("null");
    case Bool(b) => PlainIsShort(if b then "true" else "false");
    case Number(lexeme) => LexemeIsShort(lexeme);
    case Str(text) => QuotedIsShort(text);
    case Arr(items) =>
      ItemsAreShort(items);
      BetweenIsShort("[", J.RenderItems(items), "]");
    case Obj(members) =>
      MembersAreShort(members);
      BetweenIsShort("{", J.RenderMembers(members), "}");
  }

  lemma {:induction false} ItemsAreShort(items: seq<J.Json>)
    requires forall item <- items :: IsTidy(item)
    ensures EscapesAreShort(J.RenderItems(items))
    decreases items, 1
  {
    hide EscapesAreShort, IsTidy;
    PlainIsShort("");
    if items != [] {
      RenderIsShort(items[0]);
      ItemsAreShort(items[1..]);
      var first, rest := J.Render(items[0]), J.RenderItems(items[1..]);
      BetweenIsShort("", first, ",");
      assert "" + first + "," == first + ",";
      ShortAppend(first + ",", rest);
    }
  }

  lemma {:induction false} MembersAreShort(members: seq<J.Member>)
    requires forall m <- members :: IsClean(m.name) && IsTidy(m.value)
    ensures EscapesAreShort(J.RenderMembers(members))
    decreases members, 1
  {
    hide EscapesAreShort, IsTidy, IsClean;
    PlainIsShort("");
    if members != [] {
      var m := members[0];
      QuotedIsShort(m.name);
      RenderIsShort(m.value);
      MembersAreShort(members[1..]);
      var first, rest := J.RenderMember(m), J.RenderMembers(members[1..]);
      BetweenIsShort("", Quoted(m.name), ":");
      assert "" + Quoted(m.name) + ":" == Quoted(m.name) + ":";
      ShortAppend(Quoted(m.name) + ":", J.Render(m.value));
      BetweenIsShort("", first, ",");
      assert "" + first + "," == first + ",";
      ShortAppend(first + ",", rest);
    }
  }

  /** The printed body of a request has no `\u` escape and no object with a repeated key. */
  predicate PrintsTidily(request: Option<RequestClause>) {
    request.Some? ==>
      var body := J.Obj(FieldsJson(request.value.body));
      IsTidy(body) && EscapesAreShort(J.Render(body))
  }

  lemma RequestPrintsTidily(request: Option<RequestClause>)
    requires CanWriteRequest(request)
    ensures PrintsTidily(request)
  {
    if request.Some? {
      BodyIsTidy(request.value.body);
      RenderIsShort(J.Obj(FieldsJson(request.value.body)));
    }
  }

  /** Every request body of an accepted source, of its scenarios and of their setups, prints tidily. */
  lemma AcceptedBodiesPrintTidily(source: string)
    requires Parse(source).Accepted?
    ensures forall s <- Parse(source).specification.scenarios ::
      PrintsTidily(s.request) && forall u <- s.setups :: PrintsTidily(u.request)
  {
    AcceptedIsWellFormed(source);
    hide Parse, PrintsTidily, CanWriteRequest, CanWriteCapture, IsIdentifier, CanWriteWhen, IsPhrase, IsWord, IsClean;
    forall s <- Parse(source).specification.scenarios
      ensures PrintsTidily(s.request) && forall u <- s.setups :: PrintsTidily(u.request)
    {
      assert CanWriteScenario(s);
      RequestPrintsTidily(s.request);
      forall u <- s.setups ensures PrintsTidily(u.request) {
        assert CanWriteSetup(u);
        RequestPrintsTidily(u.request);
      }
    }
  }
}
