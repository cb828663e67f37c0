/** The documented form of every clause line, and what the parser stores for it. */
module ClauseText {
  import opened Text
  import opened Ast
  import opened StringCodec
  import opened LiteralGrammar
  import opened LiteralRoundTrip
  import opened LiteralSource
  import opened ClauseLines

  // ---------------------------------------------------------------------------
  // Pieces of lines

  predicate IsWord(w: string) { w != "" && forall c <- w :: !IsWhitespace(c) }

  /** Visible at both ends, on one line. */
  predicate IsPhrase(e: string) { e != "" && !IsWhitespace(e[0]) && !IsWhitespace(e[|e| - 1]) && '\n' !in e }

  lemma PhraseIsTrimmed(e: string)
    requires IsPhrase(e)
    ensures Trim(e) == e
  {
  }

  lemma PhraseWithTail(e: string)
    requires IsPhrase(e)
    ensures Trim(e + " ") == e
  {
    var s := e + " ";
    assert s[0] == e[0] && TrimStart(s) == s;
    assert s[..|s| - 1] == e;
    assert TrimEnd(s) == TrimEnd(e);
  }

  lemma Prefixed(p: string, s: string)
    ensures StripPrefix(p + s, p) == Some(s)
  {
  }

  /** Not the prefix, if one character differs. */
  lemma NotPrefixed(line: string, p: string, i: nat)
    requires i < |p| && i < |line| && line[i] != p[i]
    ensures StripPrefix(line, p) == None
  {
  }

  lemma Suffixed(s: string, suffix: string)
    ensures StripSuffix(s + suffix, suffix) == Some(s)
  {
  }

  lemma WordTaken(w: string, rest: string)
    requires IsWord(w) && (rest == "" || IsWhitespace(rest[0]))
    ensures TakeWord(w + rest) == w
  {
    TakeWordOf(w, rest);
  }

  lemma {:induction false} TakeWordOf(w: string, rest: string)
    requires (forall c <- w :: !IsWhitespace(c)) && (rest == "" || IsWhitespace(rest[0]))
    ensures TakeWord(w + rest) == w
  {
    hide IsWhitespace;
    if w == "" {
      assert w + rest == rest;
    } else {
      assert w[0] in w && (w + rest)[1..] == w[1..] + rest;
      TakeWordOf(w[1..], rest);
    }
  }

  lemma OneWord(w: string)
    requires IsWord(w)
    ensures SplitWhitespace(w) == [w]
  {
    hide IsWhitespace;
    assert w[0] in w && w + "" == w;
    WordTaken(w, "");
    assert w[|w|..] == "";
  }

  lemma WordThen(w: string, rest: string)
    requires IsWord(w)
    ensures SplitWhitespace(w + (" " + rest)) == [w] + SplitWhitespace(rest)
  {
    var s := w + (" " + rest);
    SpaceIsBlank();
    hide IsWhitespace;
    assert w[0] in w && s[0] == w[0];
    WordTaken(w, " " + rest);
    assert s[|w|..] == " " + rest;
    SkipSpace(rest);
  }

  lemma SpaceIsBlank()
    ensures IsWhitespace(' ') && (" " + "")[0] == ' '
  {
  }

  lemma SkipSpace(rest: string)
    ensures SplitWhitespace(" " + rest) == SplitWhitespace(rest)
  {
    assert (" " + rest)[1..] == rest;
    assert TrimStart(" " + rest) == TrimStart(rest);
  }

  lemma QuotedIsPhrase(v: string)
    ensures IsPhrase(Quoted(v)) && IsQuoted(Quoted(v)) && Quoted(v)[1..|Quoted(v)| - 1] == Escaped(v)
  {
    assert forall c <- Quoted(v) :: !IsControl(c);
  }

  /** A quoted text is read back. */
  lemma QuotedParses(v: string)
    requires IsClean(v)
    ensures ParseQuoted(Quoted(v)) == Ok(v) && ParseQuoted(Quoted(v) + " ") == Ok(v)
  {
    QuotedIsPhrase(v);
    PhraseIsTrimmed(Quoted(v));
    PhraseWithTail(Quoted(v));
    DecodePrinted(v);
    hide Quoted, Escaped, Decode, Trim, IsPhrase;
  }

  lemma IdentifierIsWord(name: string)
    requires IsIdentifier(name)
    ensures IsWord(name) && IsPhrase(name) && Trim(name) == name
    ensures '=' !in name && ' ' !in name && '\n' !in name
  {
    assert name == [name[0]] + name[1..];
    assert forall c <- name :: IsNameChar(c);
    assert name[0] in name && name[|name| - 1] in name;
    PhraseIsTrimmed(name);
  }

  lemma KeywordIsWord(w: string)
    requires w != "" && forall c <- w :: 'a' <= c <= 'z' || c == '_' || c == '.'
    ensures IsWord(w)
  {
  }

  lemma WordIsPhrase(w: string)
    requires IsWord(w)
    ensures IsPhrase(w)
  {
    assert w[0] in w && w[|w| - 1] in w;
    assert IsWhitespace('\n');
  }

  // ---------------------------------------------------------------------------
  // Lines of requests and requirements

  function WhenText(w: WhenClause): string { "when " + (w.method_ + " " + Quoted(w.path)) }

  function RequirementText(r: Requirement): string {
    (match r.kind case Must => "must " case MustNot => "must_not ") + r.expression
  }

  predicate CanWriteWhen(w: WhenClause) {
    w.method_ != "" && ' ' !in w.method_ && '\n' !in w.method_ && IsClean(w.path)
  }

  lemma WhenReads(w: WhenClause)
    requires CanWriteWhen(w)
    ensures ParseWhen(w.method_ + " " + Quoted(w.path)) == Ok(w)
  {
    SplitOnceAt(w.method_, ' ', Quoted(w.path));
    QuotedIsPhrase(w.path);
    PhraseIsTrimmed(Quoted(w.path));
    QuotedParses(w.path);
    hide ParseQuoted, Quoted, SplitOnce, Trim;
    assert w.method_ + [' '] + Quoted(w.path) == w.method_ + " " + Quoted(w.path);
  }

  /** `must` and `must_not` lines store their kind and their expression. */
  lemma RequirementReads(r: Requirement)
    requires IsPhrase(r.expression)
    ensures ParseRequirement(RequirementText(r)) == Some(Ok(r))
  {
    PhraseIsTrimmed(r.expression);
    hide Trim, IsPhrase;
    var line := RequirementText(r);
    match r.kind
    case Must =>
      NotPrefixed(line, "must_not ", 4);
      Prefixed("must ", r.expression);
    case MustNot =>
      Prefixed("must_not ", r.expression);
  }

  // ---------------------------------------------------------------------------
  // Lines of scenarios

  function StateText(name: string): string { "state " + name }

  /** With two spaces where one would open a body. */
  function GivenText(e: string): string { if e == "body {" then "given  body {" else "given " + e }

  lemma StateReads(s: Scenario, name: string)
    requires IsIdentifier(name) && s.state.None?
    ensures ParseScenarioLine(s, StateText(name)) == Ok(s.(state := Some(name)))
  {
    IdentifierIsWord(name);
    Prefixed("state ", name);
    hide IsIdentifier, Trim;
  }

  lemma GivenReads(s: Scenario, e: string)
    requires IsPhrase(e)
    ensures ParseScenarioLine(s, GivenText(e)) == Ok(s.(given := s.given + [e]))
  {
    PhraseIsTrimmed(e);
    var line := GivenText(e);
    NotPrefixed(line, "state ", 0);
    if e == "body {" {
      Prefixed("given ", " body {");
      assert line == "given " + " body {";
      assert (" body {")[1..] == "body {";
      assert TrimStart(" body {") == TrimStart("body {");
      hide TrimStart, TrimEnd, IsPhrase;
    } else {
      Prefixed("given ", e);
      hide Trim, IsPhrase;
    }
  }

  lemma ScenarioWhenReads(s: Scenario, w: WhenClause)
    requires CanWriteWhen(w) && s.when_.None?
    ensures ParseScenarioLine(s, WhenText(w)) == Ok(s.(when_ := Some(w)))
  {
    WhenReads(w);
    hide ParseWhen, Quoted, CanWriteWhen;
    var line := WhenText(w);
    NotPrefixed(line, "state ", 0);
    NotPrefixed(line, "given ", 0);
    Prefixed("when ", w.method_ + " " + Quoted(w.path));
  }

  lemma ScenarioRequirementReads(s: Scenario, r: Requirement)
    requires IsPhrase(r.expression)
    ensures ParseScenarioLine(s, RequirementText(r)) == Ok(s.(requirements := s.requirements + [r]))
  {
    RequirementReads(r);
    hide ParseRequirement, IsPhrase;
    var line := RequirementText(r);
    assert line[0] == 'm';
    hide RequirementText;
    NotPrefixed(line, "state ", 0);
    NotPrefixed(line, "given ", 0);
    NotPrefixed(line, "when ", 0);
  }

  // ---------------------------------------------------------------------------
  // Lines of setups

  function CaptureText(c: CaptureClause): string { "capture " + (c.name + " = response." + c.selector) }

  predicate CanWriteCapture(c: CaptureClause) {
    && IsIdentifier(c.name)
    && "body." <= c.selector && IsSelectorPath(c.selector[5..])
  }

  lemma SetupWhenReads(s: SetupClause, w: WhenClause)
    requires CanWriteWhen(w) && s.when_.None?
    ensures ParseSetupLine(s, WhenText(w)) == Ok(s.(when_ := Some(w)))
  {
    WhenReads(w);
    hide ParseWhen, Quoted, CanWriteWhen;
    Prefixed("when ", w.method_ + " " + Quoted(w.path));
  }

  lemma SetupRequirementReads(s: SetupClause, r: Requirement)
    requires IsPhrase(r.expression)
    ensures ParseSetupLine(s, RequirementText(r)) == Ok(s.(requirements := s.requirements + [r]))
  {
    RequirementReads(r);
    hide ParseRequirement, IsPhrase;
    var line := RequirementText(r);
    assert line[0] == 'm';
    hide RequirementText;
    NotPrefixed(line, "when ", 0);
  }

  lemma {:induction false} PiecesAreIdentifiers(path: string)
    requires IsSelectorPath(path)
    ensures path != "" && IsNameStart(path[0]) && IsNameChar(path[|path| - 1])
    ensures forall c <- path :: c == '.' || IsNameChar(c)
    decreases |path|
  {
    match SplitOnce(path, '.')
    case None =>
      assert path in SplitOn(path, '.');
      assert path == [path[0]] + path[1..];
    case Some((a, b)) =>
      var pieces := SplitOn(path, '.');
      assert pieces == [a] + SplitOn(b, '.') && a in pieces;
      assert forall piece <- SplitOn(b, '.') :: piece in pieces;
      PiecesAreIdentifiers(b);
      assert a == [a[0]] + a[1..] && path == a + ['.'] + b;
  }

  lemma SelectorIsPhrase(path: string)
    requires IsSelectorPath(path)
    ensures IsPhrase(SELECTOR_PREFIX + path)
  {
    PiecesAreIdentifiers(path);
    hide IsSelectorPath;
    var s := SELECTOR_PREFIX + path;
    assert s[0] == 'r' && s[|s| - 1] == path[|path| - 1];
  }

  lemma CaptureReads(c: CaptureClause)
    requires CanWriteCapture(c)
    ensures ParseCapture(c.name + " = response." + c.selector) == Ok(c)
  {
    var path := c.selector[5..];
    var value := c.name + " = response." + c.selector;
    assert c.selector == "body." + path;
    SelectorIsPhrase(path);
    IdentifierIsWord(c.name);
    CaptureParts(c.name, path);
    hide IsSelectorPath, IsIdentifier, IsPhrase, Trim, SplitOnce;
    Prefixed(SELECTOR_PREFIX, path);
  }

  lemma CaptureParts(name: string, path: string)
    requires '=' !in name && IsPhrase(name) && IsPhrase(SELECTOR_PREFIX + path)
    ensures SplitOnce(name + " = response." + ("body." + path), '=')
         == Some((name + " ", " " + (SELECTOR_PREFIX + path)))
    ensures Trim(name + " ") == name && Trim(" " + (SELECTOR_PREFIX + path)) == SELECTOR_PREFIX + path
  {
    var selector := SELECTOR_PREFIX + path;
    assert name + " = response." + ("body." + path) == (name + " ") + ['='] + (" " + selector);
    SplitOnceAt(name + " ", '=', " " + selector);
    PhraseWithTail(name);
    assert (" " + selector)[1..] == selector;
    assert TrimStart(" " + selector) == TrimStart(selector);
  }

  lemma SetupCaptureReads(s: SetupClause, c: CaptureClause)
    requires CanWriteCapture(c)
    ensures ParseSetupLine(s, CaptureText(c)) == Ok(s.(captures := s.captures + [c]))
  {
    CaptureReads(c);
    hide ParseCapture, CanWriteCapture;
    var line := CaptureText(c);
    assert line[0] == 'c';
    NotPrefixed(line, "when ", 0);
    NotPrefixed(line, "must_not ", 0);
    NotPrefixed(line, "must ", 0);
    Prefixed("capture ", c.name + " = response." + c.selector);
  }

  // ---------------------------------------------------------------------------
  // Lines of bodies

  function BodyText(f: BodyField): string { f.name + " = " + LiteralText(f.value) }

  lemma BodyReads(fields: seq<BodyField>, f: BodyField)
    requires IsIdentifier(f.name) && WellFormed(f.value) && !HasField(fields, f.name)
    ensures ParseBodyLine(fields, BodyText(f)) == Ok(fields + [f])
  {
    IdentifierIsWord(f.name);
    LiteralReadsBack(f.value);
    LiteralEnds(f.value);
    BodyParts(f.name, LiteralText(f.value));
    hide ParseLiteral, IsIdentifier, HasField, WellFormed, Trim, SplitOnce, LiteralText;
  }

  lemma BodyParts(name: string, text: string)
    requires '=' !in name && IsPhrase(name) && text != "" && !IsWhitespace(text[0]) && !IsWhitespace(text[|text| - 1])
    ensures SplitOnce(name + " = " + text, '=') == Some((name + " ", " " + text))
    ensures Trim(name + " ") == name && Trim(" " + text) == text
  {
    assert name + " = " + text == (name + " ") + ['='] + (" " + text);
    SplitOnceAt(name + " ", '=', " " + text);
    PhraseWithTail(name);
    assert (" " + text)[1..] == text;
    assert TrimStart(" " + text) == TrimStart(text);
  }

  // ---------------------------------------------------------------------------
  // Lines of mutations

  function TargetText(scenario: string): string { "target " + scenario }

  function ChangeText(c: MutationChange): string {
    "change "
    + ("response.status" + (" " + ("from" + (" " + (FormatInt(c.from) + (" " + ("to" + (" " + FormatInt(c.to_)))))))))
  }

  function RuleText(rule: string): string { "expect rule " + (rule + " to fail") }

  lemma TargetReads(m: MutationClause, scenario: string)
    requires IsIdentifier(scenario) && m.scenario.None?
    ensures ParseMutationLine(m, TargetText(scenario)) == Ok(m.(scenario := Some(scenario)))
  {
    IdentifierIsWord(scenario);
    Prefixed("target ", scenario);
    hide IsIdentifier, Trim;
  }

  lemma NumberIsWord(n: int)
    ensures IsWord(FormatInt(n))
  {
  }

  lemma ChangeWords(from: int, target: int)
    ensures SplitWhitespace(
        "response.status" + (" " + ("from" + (" " + (FormatInt(from) + (" " + ("to" + (" " + FormatInt(target)))))))))
      == ["response.status", "from", FormatInt(from), "to", FormatInt(target)]
  {
    hide IsWord, SplitWhitespace, FormatInt;
    NumberIsWord(from);
    NumberIsWord(target);
    KeywordIsWord("response.status");
    KeywordIsWord("from");
    KeywordIsWord("to");
    var s4 := FormatInt(target);
    var s3 := "to" + (" " + s4);
    var s2 := FormatInt(from) + (" " + s3);
    var s1 := "from" + (" " + s2);
    OneWord(s4);
    WordThen("to", s4);
    WordThen(FormatInt(from), s3);
    WordThen("from", s2);
    WordThen("response.status", s1);
  }

  /** `change response.status from a to b` stores a as what it changes from, and b as what it changes to. */
  lemma ChangeReads(m: MutationClause, c: MutationChange)
    requires c.field == "response.status" && m.change.None?
    ensures ParseMutationLine(m, ChangeText(c)) == Ok(m.(change := Some(c)))
  {
    hide SplitWhitespace, FormatInt, ParseI64;
    ChangeWords(c.from, c.to_);
    ParseFormat(c.from);
    ParseFormat(c.to_);
    var line := ChangeText(c);
    assert line[0] == 'c';
    NotPrefixed(line, "target ", 0);
    Prefixed("change ", line[7..]);
    assert line == "change " + line[7..];
  }

  lemma RuleReads(m: MutationClause, rule: string)
    requires IsPhrase(rule) && m.expectedRule.None?
    ensures ParseMutationLine(m, RuleText(rule)) == Ok(m.(expectedRule := Some(rule)))
  {
    PhraseIsTrimmed(rule);
    hide Trim, IsPhrase;
    var line := RuleText(rule);
    NotPrefixed(line, "target ", 0);
    NotPrefixed(line, "change ", 0);
    Prefixed("expect rule ", rule + " to fail");
    Suffixed(rule, " to fail");
  }

  // ---------------------------------------------------------------------------
  // Lines of fixtures

  const OWNER_TEXT := "owner oracle"

  function PurposeText(purpose: string): string { "purpose " + Quoted(purpose) }

  function DigestText(sha256: string): string { "sha256 " + Quoted(sha256) }

  lemma OwnerReads(f: FixtureClause)
    requires f.owner.None?
    ensures ParseFixtureLine(f, OWNER_TEXT) == Ok(f.(owner := Some(Oracle)))
  {
    assert IsIdentifier("oracle");
    IdentifierIsWord("oracle");
    assert OWNER_TEXT == "owner " + "oracle";
    Prefixed("owner ", "oracle");
    hide IsIdentifier, Trim;
  }

  lemma PurposeReads(f: FixtureClause, purpose: string)
    requires IsClean(purpose) && f.purpose.None?
    ensures ParseFixtureLine(f, PurposeText(purpose)) == Ok(f.(purpose := Some(purpose)))
  {
    QuotedParses(purpose);
    hide ParseQuoted, Quoted;
    NotPrefixed(PurposeText(purpose), "owner ", 0);
    Prefixed("purpose ", Quoted(purpose));
  }

  lemma DigestReads(f: FixtureClause, sha256: string)
    requires IsClean(sha256) && f.sha256.None?
    ensures ParseFixtureLine(f, DigestText(sha256)) == Ok(f.(sha256 := Some(sha256)))
  {
    QuotedParses(sha256);
    hide ParseQuoted, Quoted;
    NotPrefixed(DigestText(sha256), "owner ", 0);
    NotPrefixed(DigestText(sha256), "purpose ", 0);
    Prefixed("sha256 ", Quoted(sha256));
  }

  // ---------------------------------------------------------------------------
  // Lines of the provenance and the isolation clause

  const EXECUTION_ID_TEXT := "must create execution_id"

  function ResetText(path: string): string { "reset " + ("POST" + " " + Quoted(path)) }

  lemma ExecutionIdReads(p: ProvenanceClause)
    requires ProvenanceRequirement(Create, ExecutionId) !in p.requirements
    ensures ParseProvenanceLine(p, EXECUTION_ID_TEXT)
         == Ok(ProvenanceClause(p.requirements + [ProvenanceRequirement(Create, ExecutionId)]))
  {
    hide SplitWhitespace, IsWord;
    KeywordIsWord("must");
    KeywordIsWord("create");
    KeywordIsWord("execution_id");
    assert EXECUTION_ID_TEXT == "must" + (" " + ("create" + (" " + "execution_id")));
    OneWord("execution_id");
    WordThen("create", "execution_id");
    WordThen("must", "create" + (" " + "execution_id"));
  }

  lemma ResetReads(i: IsolationClause, path: string)
    requires IsClean(path) && i.reset.None?
    ensures ParseIsolationLine(i, ResetText(path)) == Ok(i.(reset := Some(ResetClause("POST", path))))
  {
    SplitOnceAt("POST", ' ', Quoted(path));
    QuotedIsPhrase(path);
    PhraseIsTrimmed(Quoted(path));
    QuotedParses(path);
    hide ParseQuoted, Quoted, SplitOnce, Trim;
    assert "POST" + [' '] + Quoted(path) == "POST" + " " + Quoted(path);
    Prefixed("reset ", "POST" + " " + Quoted(path));
  }

  // ---------------------------------------------------------------------------
  // Headers

  function SpecWords(name: string, version: Option<string>): string {
    "spec" + (" " + (name + (if version.Some? then " " + version.value else "")))
  }

  function SpecText(name: string, version: Option<string>): string { Opening(SpecWords(name, version)) }

  lemma SpecReads(name: string, version: Option<string>)
    requires IsWord(name) && (version.Some? ==> IsWord(version.value))
    ensures ParseSpecHeader(SpecText(name, version)) == Ok(Specification(name, version, None, [], [], [], None, None))
  {
    hide Trim, SplitWhitespace, IsWord, IsPhrase;
    SpecContent(name, version);
    OpeningContent(SpecWords(name, version));
    SpecWordsSplit(name, version);
    hide RequireOpenBrace, SpecWords, Opening;
  }

  lemma SpecWordsSplit(name: string, version: Option<string>)
    requires IsWord(name) && (version.Some? ==> IsWord(version.value))
    ensures SplitWhitespace(SpecWords(name, version))
         == ["spec", name] + if version.Some? then [version.value] else []
  {
    hide SplitWhitespace, IsWord;
    KeywordIsWord("spec");
    if version.Some? {
      OneWord(version.value);
      WordThen(name, version.value);
      WordThen("spec", name + (" " + version.value));
    } else {
      OneWord(name);
      assert name + "" == name;
      WordThen("spec", name);
    }
  }

  lemma SpecContent(name: string, version: Option<string>)
    requires IsWord(name) && (version.Some? ==> IsWord(version.value))
    ensures IsPhrase(SpecWords(name, version))
  {
    var tail := name + (if version.Some? then " " + version.value else "");
    var s := "spec" + (" " + tail);
    WordIsPhrase(name);
    if version.Some? {
      WordIsPhrase(version.value);
      assert s[|s| - 1] == version.value[|version.value| - 1];
    } else {
      assert s[|s| - 1] == name[|name| - 1];
    }
    assert s[0] == 's';
  }

  /** The header of a block after its keyword. */
  function Opening(content: string): string { content + " {" }

  lemma OpeningContent(content: string)
    requires IsPhrase(content)
    ensures RequireOpenBrace(Opening(content)) == Ok(content)
  {
    PhraseWithTail(content);
    Suffixed(content + " ", "{");
    assert Opening(content) == content + " " + "{";
  }

  lemma ScenarioHeaderReads(name: string)
    requires IsWord(name)
    ensures ParseScenarioHeader(Opening(name)) == Ok(Scenario(name, [], None, None, None, [], []))
  {
    WordIsPhrase(name);
    OpeningContent(name);
    OneWord(name);
    hide RequireOpenBrace, SplitWhitespace, IsWord;
  }

  lemma SetupHeaderReads(name: string)
    requires IsIdentifier(name)
    ensures ParseSetupHeader(Opening(name)) == Ok(SetupClause(name, None, None, [], []))
  {
    IdentifierIsWord(name);
    OpeningContent(name);
    OneWord(name);
    hide RequireOpenBrace, SplitWhitespace, IsWord, IsIdentifier;
  }

  lemma MutationHeaderReads(id: string)
    requires IsClean(id)
    ensures ParseMutationHeader(Opening(Quoted(id))) == Ok(MutationClause(id, None, None, None))
  {
    QuotedIsPhrase(id);
    OpeningContent(Quoted(id));
    QuotedParses(id);
    hide RequireOpenBrace, ParseQuoted, Quoted;
  }

  lemma FixtureHeaderReads(id: string)
    requires IsClean(id)
    ensures ParseFixtureHeader(Opening(Quoted(id))) == Ok(FixtureClause(id, None, None, None))
  {
    QuotedIsPhrase(id);
    OpeningContent(Quoted(id));
    QuotedParses(id);
    hide RequireOpenBrace, ParseQuoted, Quoted;
  }
}
