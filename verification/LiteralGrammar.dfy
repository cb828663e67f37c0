/** The recursive-descent literal parser as functions on the text that remains to be read.

Each function consumes a prefix and returns the rest, so every accepted value is strictly shorter
on the way out: that is what makes the recursion terminate. */
module LiteralGrammar {
  import opened Text
  import opened Ast
  import opened StringCodec

  predicate LooksAt(s: string, c: char) { s != "" && s[0] == c }

  function Consume(s: string, expected: char): (p: Parsed<()>)
    ensures p.Parsed? ==> |p.rest| < |s|
  {
    if LooksAt(s, expected) then Parsed((), s[1..]) else Failed(ExpectedCharacter(expected))
  }

  // ---------------------------------------------------------------------------
  // Strings

  function ParseString(s: string): (p: Parsed<string>)
    ensures p.Parsed? ==> |p.rest| < |s|
  {
    var (_, s) :- Consume(s, '"');
    ParseRaw(s, "")
  }

  /** Collect the raw text up to the closing quote, then decode it. */
  function ParseRaw(s: string, raw: string): (p: Parsed<string>)
    ensures p.Parsed? ==> |p.rest| < |s|
    decreases |s|
  {
    if s == "" then Failed(StringUnclosed)
    else if s[0] == '"' then
      match Decode(raw)
      case Ok(value) => Parsed(value, s[1..])
      case Err(kind) => Failed(kind)
    else if s[0] == '\\' then
      if |s| == 1 then Failed(StringIncompleteEscape) else ParseRaw(s[2..], raw + [s[0], s[1]])
    else if IsControl(s[0]) then Failed(StringControlCharacter)
    else ParseRaw(s[1..], raw + [s[0]])
  }

  // ---------------------------------------------------------------------------
  // Scalars, counts and keys: the longest prefix without a stopping character

  predicate EndsScalar(c: char) { IsWhitespace(c) || c == ',' || c == ']' || c == '}' }

  predicate EndsCount(c: char) { EndsScalar(c) || c == ')' }

  function TakeUntil(s: string, stop: char -> bool): (w: string)
    ensures w <= s && forall c <- w :: !stop(c)
    ensures |w| < |s| ==> stop(s[|w|])
  {
    if s == "" || stop(s[0]) then "" else [s[0]] + TakeUntil(s[1..], stop)
  }

  lemma {:induction false} TakeUntilUnique(s: string, w: string, stop: char -> bool)
    requires w <= s && forall c <- w :: !stop(c)
    requires |w| < |s| ==> stop(s[|w|])
    ensures TakeUntil(s, stop) == w
  {
    if w != "" {
      assert w[0] in w && s[0] == w[0];
      TakeUntilUnique(s[1..], w[1..], stop);
    }
  }

  function ScalarValue(word: string): Option<Literal> {
    if word == "true" then Some(Boolean(true))
    else if word == "false" then Some(Boolean(false))
    else match ParseI64(word)
      case None => None
      case Some(n) => Some(Integer(n))
  }

  function ParseScalar(s: string): (p: Parsed<Literal>)
    ensures p.Parsed? ==> |p.rest| < |s|
  {
    var word := TakeUntil(s, EndsScalar);
    match ScalarValue(word)
    case None => Failed(UnknownScalar)
    case Some(value) => Parsed(value, s[|word|..])
  }

  function ParseRepeatCount(s: string): (p: Parsed<I64>)
    ensures p.Parsed? ==> |p.rest| < |s|
  {
    var word := TakeUntil(s, EndsCount);
    match ParseI64(word)
    case None => Failed(RepeatCountNotInteger)
    case Some(n) => Parsed(n, s[|word|..])
  }

  function ParseObjectKey(s: string): (p: Parsed<string>)
    ensures p.Parsed? ==> |p.rest| < |s| && IsIdentifier(p.value)
  {
    var s := TrimStart(s);
    if LooksAt(s, '"') then
      var (key, rest) :- ParseString(s);
      if IsIdentifier(key) then Parsed(key, rest) else Failed(NestedFieldName)
    else
      var key := TakeUntil(s, c => !IsNameChar(c));
      if IsIdentifier(key) then Parsed(key, s[|key|..]) else Failed(NestedFieldName)
  }

  // ---------------------------------------------------------------------------
  // Values

  const REPEAT := "repeat"

  predicate HasField(fields: seq<BodyField>, name: string) {
    exists f <- fields :: f.name == name
  }

  function ParseValue(s: string): (p: Parsed<Literal>)
    ensures p.Parsed? ==> |p.rest| < |s|
    decreases |s|, 1
  {
    var s := TrimStart(s);
    if s == "" then Failed(EmptyValue)
    else if s[0] == '"' then
      var (text, rest) :- ParseString(s);
      Parsed(String(text), rest)
    else if s[0] == '[' then ParseArray(s)
    else if s[0] == '{' then ParseObject(s)
    else if IsAsciiAlphabetic(s[0]) && REPEAT <= s then ParseRepeat(s[|REPEAT|..])
    else ParseScalar(s)
  }

  /** The generator call after its keyword. */
  function ParseRepeat(s: string): (p: Parsed<Literal>)
    ensures p.Parsed? ==> |p.rest| < |s|
  {
    var (_, s) :- Consume(TrimStart(s), '(');
    var s := TrimStart(s);
    if !LooksAt(s, '"') then Failed(RepeatValueNotString)
    else
      var (value, s) :- ParseString(s);
      var (_, s) :- Consume(TrimStart(s), ',');
      var (count, s) :- ParseRepeatCount(TrimStart(s));
      var (_, s) :- Consume(TrimStart(s), ')');
      Parsed(Repeat(value, count), s)
  }

  function ParseArray(s: string): (p: Parsed<Literal>)
    ensures p.Parsed? ==> |p.rest| < |s|
    decreases |s|, 0
  {
    var (_, s) :- Consume(s, '[');
    var s := TrimStart(s);
    if LooksAt(s, ']') then Parsed(Array([]), s[1..]) else ParseElements(s, [])
  }

  function ParseElements(s: string, values: seq<Literal>): (p: Parsed<Literal>)
    ensures p.Parsed? ==> |p.rest| < |s|
    decreases |s|, 2
  {
    var (value, s) :- ParseValue(s);
    var s := TrimStart(s);
    if LooksAt(s, ']') then Parsed(Array(values + [value]), s[1..])
    else
      var (_, s) :- Consume(s, ',');
      ParseElements(s, values + [value])
  }

  function ParseObject(s: string): (p: Parsed<Literal>)
    ensures p.Parsed? ==> |p.rest| < |s|
    decreases |s|, 0
  {
    var (_, s) :- Consume(s, '{');
    var s := TrimStart(s);
    if LooksAt(s, '}') then Parsed(Object([]), s[1..]) else ParseMembers(s, [])
  }

  function ParseMember(s: string): (p: Parsed<BodyField>)
    ensures p.Parsed? ==> |p.rest| < |s|
    decreases |s|, 2
  {
    var (name, s) :- ParseObjectKey(s);
    var (_, s) :- Consume(TrimStart(s), ':');
    var (value, s) :- ParseValue(s);
    Parsed(BodyField(name, value), s)
  }

  function ParseMembers(s: string, fields: seq<BodyField>): (p: Parsed<Literal>)
    ensures p.Parsed? ==> |p.rest| < |s|
    decreases |s|, 3
  {
    var (field, s) :- ParseMember(s);
    if HasField(fields, field.name) then Failed(NestedFieldDuplicated(field.name))
    else
      var fields := fields + [field];
      var s := TrimStart(s);
      if LooksAt(s, '}') then Parsed(Object(fields), s[1..])
      else
        var (_, s) :- Consume(s, ',');
        ParseMembers(s, fields)
  }

  /** `parse_literal`: one value and nothing after it but whitespace. */
  function ParseLiteral(s: string): Result<Literal, ErrorKind> {
    match ParseValue(s)
    case Failed(kind) => Err(kind)
    case Parsed(value, rest) => if TrimStart(rest) == "" then Ok(value) else Err(TrailingCharacters)
  }
}
