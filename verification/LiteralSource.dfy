/** A way to write every literal on one line, and the proof that it is read back. */
module LiteralSource {
  import opened Text
  import opened Ast
  import opened StringCodec
  import opened LiteralGrammar
  import opened LiteralRoundTrip
  import J = Json

  // ---------------------------------------------------------------------------
  // Writing

  function LiteralText(l: Literal): (s: string)
    ensures s != ""
  {
    match l
    case String(text) => Quoted(text)
    case Integer(n) => FormatInt(n)
    case Boolean(b) => if b then "true" else "false"
    case Array(values) => "[" + ValuesText(values) + "]"
    case Object(fields) => "{" + FieldsText(fields) + "}"
    case Repeat(value, count) => "repeat(" + Quoted(value) + "," + FormatInt(count) + ")"
  }

  function ValuesText(values: seq<Literal>): string {
    if values == [] then ""
    else if |values| == 1 then LiteralText(values[0])
    else LiteralText(values[0]) + "," + ValuesText(values[1..])
  }

  function FieldText(name: string, value: string): string { Quoted(name) + ":" + value }

  function FieldsText(fields: seq<BodyField>): string {
    if fields == [] then ""
    else if |fields| == 1 then FieldText(fields[0].name, LiteralText(fields[0].value))
    else FieldText(fields[0].name, LiteralText(fields[0].value)) + "," + FieldsText(fields[1..])
  }

  // ---------------------------------------------------------------------------
  // Reading it back

  lemma RepeatArguments(value: string, count: I64, rest: string)
    requires IsClean(value)
    ensures ParseRepeat("(" + (Quoted(value) + ("," + (FormatInt(count) + (")" + rest)))))
         == Parsed(Repeat(value, count), rest)
  {
    hide ParseString, ParseRepeatCount, Quoted, FormatInt, IsWhitespace, IsClean;
    var s4 := ")" + rest;
    var s3 := FormatInt(count) + s4;
    var s2 := "," + s3;
    var s1 := Quoted(value) + s2;
    var s0 := "(" + s1;
    assert s0[1..] == s1 && s2[1..] == s3 && s4[1..] == rest;
    ParsePrintedString(value, s2);
    CountText(count, rest);
    QuotedHead(value, s2);
    CountHead(count, s4);
    NoSpaces();
  }

  lemma NoSpaces()
    ensures !IsWhitespace('(') && !IsWhitespace(',') && !IsWhitespace(')') && !IsWhitespace('"')
  {
  }

  lemma QuotedHead(value: string, rest: string)
    ensures Quoted(value) + rest != "" && (Quoted(value) + rest)[0] == '"'
  {
  }

  lemma CountHead(n: I64, rest: string)
    ensures FormatInt(n) + rest != "" && !IsWhitespace((FormatInt(n) + rest)[0])
  {
    assert (FormatInt(n) + rest)[0] == FormatInt(n)[0];
  }

  lemma CountText(n: I64, rest: string)
    ensures ParseRepeatCount(FormatInt(n) + (")" + rest)) == Parsed(n, ")" + rest)
  {
    var word, s := FormatInt(n), FormatInt(n) + (")" + rest);
    assert forall c <- word :: !EndsCount(c);
    assert s[|word|] == ')' && s[|word|..] == ")" + rest;
    TakeUntilUnique(s, word, EndsCount);
    ParseFormat(n);
  }

  lemma RepeatText(value: string, count: I64, rest: string)
    requires IsClean(value)
    ensures ParseValue("repeat(" + Quoted(value) + "," + FormatInt(count) + ")" + rest)
      == Parsed(Repeat(value, count), rest)
  {
    var text := "repeat(" + Quoted(value) + "," + FormatInt(count) + ")" + rest;
    var call := "(" + (Quoted(value) + ("," + (FormatInt(count) + (")" + rest))));
    RepeatSplit(Quoted(value), FormatInt(count), rest);
    RepeatArguments(value, count, rest);
    hide ParseRepeat, Quoted;
    KeywordText(call);
  }

  lemma RepeatSplit(quoted: string, count: string, rest: string)
    ensures "repeat(" + quoted + "," + count + ")" + rest == REPEAT + ("(" + (quoted + ("," + (count + (")" + rest)))))
  {
  }

  lemma KeywordText(call: string)
    ensures ParseValue(REPEAT + call) == ParseRepeat(call)
  {
    hide ParseRepeat;
    var s := REPEAT + call;
    assert s[0] == 'r' && s[|REPEAT|..] == call;
  }

  predicate IsHead(c: char) { J.IsValueHead(c) && !IsWhitespace(c) }

  lemma LiteralHead(l: Literal)
    ensures IsHead(LiteralText(l)[0])
  {
  }

  lemma ValuesHead(values: seq<Literal>)
    requires values != []
    ensures ValuesText(values) != "" && IsHead(ValuesText(values)[0])
  {
    LiteralHead(values[0]);
    hide IsHead, LiteralText;
  }

  lemma FieldsHead(fields: seq<BodyField>)
    requires fields != []
    ensures FieldsText(fields) != "" && FieldsText(fields)[0] == '"'
  {
  }

  /** A literal that the parser can return is read back from its text, whatever follows a value. */
  lemma {:induction false} ParseLiteralText(l: Literal, rest: string)
    requires WellFormed(l) && J.IsFollow(rest)
    ensures ParseValue(LiteralText(l) + rest) == Parsed(l, rest)
    decreases l, 0
  {
    match l
    case String(text) => ParsePrintedString(text, rest); StringText(text, rest);
    case Integer(n) => ParsePrintedInteger(n, rest);
    case Boolean(b) => ParsePrintedBoolean(b, rest);
    case Repeat(value, count) => RepeatText(value, count, rest);
    case Array(values) =>
      if values != [] {
        ValuesHead(values);
        ParseValuesText(values, [], rest);
        assert [] + values == values;
      }
      ArrayText(values, ValuesText(values), rest);
    case Object(fields) =>
      if fields != [] {
        ParseFieldsText(fields, [], rest);
        assert [] + fields == fields;
        FieldsHead(fields);
      }
      ObjectText(fields, FieldsText(fields), rest);
  }

  lemma StringText(text: string, rest: string)
    requires ParseString(Quoted(text) + rest) == Parsed(text, rest)
    ensures ParseValue(Quoted(text) + rest) == Parsed(String(text), rest)
  {
    hide ParseString;
    QuotedHead(text, rest);
  }

  lemma {:induction false} ParseValuesText(values: seq<Literal>, before: seq<Literal>, rest: string)
    requires values != [] && WellFormedValues(values)
    ensures ParseElements(ValuesText(values) + "]" + rest, before) == Parsed(Array(before + values), rest)
    decreases values, 1
  {
    var value, tail := values[0], values[1..];
    assert values == [value] + tail;
    var text := LiteralText(value);
    if tail == [] {
      assert values == [value];
      ParseLiteralText(value, "]" + rest);
      ElementsLast(text + ("]" + rest), before, value, rest);
      J.Reassociate(text, "]", rest);
    } else {
      var inner := ValuesText(tail);
      var after := inner + "]" + rest;
      ParseValuesText(tail, before + [value], rest);
      ParseLiteralText(value, "," + after);
      ElementsStep(text + ("," + after), before, value, after);
      J.ReassociateList(text, inner, "]", rest);
      assert before + [value] + tail == before + values;
    }
  }

  lemma {:induction false} ParseFieldText(field: BodyField, rest: string)
    requires WellFormed(field.value) && IsIdentifier(field.name) && J.IsFollow(rest)
    ensures ParseMember(FieldText(field.name, LiteralText(field.value)) + rest) == Parsed(field, rest)
    decreases field, 1
  {
    ParseLiteralText(field.value, rest);
    MemberText(field.name, field.value, LiteralText(field.value), rest);
  }

  lemma {:induction false} ParseFieldsText(fields: seq<BodyField>, before: seq<BodyField>, rest: string)
    requires fields != [] && WellFormedFields(fields) && DistinctNames(before + fields)
    ensures ParseMembers(FieldsText(fields) + "}" + rest, before) == Parsed(Object(before + fields), rest)
    decreases fields, 1
  {
    var field, tail := fields[0], fields[1..];
    var text := FieldText(field.name, LiteralText(field.value));
    NewField(before, fields);
    if tail == [] {
      assert fields == [field];
      ParseFieldText(field, "}" + rest);
      MembersLast(text + ("}" + rest), before, field, rest);
      J.Reassociate(text, "}", rest);
    } else {
      var inner := FieldsText(tail);
      var after := inner + "}" + rest;
      assert before + [field] + tail == before + fields;
      ParseFieldsText(tail, before + [field], rest);
      ParseFieldText(field, "," + after);
      MembersStep(text + ("," + after), before, field, after);
      J.ReassociateList(text, inner, "}", rest);
    }
  }

  lemma NewField(before: seq<BodyField>, fields: seq<BodyField>)
    requires fields != [] && DistinctNames(before + fields)
    ensures !HasField(before, fields[0].name)
  {
    assert (before + fields)[|before|] == fields[0];
    assert forall i | 0 <= i < |before| :: (before + fields)[i] == before[i];
  }

  /** The whole text of a literal is read as that literal. */
  lemma LiteralReadsBack(l: Literal)
    requires WellFormed(l)
    ensures ParseLiteral(LiteralText(l)) == Ok(l)
  {
    ParseLiteralText(l, "");
    assert LiteralText(l) + "" == LiteralText(l);
  }

  // ---------------------------------------------------------------------------
  // The text is one trimmed line

  predicate IsOneLine(s: string) { forall c <- s :: !IsControl(c) }

  lemma QuotedIsOneLine(value: string)
    ensures IsOneLine(Quoted(value))
  {
  }

  lemma NumberIsOneLine(n: int)
    ensures IsOneLine(FormatInt(n))
  {
  }

  lemma BetweenIsOneLine(open_: string, inner: string, close: string)
    requires IsOneLine(open_) && IsOneLine(inner) && IsOneLine(close)
    ensures IsOneLine(open_ + inner + close)
  {
  }

  lemma {:induction false} LiteralIsOneLine(l: Literal)
    ensures IsOneLine(LiteralText(l))
    decreases l, 0
  {
    match l
    case String(text) => QuotedIsOneLine(text);
    case Integer(n) => NumberIsOneLine(n);
    case Boolean(b) =>
    case Array(values) => ValuesAreOneLine(values); BetweenIsOneLine("[", ValuesText(values), "]");
    case Object(fields) => FieldsAreOneLine(fields); BetweenIsOneLine("{", FieldsText(fields), "}");
    case Repeat(value, count) =>
      QuotedIsOneLine(value);
      NumberIsOneLine(count);
      BetweenIsOneLine("repeat(", Quoted(value), ",");
      BetweenIsOneLine("repeat(" + Quoted(value) + ",", FormatInt(count), ")");
  }

  lemma {:induction false} ValuesAreOneLine(values: seq<Literal>)
    ensures IsOneLine(ValuesText(values))
    decreases values, 1
  {
    if values != [] {
      LiteralIsOneLine(values[0]);
      ValuesAreOneLine(values[1..]);
      BetweenIsOneLine(LiteralText(values[0]), ",", ValuesText(values[1..]));
    }
  }

  lemma {:induction false} FieldsAreOneLine(fields: seq<BodyField>)
    ensures IsOneLine(FieldsText(fields))
    decreases fields, 1
  {
    if fields != [] {
      LiteralIsOneLine(fields[0].value);
      QuotedIsOneLine(fields[0].name);
      var first := FieldText(fields[0].name, LiteralText(fields[0].value));
      BetweenIsOneLine(Quoted(fields[0].name), ":", LiteralText(fields[0].value));
      FieldsAreOneLine(fields[1..]);
      BetweenIsOneLine(first, ",", FieldsText(fields[1..]));
    }
  }

  /** Its first and its last character are visible. */
  lemma LiteralEnds(l: Literal)
    ensures var s := LiteralText(l); !IsWhitespace(s[0]) && !IsWhitespace(s[|s| - 1])
  {
    LiteralHead(l);
    hide Escaped;
    if l.Integer? {
      assert FormatInt(l.n)[|FormatInt(l.n)| - 1] in FormatInt(l.n);
    }
  }
}
