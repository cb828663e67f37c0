/** Printing a literal and parsing the text back. */
module LiteralRoundTrip {
  import opened Text
  import opened Ast
  import opened StringCodec
  import opened LiteralGrammar
  import J = Json

  // ---------------------------------------------------------------------------
  // The JSON value that `write_literal` writes

  const GENERATED := "generated"

  function LiteralJson(l: Literal): J.Json {
    match l
    case String(text) => J.Str(text)
    case Integer(n) => J.Number(FormatInt(n))
    case Boolean(b) => J.Bool(b)
    case Object(fields) => J.Obj(FieldsJson(fields))
    case Array(values) => J.Arr(ValuesJson(values))
    case Repeat(value, count) => RepeatJson(value, count)
  }

  function RepeatJson(value: string, count: I64): J.Json {
    J.Obj([J.Member(GENERATED, J.Obj([
      J.Member("kind", J.Str("repeat")),
      J.Member("value", J.Str(value)),
      J.Member("count", J.Number(FormatInt(count)))]))])
  }

  function FieldsJson(fields: seq<BodyField>): (members: seq<J.Member>)
    ensures |members| == |fields|
  {
    if fields == [] then []
    else [J.Member(fields[0].name, LiteralJson(fields[0].value))] + FieldsJson(fields[1..])
  }

  function ValuesJson(values: seq<Literal>): (items: seq<J.Json>)
    ensures |items| == |values|
  {
    if values == [] then [] else [LiteralJson(values[0])] + ValuesJson(values[1..])
  }

  /** The literal that the printed text denotes: a generator becomes the object that stands for it. */
  function Normalise(l: Literal): Literal {
    match l
    case Object(fields) => Object(NormaliseFields(fields))
    case Array(values) => Array(NormaliseValues(values))
    case Repeat(value, count) => RepeatObject(value, count)
    case _ => l
  }

  function RepeatObject(value: string, count: I64): Literal {
    Object([BodyField(GENERATED, Object([
      BodyField("kind", String("repeat")),
      BodyField("value", String(value)),
      BodyField("count", Integer(count))]))])
  }

  function NormaliseFields(fields: seq<BodyField>): (r: seq<BodyField>)
    ensures |r| == |fields| && forall i | 0 <= i < |r| :: r[i].name == fields[i].name
  {
    if fields == [] then []
    else [BodyField(fields[0].name, Normalise(fields[0].value))] + NormaliseFields(fields[1..])
  }

  function NormaliseValues(values: seq<Literal>): (r: seq<Literal>)
    ensures |r| == |values|
  {
    if values == [] then [] else [Normalise(values[0])] + NormaliseValues(values[1..])
  }

  // ---------------------------------------------------------------------------
  // What the parser can return

  predicate DistinctNames(fields: seq<BodyField>) {
    forall i, j | 0 <= i < j < |fields| :: fields[i].name != fields[j].name
  }

  /** Identifier names, distinct in each object, and clean strings, at every depth. */
  predicate WellFormed(l: Literal) {
    match l
    case String(text) => IsClean(text)
    case Object(fields) => WellFormedFields(fields) && DistinctNames(fields)
    case Array(values) => WellFormedValues(values)
    case Repeat(value, _) => IsClean(value)
    case _ => true
  }

  predicate WellFormedFields(fields: seq<BodyField>) {
    fields == [] || (IsIdentifier(fields[0].name) && WellFormed(fields[0].value) && WellFormedFields(fields[1..]))
  }

  predicate WellFormedValues(values: seq<Literal>) {
    values == [] || (WellFormed(values[0]) && WellFormedValues(values[1..]))
  }

  /** No generator at any depth. */
  predicate IsPlain(l: Literal) {
    match l
    case Object(fields) => IsPlainFields(fields)
    case Array(values) => IsPlainValues(values)
    case Repeat(_, _) => false
    case _ => true
  }

  predicate IsPlainFields(fields: seq<BodyField>) {
    fields == [] || (IsPlain(fields[0].value) && IsPlainFields(fields[1..]))
  }

  predicate IsPlainValues(values: seq<Literal>) {
    values == [] || (IsPlain(values[0]) && IsPlainValues(values[1..]))
  }

  // ---------------------------------------------------------------------------
  // Everything the literal parser accepts is well formed

  lemma {:induction false} RawIsClean(s: string, raw: string)
    ensures ParseRaw(s, raw).Parsed? ==> IsClean(ParseRaw(s, raw).value)
    decreases |s|
  {
    if s == "" {
    } else if s[0] == '"' {
      DecodedIsClean(raw);
    } else if s[0] == '\\' {
      if |s| > 1 {
        RawIsClean(s[2..], raw + [s[0], s[1]]);
      }
    } else {
      RawIsClean(s[1..], raw + [s[0]]);
    }
  }

  lemma RepeatIsWellFormed(s: string)
    requires ParseRepeat(s).Parsed?
    ensures WellFormed(ParseRepeat(s).value)
  {
    RawIsClean(TrimStart(TrimStart(s)[1..])[1..], "");
  }

  lemma {:induction false} ValueIsWellFormed(s: string)
    requires ParseValue(s).Parsed?
    ensures WellFormed(ParseValue(s).value)
    decreases |s|, 1
  {
    var t := TrimStart(s);
    if t[0] == '"' {
      RawIsClean(t[1..], "");
    } else if t[0] == '[' {
      var u := TrimStart(t[1..]);
      if !LooksAt(u, ']') {
        ElementsAreWellFormed(u, []);
      }
    } else if t[0] == '{' {
      var u := TrimStart(t[1..]);
      if !LooksAt(u, '}') {
        MembersAreWellFormed(u, []);
      }
    } else if IsAsciiAlphabetic(t[0]) && REPEAT <= t {
      RepeatIsWellFormed(t[|REPEAT|..]);
    }
  }

  lemma {:induction false} AppendWellFormedValue(values: seq<Literal>, value: Literal)
    requires WellFormedValues(values) && WellFormed(value)
    ensures WellFormedValues(values + [value])
  {
    if values != [] {
      AppendWellFormedValue(values[1..], value);
      assert (values + [value])[1..] == values[1..] + [value];
    }
  }

  lemma {:induction false} AppendWellFormedField(fields: seq<BodyField>, field: BodyField)
    requires WellFormedFields(fields) && IsIdentifier(field.name) && WellFormed(field.value)
    ensures WellFormedFields(fields + [field])
  {
    if fields != [] {
      AppendWellFormedField(fields[1..], field);
      assert (fields + [field])[1..] == fields[1..] + [field];
    }
  }

  lemma AppendDistinct(fields: seq<BodyField>, field: BodyField)
    requires DistinctNames(fields) && !HasField(fields, field.name)
    ensures DistinctNames(fields + [field])
  {
    forall i | 0 <= i < |fields| ensures fields[i].name != field.name {
      assert fields[i] in fields;
    }
  }

  lemma {:induction false} ElementsAreWellFormed(s: string, values: seq<Literal>)
    requires ParseElements(s, values).Parsed? && WellFormedValues(values)
    ensures WellFormed(ParseElements(s, values).value)
    decreases |s|, 2
  {
    var p := ParseValue(s);
    ValueIsWellFormed(s);
    AppendWellFormedValue(values, p.value);
    var t := TrimStart(p.rest);
    if !LooksAt(t, ']') {
      ElementsAreWellFormed(t[1..], values + [p.value]);
    }
  }

  lemma {:induction false} MembersAreWellFormed(s: string, fields: seq<BodyField>)
    requires ParseMembers(s, fields).Parsed? && WellFormedFields(fields) && DistinctNames(fields)
    ensures WellFormed(ParseMembers(s, fields).value)
    decreases |s|, 2
  {
    var k := ParseObjectKey(s);
    ValueIsWellFormed(TrimStart(k.rest)[1..]);
    var p := ParseMember(s);
    AppendWellFormedField(fields, p.value);
    AppendDistinct(fields, p.value);
    var t := TrimStart(p.rest);
    if !LooksAt(t, '}') {
      MembersAreWellFormed(t[1..], fields + [p.value]);
    }
  }

  /** At every depth of an accepted literal: identifier keys, distinct per object, and clean strings. */
  lemma ParsedIsWellFormed(s: string)
    requires ParseLiteral(s).Ok?
    ensures WellFormed(ParseLiteral(s).value)
  {
    ValueIsWellFormed(s);
  }

  // ---------------------------------------------------------------------------
  // Normalisation removes generators, keeps the printed value and well-formedness

  lemma ConsField(field: BodyField, tail: seq<BodyField>)
    ensures FieldsJson([field] + tail) == [J.Member(field.name, LiteralJson(field.value))] + FieldsJson(tail)
    ensures IsPlainFields([field] + tail) <==> IsPlain(field.value) && IsPlainFields(tail)
    ensures WellFormedFields([field] + tail)
      <==> IsIdentifier(field.name) && WellFormed(field.value) && WellFormedFields(tail)
  {
    assert ([field] + tail)[1..] == tail;
  }

  lemma GeneratorNames()
    ensures IsIdentifier("kind") && IsIdentifier("value") && IsIdentifier("count") && IsIdentifier(GENERATED)
    ensures "kind" != "value" && "kind" != "count" && "value" != "count"
  {
    assert "kind"[0] == 'k' && "value"[0] == 'v' && "count"[0] == 'c';
  }

  lemma GeneratorFields(value: string, count: I64)
    ensures var inner := RepeatObject(value, count).fields[0].value.fields;
      && FieldsJson(inner) == RepeatJson(value, count).members[0].value.members
      && IsPlainFields(inner)
      && (IsClean(value) ==> WellFormedFields(inner))
  {
    var k, v, c := BodyField("kind", String("repeat")), BodyField("value", String(value)),
      BodyField("count", Integer(count));
    var inner := RepeatObject(value, count).fields[0].value.fields;
    GeneratorNames();
    ConsField(c, []);
    ConsField(v, [c] + []);
    ConsField(k, [v] + ([c] + []));
    assert inner == [k] + ([v] + ([c] + []));
  }

  lemma RepeatNormalises(value: string, count: I64)
    ensures LiteralJson(RepeatObject(value, count)) == RepeatJson(value, count)
    ensures IsPlain(RepeatObject(value, count))
    ensures IsClean(value) ==> WellFormed(RepeatObject(value, count))
  {
    var outer := RepeatObject(value, count).fields;
    GeneratorFields(value, count);
    GeneratorNames();
    assert outer == [outer[0]] + [];
    ConsField(outer[0], []);
  }

  lemma {:induction false} NormaliseKeeps(l: Literal)
    ensures IsPlain(Normalise(l)) && LiteralJson(Normalise(l)) == LiteralJson(l)
    ensures WellFormed(l) ==> WellFormed(Normalise(l))
    decreases l, 0
  {
    match l
    case Object(fields) => NormaliseKeepsFields(fields);
    case Array(values) => NormaliseKeepsValues(values);
    case Repeat(value, count) => RepeatNormalises(value, count);
    case _ =>
  }

  lemma {:induction false} NormaliseKeepsFields(fields: seq<BodyField>)
    ensures IsPlainFields(NormaliseFields(fields)) && FieldsJson(NormaliseFields(fields)) == FieldsJson(fields)
    ensures WellFormedFields(fields) ==> WellFormedFields(NormaliseFields(fields))
    decreases fields, 1
  {
    if fields != [] {
      NormaliseKeeps(fields[0].value);
      NormaliseKeepsFields(fields[1..]);
      assert NormaliseFields(fields)[1..] == NormaliseFields(fields[1..]);
    }
  }

  lemma {:induction false} NormaliseKeepsValues(values: seq<Literal>)
    ensures IsPlainValues(NormaliseValues(values)) && ValuesJson(NormaliseValues(values)) == ValuesJson(values)
    ensures WellFormedValues(values) ==> WellFormedValues(NormaliseValues(values))
    decreases values, 1
  {
    if values != [] {
      NormaliseKeeps(values[0]);
      NormaliseKeepsValues(values[1..]);
      assert NormaliseValues(values)[1..] == NormaliseValues(values[1..]);
    }
  }

  lemma {:induction false} LiteralIsIntegral(l: Literal)
    ensures J.IsIntegral(LiteralJson(l))
    decreases l, 0
  {
    match l
    case Integer(n) => J.FormatIsIntegerLexeme(n);
    case Object(fields) => FieldsAreIntegral(fields);
    case Array(values) => ValuesAreIntegral(values);
    case Repeat(_, count) => J.FormatIsIntegerLexeme(count);
    case _ =>
  }

  lemma {:induction false} FieldsAreIntegral(fields: seq<BodyField>)
    ensures forall m <- FieldsJson(fields) :: J.IsIntegral(m.value)
    decreases fields, 1
  {
    if fields != [] {
      LiteralIsIntegral(fields[0].value);
      FieldsAreIntegral(fields[1..]);
    }
  }

  lemma {:induction false} ValuesAreIntegral(values: seq<Literal>)
    ensures forall item <- ValuesJson(values) :: J.IsIntegral(item)
    decreases values, 1
  {
    if values != [] {
      LiteralIsIntegral(values[0]);
      ValuesAreIntegral(values[1..]);
    }
  }

  // ---------------------------------------------------------------------------
  // Parsing printed text: strings and words

  lemma RawStep(c: char, tail: string, raw: string)
    ensures ParseRaw(EscapeChar(c) + tail, raw) == ParseRaw(tail, raw + EscapeChar(c))
  {
    var s := EscapeChar(c) + tail;
    if |EscapeChar(c)| == 2 {
      assert s[2..] == tail;
    } else if |EscapeChar(c)| == 1 {
      assert s[1..] == tail;
    } else {
      RawControl(EscapeChar(c), tail, raw);
    }
  }

  lemma RawControl(e: string, tail: string, raw: string)
    requires |e| == 6 && e[0] == '\\' && forall i | 2 <= i < 6 :: HexValue(e[i]).Some?
    ensures ParseRaw(e + tail, raw) == ParseRaw(tail, raw + e)
  {
    var s := e + tail;
    RawPlain(s[2..], raw + [s[0], s[1]], 4);
    assert s[2..][4..] == tail;
    assert raw + [s[0], s[1]] + s[2..][..4] == raw + e;
  }

  lemma {:induction false} RawPlain(s: string, raw: string, n: nat)
    requires n <= |s| && forall i | 0 <= i < n :: HexValue(s[i]).Some?
    ensures ParseRaw(s, raw) == ParseRaw(s[n..], raw + s[..n])
  {
    if n > 0 {
      RawPlain(s[1..], raw + [s[0]], n - 1);
      assert s[1..][n - 1..] == s[n..];
      assert raw + [s[0]] + s[1..][..n - 1] == raw + s[..n];
    } else {
      assert raw + s[..n] == raw;
    }
  }

  lemma {:induction false} RawOfPrinted(value: string, rest: string, raw: string)
    ensures ParseRaw(Escaped(value) + "\"" + rest, raw) == ParseRaw("\"" + rest, raw + Escaped(value))
  {
    if value == "" {
      assert Escaped(value) + "\"" + rest == "\"" + rest && raw + Escaped(value) == raw;
    } else {
      var tail := Escaped(value[1..]) + "\"" + rest;
      assert Escaped(value) + "\"" + rest == EscapeChar(value[0]) + tail;
      RawStep(value[0], tail, raw);
      RawOfPrinted(value[1..], rest, raw + EscapeChar(value[0]));
      assert raw + EscapeChar(value[0]) + Escaped(value[1..]) == raw + Escaped(value);
    }
  }

  lemma ParsePrintedString(value: string, rest: string)
    requires IsClean(value)
    ensures ParseString(Quoted(value) + rest) == Parsed(value, rest)
  {
    assert (Quoted(value) + rest)[1..] == Escaped(value) + "\"" + rest;
    RawOfPrinted(value, rest, "");
    assert "" + Escaped(value) == Escaped(value);
    assert ("\"" + rest)[1..] == rest;
    DecodePrinted(value);
  }

  lemma ParseWord(word: string, value: Literal, rest: string)
    requires word != "" && ScalarValue(word) == Some(value) && J.IsFollow(rest)
    requires forall c <- word :: !EndsScalar(c) && c != '"' && c != '[' && c != '{'
    requires !(REPEAT <= word + rest)
    ensures ParseValue(word + rest) == Parsed(value, rest)
  {
    var s := word + rest;
    assert s[0] == word[0];
    TakeUntilUnique(s, word, EndsScalar);
    assert s[|word|..] == rest;
  }

  lemma ParsePrintedInteger(n: I64, rest: string)
    requires J.IsFollow(rest)
    ensures ParseValue(FormatInt(n) + rest) == Parsed(Integer(n), rest)
  {
    var word := FormatInt(n);
    ParseFormat(n);
    assert "true"[0] == 't' && "false"[0] == 'f' && REPEAT[0] == 'r';
    ParseWord(word, Integer(n), rest);
  }

  lemma ParsePrintedBoolean(b: bool, rest: string)
    requires J.IsFollow(rest)
    ensures ParseValue((if b then "true" else "false") + rest) == Parsed(Boolean(b), rest)
  {
    assert REPEAT[0] == 'r';
    ParseWord(if b then "true" else "false", Boolean(b), rest);
  }

  // ---------------------------------------------------------------------------
  // Parsing printed text: arrays and objects

  lemma ElementsStep(s: string, values: seq<Literal>, value: Literal, tail: string)
    requires ParseValue(s) == Parsed(value, "," + tail)
    ensures ParseElements(s, values) == ParseElements(tail, values + [value])
  {
    assert ("," + tail)[1..] == tail;
  }

  lemma ElementsLast(s: string, values: seq<Literal>, value: Literal, rest: string)
    requires ParseValue(s) == Parsed(value, "]" + rest)
    ensures ParseElements(s, values) == Parsed(Array(values + [value]), rest)
  {
    assert ("]" + rest)[1..] == rest;
  }

  lemma MembersStep(s: string, fields: seq<BodyField>, field: BodyField, tail: string)
    requires ParseMember(s) == Parsed(field, "," + tail) && !HasField(fields, field.name)
    ensures ParseMembers(s, fields) == ParseMembers(tail, fields + [field])
  {
    assert ("," + tail)[1..] == tail;
  }

  lemma MembersLast(s: string, fields: seq<BodyField>, field: BodyField, rest: string)
    requires ParseMember(s) == Parsed(field, "}" + rest) && !HasField(fields, field.name)
    ensures ParseMembers(s, fields) == Parsed(Object(fields + [field]), rest)
  {
    assert ("}" + rest)[1..] == rest;
  }

  lemma ArrayText(values: seq<Literal>, inner: string, rest: string)
    requires if values == [] then inner == "" else
      inner != "" && J.IsValueHead(inner[0]) && !IsWhitespace(inner[0])
      && ParseElements(inner + "]" + rest, []) == Parsed(Array(values), rest)
    ensures ParseValue("[" + inner + "]" + rest) == Parsed(Array(values), rest)
  {
    var s := "[" + inner + "]" + rest;
    assert s[1..] == inner + "]" + rest;
    if values == [] {
      assert s[1..] == "]" + rest;
      assert s[1..][1..] == rest;
    }
  }

  lemma ObjectText(fields: seq<BodyField>, inner: string, rest: string)
    requires if fields == [] then inner == "" else
      inner != "" && inner[0] == '"' && ParseMembers(inner + "}" + rest, []) == Parsed(Object(fields), rest)
    ensures ParseValue("{" + inner + "}" + rest) == Parsed(Object(fields), rest)
  {
    hide ParseMembers, IsWhitespace;
    var s := "{" + inner + "}" + rest;
    var inside := inner + "}" + rest;
    assert s[1..] == inside;
    OpenBrace(s);
    if fields == [] {
      assert inside == "}" + rest && inside[1..] == rest;
      NotBlank('}');
    } else {
      NotBlank('"');
    }
  }

  lemma OpenBrace(s: string)
    requires s != "" && s[0] == '{'
    ensures ParseValue(s) == ParseObject(s)
  {
  }

  lemma NotBlank(c: char)
    requires c == '}' || c == '"'
    ensures !IsWhitespace(c)
  {
  }

  lemma KeyText(name: string, after: string)
    requires IsIdentifier(name)
    ensures ParseObjectKey(Quoted(name) + after) == Parsed(name, after)
  {
    assert name == [name[0]] + name[1..];
    ParsePrintedString(name, after);
  }

  lemma MemberText(name: string, value: Literal, text: string, rest: string)
    requires IsIdentifier(name) && ParseValue(text + rest) == Parsed(value, rest)
    ensures ParseMember(Quoted(name) + ":" + text + rest) == Parsed(BodyField(name, value), rest)
  {
    var after := ":" + (text + rest);
    KeyText(name, after);
    J.ReassociateField(Quoted(name), text, rest);
    assert after[1..] == text + rest;
  }

  lemma PrintedHead(l: Literal)
    ensures var s := J.Render(LiteralJson(l)); J.IsValueHead(s[0]) && !IsWhitespace(s[0])
  {
    LiteralIsIntegral(l);
    J.RenderHead(LiteralJson(l));
    if l.Integer? {
      ParseFormat(l.n);
    }
  }

  lemma PrintedValuesHead(values: seq<Literal>)
    requires values != []
    ensures var s := J.RenderItems(ValuesJson(values)); s != "" && J.IsValueHead(s[0]) && !IsWhitespace(s[0])
  {
    PrintedHead(values[0]);
  }

  lemma {:induction false} ParsePrinted(l: Literal, rest: string)
    requires IsPlain(l) && WellFormed(l) && J.IsFollow(rest)
    ensures ParseValue(J.Render(LiteralJson(l)) + rest) == Parsed(l, rest)
    decreases l, 0
  {
    match l
    case String(text) => ParsePrintedString(text, rest);
    case Integer(n) => ParsePrintedInteger(n, rest);
    case Boolean(b) => ParsePrintedBoolean(b, rest);
    case Array(values) =>
      if values != [] {
        PrintedValuesHead(values);
        ParsePrintedValues(values, [], rest);
        assert [] + values == values;
      }
      ArrayText(values, J.RenderItems(ValuesJson(values)), rest);
    case Object(fields) =>
      if fields != [] {
        ParsePrintedFields(fields, [], rest);
        assert [] + fields == fields;
        J.MembersHead(FieldsJson(fields));
      }
      ObjectText(fields, J.RenderMembers(FieldsJson(fields)), rest);
  }

  lemma PrintedValuesOne(value: Literal)
    ensures J.RenderItems(ValuesJson([value])) == J.Render(LiteralJson(value))
  {
    assert [value][1..] == [];
  }

  lemma PrintedValuesCons(values: seq<Literal>)
    requires |values| > 1
    ensures J.RenderItems(ValuesJson(values))
         == J.Render(LiteralJson(values[0])) + "," + J.RenderItems(ValuesJson(values[1..]))
  {
    assert ValuesJson(values)[1..] == ValuesJson(values[1..]);
  }

  lemma {:induction false} ParsePrintedValues(values: seq<Literal>, before: seq<Literal>, rest: string)
    requires values != [] && IsPlainValues(values) && WellFormedValues(values)
    ensures ParseElements(J.RenderItems(ValuesJson(values)) + "]" + rest, before)
      == Parsed(Array(before + values), rest)
    decreases values, 1
  {
    var value, tail := values[0], values[1..];
    assert values == [value] + tail;
    var text := J.Render(LiteralJson(value));
    if tail == [] {
      assert values == [value];
      PrintedValuesOne(value);
      ParsePrinted(value, "]" + rest);
      ElementsLast(text + ("]" + rest), before, value, rest);
      J.Reassociate(text, "]", rest);
    } else {
      var inner := J.RenderItems(ValuesJson(tail));
      var after := inner + "]" + rest;
      ParsePrintedValues(tail, before + [value], rest);
      ParsePrinted(value, "," + after);
      ElementsStep(text + ("," + after), before, value, after);
      J.ReassociateList(text, inner, "]", rest);
      PrintedValuesCons(values);
      assert before + [value] + tail == before + values;
    }
  }

  lemma {:induction false} ParsePrintedField(field: BodyField, rest: string)
    requires IsPlain(field.value) && WellFormed(field.value) && IsIdentifier(field.name) && J.IsFollow(rest)
    ensures ParseMember(J.RenderMember(J.Member(field.name, LiteralJson(field.value))) + rest) == Parsed(field, rest)
    decreases field, 1
  {
    ParsePrinted(field.value, rest);
    MemberText(field.name, field.value, J.Render(LiteralJson(field.value)), rest);
  }

  lemma {:induction false} ParsePrintedFields(fields: seq<BodyField>, before: seq<BodyField>, rest: string)
    requires fields != [] && IsPlainFields(fields) && WellFormedFields(fields)
    requires DistinctNames(before + fields)
    ensures ParseMembers(J.RenderMembers(FieldsJson(fields)) + "}" + rest, before)
      == Parsed(Object(before + fields), rest)
    decreases fields, 1
  {
    var field, tail := fields[0], fields[1..];
    var text := J.RenderMember(J.Member(field.name, LiteralJson(field.value)));
    assert !HasField(before, field.name) by {
      assert (before + fields)[|before|] == field;
      assert forall i | 0 <= i < |before| :: (before + fields)[i] == before[i];
    }
    if tail == [] {
      assert fields == [field];
      ParsePrintedField(field, "}" + rest);
      MembersLast(text + ("}" + rest), before, field, rest);
      J.Reassociate(text, "}", rest);
    } else {
      var inner := J.RenderMembers(FieldsJson(tail));
      var after := inner + "}" + rest;
      assert before + [field] + tail == before + fields;
      ParsePrintedFields(tail, before + [field], rest);
      ParsePrintedField(field, "," + after);
      MembersStep(text + ("," + after), before, field, after);
      J.ReassociateList(text, inner, "}", rest);
      assert FieldsJson(fields)[1..] == FieldsJson(tail);
    }
  }

  // ---------------------------------------------------------------------------
  // The round trips

  /** Printing any literal the parser can return and parsing the text gives the literal back, with
  each generator replaced by the object that stands for it. */
  lemma PrintThenParse(s: string)
    requires ParseLiteral(s).Ok?
    ensures ParseLiteral(J.Render(LiteralJson(ParseLiteral(s).value))) == Ok(Normalise(ParseLiteral(s).value))
  {
    var l := ParseLiteral(s).value;
    ParsedIsWellFormed(s);
    NormaliseKeeps(l);
    ParsePrinted(Normalise(l), "");
    var text := J.Render(LiteralJson(l));
    assert text + "" == text;
  }

  /** Two literals print the same text exactly when they have the same normal form. */
  lemma SameTextIffSameNormalForm(a: Literal, b: Literal)
    ensures J.Render(LiteralJson(a)) == J.Render(LiteralJson(b)) <==> Normalise(a) == Normalise(b)
  {
    NormaliseKeeps(a);
    NormaliseKeeps(b);
    LiteralIsIntegral(a);
    LiteralIsIntegral(b);
    if J.Render(LiteralJson(a)) == J.Render(LiteralJson(b)) {
      J.RenderInjective(LiteralJson(a), LiteralJson(b));
      PlainJsonInjective(Normalise(a), Normalise(b));
    }
  }

  lemma {:induction false} PlainJsonInjective(a: Literal, b: Literal)
    requires IsPlain(a) && IsPlain(b) && LiteralJson(a) == LiteralJson(b)
    ensures a == b
    decreases a, 0
  {
    match a
    case Integer(n) => FormatIntInjective(n, b.n);
    case Object(fields) => PlainFieldsInjective(fields, b.fields);
    case Array(values) => PlainValuesInjective(values, b.values);
    case _ =>
  }

  lemma {:induction false} PlainFieldsInjective(a: seq<BodyField>, b: seq<BodyField>)
    requires IsPlainFields(a) && IsPlainFields(b) && FieldsJson(a) == FieldsJson(b)
    ensures a == b
    decreases a, 1
  {
    assert |a| == |b|;
    if a != [] {
      assert FieldsJson(a)[0] == FieldsJson(b)[0] && FieldsJson(a)[1..] == FieldsJson(b)[1..];
      PlainJsonInjective(a[0].value, b[0].value);
      PlainFieldsInjective(a[1..], b[1..]);
      assert a == [a[0]] + a[1..] && b == [b[0]] + b[1..];
    }
  }

  lemma {:induction false} PlainValuesInjective(a: seq<Literal>, b: seq<Literal>)
    requires IsPlainValues(a) && IsPlainValues(b) && ValuesJson(a) == ValuesJson(b)
    ensures a == b
    decreases a, 1
  {
    assert |a| == |b|;
    if a != [] {
      assert ValuesJson(a)[0] == ValuesJson(b)[0] && ValuesJson(a)[1..] == ValuesJson(b)[1..];
      PlainJsonInjective(a[0], b[0]);
      PlainValuesInjective(a[1..], b[1..]);
      assert a == [a[0]] + a[1..] && b == [b[0]] + b[1..];
    }
  }

  // ---------------------------------------------------------------------------
  // The reserved field name

  /** No object field is called `generated`, at any depth: what the validator enforces. */
  predicate IsUnreserved(l: Literal) {
    match l
    case Object(fields) => IsUnreservedFields(fields)
    case Array(values) => IsUnreservedValues(values)
    case _ => true
  }

  predicate IsUnreservedFields(fields: seq<BodyField>) {
    fields == []
    || (fields[0].name != GENERATED && IsUnreserved(fields[0].value) && IsUnreservedFields(fields[1..]))
  }

  predicate IsUnreservedValues(values: seq<Literal>) {
    values == [] || (IsUnreserved(values[0]) && IsUnreservedValues(values[1..]))
  }

  lemma UnreservedIsNotGenerator(l: Literal)
    requires IsUnreserved(l)
    ensures l.Object? && l.fields != [] ==> Normalise(l).fields[0].name != GENERATED
  {
    if l.Object? && l.fields != [] {
      assert NormaliseFields(l.fields)[0].name == l.fields[0].name;
    }
  }

  /** With the reserved name kept out, normalisation loses nothing. */
  lemma {:induction false} NormaliseInjective(a: Literal, b: Literal)
    requires IsUnreserved(a) && IsUnreserved(b) && Normalise(a) == Normalise(b)
    ensures a == b
    decreases a, 0
  {
    UnreservedIsNotGenerator(a);
    UnreservedIsNotGenerator(b);
    match a
    case Object(fields) => NormaliseFieldsInjective(fields, b.fields);
    case Array(values) => NormaliseValuesInjective(values, b.values);
    case Repeat(value, count) =>
      var x := Normalise(a).fields[0].value.fields;
      var y := Normalise(b).fields[0].value.fields;
      assert x[1] == y[1] && x[2] == y[2];
    case _ =>
  }

  lemma {:induction false} NormaliseFieldsInjective(a: seq<BodyField>, b: seq<BodyField>)
    requires IsUnreservedFields(a) && IsUnreservedFields(b) && NormaliseFields(a) == NormaliseFields(b)
    ensures a == b
    decreases a, 1
  {
    assert |a| == |b|;
    if a != [] {
      assert NormaliseFields(a)[0] == NormaliseFields(b)[0] && NormaliseFields(a)[1..] == NormaliseFields(b)[1..];
      NormaliseInjective(a[0].value, b[0].value);
      NormaliseFieldsInjective(a[1..], b[1..]);
      assert a == [a[0]] + a[1..] && b == [b[0]] + b[1..];
    }
  }

  lemma {:induction false} NormaliseValuesInjective(a: seq<Literal>, b: seq<Literal>)
    requires IsUnreservedValues(a) && IsUnreservedValues(b) && NormaliseValues(a) == NormaliseValues(b)
    ensures a == b
    decreases a, 1
  {
    assert |a| == |b|;
    if a != [] {
      assert NormaliseValues(a)[0] == NormaliseValues(b)[0] && NormaliseValues(a)[1..] == NormaliseValues(b)[1..];
      NormaliseInjective(a[0], b[0]);
      NormaliseValuesInjective(a[1..], b[1..]);
      assert a == [a[0]] + a[1..] && b == [b[0]] + b[1..];
    }
  }

  /** Without the reservation the text is ambiguous: a generator and the object that spells it out. */
  lemma ReservedNameIsAmbiguous(value: string, count: I64)
    ensures RepeatObject(value, count) != Repeat(value, count)
    ensures J.Render(LiteralJson(RepeatObject(value, count))) == J.Render(LiteralJson(Repeat(value, count)))
  {
    RepeatNormalises(value, count);
  }
}
