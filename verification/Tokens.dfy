/** Literals as token sequences: what the parser accepts depends on the tokens of a text and not on
the whitespace between them. */
module Tokens {
  import opened Text
  import opened Ast
  import opened LiteralGrammar

  /** `Broken` is a quote that starts no acceptable string; nothing is read after it. */
  datatype Token = Mark(c: char) | Quote(value: string) | Word(text: string) | Broken

  predicate IsMark(c: char)
  {
    c == '{' || c == '}' || c == '[' || c == ']' || c == ':' || c == ',' || c == '(' || c == ')'
  }

  predicate EndsWord(c: char) { IsWhitespace(c) || IsMark(c) || c == '"' }

  function Lex(s: string): seq<Token>
    decreases |s|
  {
    if s == "" then []
    else if IsWhitespace(s[0]) then Lex(s[1..])
    else if IsMark(s[0]) then [Mark(s[0])] + Lex(s[1..])
    else if s[0] == '"' then LexQuote(s)
    else
      var word := TakeUntil(s, EndsWord);
      [Word(word)] + Lex(s[|word|..])
  }

  function LexQuote(s: string): seq<Token>
    requires s != "" && s[0] == '"'
    decreases |s|, 0
  {
    match ParseRaw(s[1..], "")
    case Parsed(value, rest) => [Quote(value)] + Lex(rest)
    case Failed(_) => [Broken]
  }

  // ---------------------------------------------------------------------------
  // The grammar over tokens

  datatype Read<+T> = Read(value: T, rest: seq<Token>) | Refused {
    predicate IsFailure() { Refused? }

    function PropagateFailure<U>(): Read<U>
      requires Refused?
    {
      Refused
    }

    function Extract(): (T, seq<Token>)
      requires Read?
    {
      (value, rest)
    }
  }

  predicate At(ts: seq<Token>, c: char) { ts != [] && ts[0] == Mark(c) }

  function Expect(ts: seq<Token>, c: char): (r: Read<()>)
    ensures r.Read? ==> |r.rest| < |ts|
  {
    if At(ts, c) then Read((), ts[1..]) else Refused
  }

  function ReadValue(ts: seq<Token>): (r: Read<Literal>)
    ensures r.Read? ==> |r.rest| < |ts|
    decreases |ts|, 1
  {
    if ts == [] then Refused
    else match ts[0]
      case Quote(value) => Read(String(value), ts[1..])
      case Mark('[') => if At(ts[1..], ']') then Read(Array([]), ts[2..]) else ReadElements(ts[1..], [])
      case Mark('{') => if At(ts[1..], '}') then Read(Object([]), ts[2..]) else ReadMembers(ts[1..], [])
      case Word(word) =>
        if word == REPEAT then ReadRepeat(ts[1..])
        else if ScalarValue(word).Some? then Read(ScalarValue(word).value, ts[1..])
        else Refused
      case _ => Refused
  }

  function ReadRepeat(ts: seq<Token>): (r: Read<Literal>)
    ensures r.Read? ==> |r.rest| < |ts|
  {
    if |ts| >= 5 && ts[0] == Mark('(') && ts[1].Quote? && ts[2] == Mark(',') && ts[3].Word? && ts[4] == Mark(')')
      && ParseI64(ts[3].text).Some?
    then Read(Repeat(ts[1].value, ParseI64(ts[3].text).value), ts[5..])
    else Refused
  }

  function ReadElements(ts: seq<Token>, values: seq<Literal>): (r: Read<Literal>)
    ensures r.Read? ==> |r.rest| < |ts|
    decreases |ts|, 2
  {
    var (value, ts) :- ReadValue(ts);
    if At(ts, ']') then Read(Array(values + [value]), ts[1..])
    else
      var (_, ts) :- Expect(ts, ',');
      ReadElements(ts, values + [value])
  }

  function ReadKey(ts: seq<Token>): (r: Read<string>)
    ensures r.Read? ==> |r.rest| < |ts|
  {
    if ts == [] then Refused
    else match ts[0]
      case Quote(key) => if IsIdentifier(key) then Read(key, ts[1..]) else Refused
      case Word(key) => if IsIdentifier(key) then Read(key, ts[1..]) else Refused
      case _ => Refused
  }

  function ReadMember(ts: seq<Token>): (r: Read<BodyField>)
    ensures r.Read? ==> |r.rest| < |ts|
    decreases |ts|, 2
  {
    var (name, ts) :- ReadKey(ts);
    var (_, ts) :- Expect(ts, ':');
    var (value, ts) :- ReadValue(ts);
    Read(BodyField(name, value), ts)
  }

  function ReadMembers(ts: seq<Token>, fields: seq<BodyField>): (r: Read<Literal>)
    ensures r.Read? ==> |r.rest| < |ts|
    decreases |ts|, 3
  {
    var (field, ts) :- ReadMember(ts);
    if HasField(fields, field.name) then Refused
    else
      var fields := fields + [field];
      if At(ts, '}') then Read(Object(fields), ts[1..])
      else
        var (_, ts) :- Expect(ts, ',');
        ReadMembers(ts, fields)
  }

  // ---------------------------------------------------------------------------
  // Lexing, one token at a time

  lemma {:induction false} LexSkips(s: string)
    ensures Lex(TrimStart(s)) == Lex(s)
  {
    if s != "" && IsWhitespace(s[0]) {
      LexSkips(s[1..]);
    }
  }

  lemma LexMark(s: string, c: char)
    requires IsMark(c)
    ensures LooksAt(TrimStart(s), c) ==> Lex(s) == [Mark(c)] + Lex(TrimStart(s)[1..])
    ensures At(Lex(s), c) <==> LooksAt(TrimStart(s), c)
  {
    LexSkips(s);
    var t := TrimStart(s);
    if t != "" && !IsMark(t[0]) && t[0] != '"' {
      assert Lex(t)[0].Word?;
    }
  }

  lemma LexString(s: string)
    requires LooksAt(s, '"') && ParseString(s).Parsed?
    ensures Lex(s) == [Quote(ParseString(s).value)] + Lex(ParseString(s).rest)
  {
  }

  lemma LexWord(s: string, word: string)
    requires word != "" && word <= s && forall c <- word :: !EndsWord(c)
    requires |word| < |s| ==> EndsWord(s[|word|])
    ensures Lex(s) == [Word(word)] + Lex(s[|word|..])
  {
    TakeUntilUnique(s, word, EndsWord);
    assert word[0] in word;
  }

  /** An accepted scalar, count or name is made of word characters. */
  lemma AcceptedWordIsWord(word: string)
    requires ScalarValue(word).Some? || ParseI64(word).Some? || IsIdentifier(word)
    ensures word != "" && forall c <- word :: !EndsWord(c)
  {
    if word == "true" || word == "false" {
    } else if ParseI64(word).Some? {
      if word[0] == '-' || word[0] == '+' {
        assert word == [word[0]] + word[1..];
      }
    } else {
      assert word == [word[0]] + word[1..];
    }
  }

  lemma ScalarStart(word: string)
    requires ScalarValue(word).Some?
    ensures word != "" && word[0] != 'r'
  {
    if word != "true" && word != "false" {
      assert word[0] in word;
    }
  }

  lemma StartsOtherwise(t: string)
    requires t != "" && t[0] != 'r'
    ensures !(REPEAT <= t)
  {
    assert REPEAT[0] == 'r';
  }

  // ---------------------------------------------------------------------------
  // What the parser reads from text, the grammar reads from its tokens

  lemma ScalarForward(s: string)
    requires ParseScalar(s).Parsed?
    ensures ReadValue(Lex(s)) == Read(ParseScalar(s).value, Lex(ParseScalar(s).rest))
  {
    var word := TakeUntil(s, EndsScalar);
    AcceptedWordIsWord(word);
    ScalarStart(word);
    LexWord(s, word);
  }

  lemma RepeatTokens(ts: seq<Token>, value: string, word: string, rest: seq<Token>)
    requires ts == [Mark('(')] + ([Quote(value)] + ([Mark(',')] + ([Word(word)] + ([Mark(')')] + rest))))
    requires ParseI64(word).Some?
    ensures ReadRepeat(ts) == Read(Repeat(value, ParseI64(word).value), rest)
  {
    assert ts[5..] == rest;
  }

  lemma CountForward(s: string)
    requires ParseRepeatCount(TrimStart(s)).Parsed?
    ensures Lex(s) == [Word(TakeUntil(TrimStart(s), EndsCount))] + Lex(ParseRepeatCount(TrimStart(s)).rest)
  {
    LexSkips(s);
    var t := TrimStart(s);
    var word := TakeUntil(t, EndsCount);
    AcceptedWordIsWord(word);
    LexWord(t, word);
  }

  lemma RepeatForward(s: string)
    requires ParseRepeat(s).Parsed?
    ensures ReadRepeat(Lex(s)) == Read(ParseRepeat(s).value, Lex(ParseRepeat(s).rest))
  {
    hide Lex, ReadRepeat, ParseString, TrimStart, TakeUntil, ParseI64;
    LexMark(s, '(');
    var s1 := TrimStart(s)[1..];
    LexSkips(s1);
    var s2 := TrimStart(s1);
    LexString(s2);
    var s3 := ParseString(s2).rest;
    LexMark(s3, ',');
    var s4 := TrimStart(s3)[1..];
    CountForward(s4);
    var s5 := TrimStart(s4);
    var s6 := ParseRepeatCount(s5).rest;
    LexMark(s6, ')');
    RepeatTokens(Lex(s), ParseString(s2).value, TakeUntil(s5, EndsCount), Lex(TrimStart(s6)[1..]));
  }

  lemma RepeatIsWord()
    ensures forall c <- REPEAT :: !EndsWord(c)
  {
  }

  lemma KeywordForward(s: string)
    requires REPEAT <= s && ParseRepeat(s[|REPEAT|..]).Parsed?
    ensures Lex(s) == [Word(REPEAT)] + Lex(s[|REPEAT|..])
  {
    var rest := s[|REPEAT|..];
    assert rest[0] == '(' || IsWhitespace(rest[0]);
    RepeatIsWord();
    hide Lex;
    LexWord(s, REPEAT);
  }

  predicate ElementsAgree(u: string) {
    LooksAt(u, ']') || (ParseElements(u, []).Parsed?
      && ReadElements(Lex(u), []) == Read(ParseElements(u, []).value, Lex(ParseElements(u, []).rest)))
  }

  predicate MembersAgree(u: string) {
    LooksAt(u, '}') || (ParseMembers(u, []).Parsed?
      && ReadMembers(Lex(u), []) == Read(ParseMembers(u, []).value, Lex(ParseMembers(u, []).rest)))
  }

  lemma ArrayForward(t: string)
    requires LooksAt(t, '[') && ParseArray(t).Parsed?
    requires ElementsAgree(TrimStart(t[1..]))
    ensures ReadValue(Lex(t)) == Read(ParseArray(t).value, Lex(ParseArray(t).rest))
  {
    hide ParseElements, ReadElements;
    LexMark(t[1..], ']');
    LexSkips(t[1..]);
  }

  lemma ObjectForward(t: string)
    requires LooksAt(t, '{') && ParseObject(t).Parsed?
    requires MembersAgree(TrimStart(t[1..]))
    ensures ReadValue(Lex(t)) == Read(ParseObject(t).value, Lex(ParseObject(t).rest))
  {
    hide ParseMembers, ReadMembers;
    LexMark(t[1..], '}');
    LexSkips(t[1..]);
  }

  lemma StringForward(t: string)
    requires LooksAt(t, '"') && ParseString(t).Parsed?
    ensures ReadValue(Lex(t)) == Read(String(ParseString(t).value), Lex(ParseString(t).rest))
  {
    LexString(t);
  }

  lemma GeneratorForward(t: string)
    requires REPEAT <= t && ParseRepeat(t[|REPEAT|..]).Parsed?
    ensures ReadValue(Lex(t)) == Read(ParseRepeat(t[|REPEAT|..]).value, Lex(ParseRepeat(t[|REPEAT|..]).rest))
  {
    KeywordForward(t);
    hide Lex, ParseRepeat;
    RepeatForward(t[|REPEAT|..]);
  }

  lemma {:induction false} ValueForward(s: string)
    requires ParseValue(s).Parsed?
    ensures ReadValue(Lex(s)) == Read(ParseValue(s).value, Lex(ParseValue(s).rest))
    decreases |s|, 1
  {
    hide ParseString, ParseRepeat, ReadRepeat, ParseScalar, ReadValue, Lex;
    LexSkips(s);
    var t := TrimStart(s);
    if t[0] == '"' {
      StringForward(t);
    } else if t[0] == '[' {
      if !LooksAt(TrimStart(t[1..]), ']') {
        ElementsForward(TrimStart(t[1..]), []);
      }
      ArrayForward(t);
    } else if t[0] == '{' {
      if !LooksAt(TrimStart(t[1..]), '}') {
        MembersForward(TrimStart(t[1..]), []);
      }
      ObjectForward(t);
    } else if IsAsciiAlphabetic(t[0]) && REPEAT <= t {
      GeneratorForward(t);
    } else {
      ScalarForward(t);
    }
  }

  lemma {:induction false} ElementsForward(s: string, values: seq<Literal>)
    requires ParseElements(s, values).Parsed?
    ensures ReadElements(Lex(s), values) == Read(ParseElements(s, values).value, Lex(ParseElements(s, values).rest))
    decreases |s|, 2
  {
    ValueForward(s);
    var p := ParseValue(s);
    LexMark(p.rest, ']');
    LexMark(p.rest, ',');
    var t := TrimStart(p.rest);
    if !LooksAt(t, ']') {
      ElementsForward(t[1..], values + [p.value]);
    }
  }

  lemma KeyForward(s: string)
    requires ParseObjectKey(s).Parsed? && LooksAt(TrimStart(ParseObjectKey(s).rest), ':')
    ensures ReadKey(Lex(s)) == Read(ParseObjectKey(s).value, Lex(ParseObjectKey(s).rest))
  {
    LexSkips(s);
    var t := TrimStart(s);
    if LooksAt(t, '"') {
      LexString(t);
    } else {
      var key := TakeUntil(t, c => !IsNameChar(c));
      var rest := t[|key|..];
      assert rest[0] == ':' || IsWhitespace(rest[0]);
      AcceptedWordIsWord(key);
      LexWord(t, key);
    }
  }

  lemma {:induction false} MemberForward(s: string)
    requires ParseMember(s).Parsed?
    ensures ReadMember(Lex(s)) == Read(ParseMember(s).value, Lex(ParseMember(s).rest))
    decreases |s|, 2
  {
    KeyForward(s);
    var k := ParseObjectKey(s).rest;
    LexMark(k, ':');
    ValueForward(TrimStart(k)[1..]);
  }

  lemma {:induction false} MembersForward(s: string, fields: seq<BodyField>)
    requires ParseMembers(s, fields).Parsed?
    ensures ReadMembers(Lex(s), fields) == Read(ParseMembers(s, fields).value, Lex(ParseMembers(s, fields).rest))
    decreases |s|, 3
  {
    MemberForward(s);
    var p := ParseMember(s);
    LexMark(p.rest, '}');
    LexMark(p.rest, ',');
    var t := TrimStart(p.rest);
    if !LooksAt(t, '}') {
      MembersForward(t[1..], fields + [p.value]);
    }
  }

  // ---------------------------------------------------------------------------
  // And the other way round, where a closer, a comma or the end follows

  predicate Follows(ts: seq<Token>) { ts == [] || At(ts, ',') || At(ts, ']') || At(ts, '}') }

  /** The first token of a text that starts with neither whitespace, mark nor quote. */
  lemma WordBack(s: string)
    requires Lex(s) != [] && Lex(s)[0].Word?
    ensures var t := TrimStart(s); var word := Lex(s)[0].text;
      && word != "" && word <= t && Lex(s) == [Word(word)] + Lex(t[|word|..])
      && (forall c <- word :: !EndsWord(c)) && (|word| < |t| ==> EndsWord(t[|word|]))
  {
    LexSkips(s);
    var t := TrimStart(s);
    assert !IsMark(t[0]) && t[0] != '"';
  }

  lemma QuoteBack(s: string)
    requires Lex(s) != [] && Lex(s)[0].Quote?
    ensures var t := TrimStart(s);
      && LooksAt(t, '"') && ParseString(t).Parsed? && ParseString(t).value == Lex(s)[0].value
      && Lex(s)[1..] == Lex(ParseString(t).rest)
  {
    LexSkips(s);
    var t := TrimStart(s);
    assert !IsMark(t[0]);
  }

  lemma NextAfterWord(rest: string, ts: seq<Token>)
    requires rest != "" && EndsWord(rest[0]) && Lex(rest) == ts && Follows(ts)
    ensures EndsScalar(rest[0])
  {
    if IsMark(rest[0]) {
      assert ts[0] == Mark(rest[0]);
    }
  }

  lemma ScalarBack(s: string)
    requires Lex(s) != [] && Lex(s)[0].Word? && ScalarValue(Lex(s)[0].text).Some? && Follows(Lex(s)[1..])
    ensures var t := TrimStart(s); var p := ParseScalar(t);
      p.Parsed? && Some(p.value) == ScalarValue(Lex(s)[0].text) && Lex(p.rest) == Lex(s)[1..]
    ensures ParseValue(s) == ParseScalar(TrimStart(s))
  {
    WordBack(s);
    var t := TrimStart(s);
    var word := Lex(s)[0].text;
    if |word| < |t| {
      NextAfterWord(t[|word|..], Lex(s)[1..]);
    }
    TakeUntilUnique(t, word, EndsScalar);
    ScalarStart(word);
    assert t[0] == word[0] && word[0] in word;
    StartsOtherwise(t);
  }

  lemma RepeatBack(s: string)
    requires ReadRepeat(Lex(s)).Read?
    ensures ParseRepeat(s).Parsed? && ReadRepeat(Lex(s)) == Read(ParseRepeat(s).value, Lex(ParseRepeat(s).rest))
  {
    var ts := Lex(s);
    hide Lex, TrimStart, ParseString, ParseI64, ParseRepeatCount;
    LexMark(s, '(');
    var s1 := TrimStart(s)[1..];
    assert Lex(s1) == ts[1..];
    QuoteBack(s1);
    var s3 := ParseString(TrimStart(s1)).rest;
    assert Lex(s3) == ts[2..];
    LexMark(s3, ',');
    var s4 := TrimStart(s3)[1..];
    assert Lex(s4) == ts[3..];
    CountBack(s4);
    var s6 := ParseRepeatCount(TrimStart(s4)).rest;
    assert Lex(s6) == ts[4..];
    LexMark(s6, ')');
    assert Lex(TrimStart(s6)[1..]) == ts[5..];
  }

  lemma CountBack(s: string)
    requires |Lex(s)| >= 2 && Lex(s)[0].Word? && ParseI64(Lex(s)[0].text).Some? && Lex(s)[1] == Mark(')')
    ensures var p := ParseRepeatCount(TrimStart(s));
      p.Parsed? && Some(p.value) == ParseI64(Lex(s)[0].text) && Lex(p.rest) == Lex(s)[1..]
  {
    WordBack(s);
    var t := TrimStart(s);
    var word := Lex(s)[0].text;
    var rest := t[|word|..];
    assert Lex(rest)[0] == Mark(')');
    assert rest != "" && IsMark(rest[0]) ==> Lex(rest)[0] == Mark(rest[0]);
    TakeUntilUnique(t, word, EndsCount);
  }

  lemma KeywordBack(s: string)
    requires Lex(s) != [] && Lex(s)[0] == Word(REPEAT)
    ensures var t := TrimStart(s);
      REPEAT <= t && Lex(t[|REPEAT|..]) == Lex(s)[1..] && ParseValue(s) == ParseRepeat(t[|REPEAT|..])
  {
    WordBack(s);
    var t := TrimStart(s);
    assert t[0] == REPEAT[0];
  }

  lemma {:induction false} ValueBack(s: string)
    requires ReadValue(Lex(s)).Read? && Follows(ReadValue(Lex(s)).rest)
    ensures ParseValue(s).Parsed? && ReadValue(Lex(s)) == Read(ParseValue(s).value, Lex(ParseValue(s).rest))
    decreases |s|, 1
  {
    LexSkips(s);
    var ts := Lex(s);
    var t := TrimStart(s);
    match ts[0]
    case Quote(_) => QuoteBack(s);
    case Mark(c) =>
      LexMark(s, c);
      LexSkips(t[1..]);
      if c == '[' {
        LexMark(t[1..], ']');
        if !At(ts[1..], ']') {
          ElementsBack(TrimStart(t[1..]), []);
        }
      } else {
        LexMark(t[1..], '}');
        if !At(ts[1..], '}') {
          MembersBack(TrimStart(t[1..]), []);
        }
      }
    case Word(word) =>
      if word == REPEAT {
        KeywordBack(s);
        RepeatBack(t[|REPEAT|..]);
      } else {
        ScalarBack(s);
      }
  }

  lemma {:induction false} ElementsBack(s: string, values: seq<Literal>)
    requires ReadElements(Lex(s), values).Read?
    ensures ParseElements(s, values).Parsed?
    ensures ReadElements(Lex(s), values) == Read(ParseElements(s, values).value, Lex(ParseElements(s, values).rest))
    decreases |s|, 2
  {
    ValueBack(s);
    var p := ParseValue(s);
    LexMark(p.rest, ']');
    LexMark(p.rest, ',');
    if !At(Lex(p.rest), ']') {
      ElementsBack(TrimStart(p.rest)[1..], values + [p.value]);
    }
  }

  lemma KeyBack(s: string)
    requires ReadKey(Lex(s)).Read? && At(ReadKey(Lex(s)).rest, ':')
    ensures ParseObjectKey(s).Parsed? && ReadKey(Lex(s)) == Read(ParseObjectKey(s).value, Lex(ParseObjectKey(s).rest))
  {
    if Lex(s)[0].Quote? {
      QuoteBack(s);
    } else {
      WordBack(s);
      var t := TrimStart(s);
      var key := Lex(s)[0].text;
      assert key == [key[0]] + key[1..];
      assert key[0] in key && t[0] == key[0];
      TakeUntilUnique(t, key, c => !IsNameChar(c));
    }
  }

  lemma {:induction false} MemberBack(s: string)
    requires ReadMember(Lex(s)).Read? && Follows(ReadMember(Lex(s)).rest)
    ensures ParseMember(s).Parsed? && ReadMember(Lex(s)) == Read(ParseMember(s).value, Lex(ParseMember(s).rest))
    decreases |s|, 2
  {
    KeyBack(s);
    var k := ParseObjectKey(s).rest;
    LexMark(k, ':');
    ValueBack(TrimStart(k)[1..]);
  }

  lemma {:induction false} MembersBack(s: string, fields: seq<BodyField>)
    requires ReadMembers(Lex(s), fields).Read?
    ensures ParseMembers(s, fields).Parsed?
    ensures ReadMembers(Lex(s), fields) == Read(ParseMembers(s, fields).value, Lex(ParseMembers(s, fields).rest))
    decreases |s|, 3
  {
    MemberBack(s);
    var p := ParseMember(s);
    LexMark(p.rest, '}');
    LexMark(p.rest, ',');
    if !At(Lex(p.rest), '}') {
      MembersBack(TrimStart(p.rest)[1..], fields + [p.value]);
    }
  }

  // ---------------------------------------------------------------------------
  // The tokens of a literal

  /** A token that can stand in a literal. */
  predicate IsUsable(t: Token) {
    !t.Broken? && (t.Word? ==> ScalarValue(t.text).Some? || ParseI64(t.text).Some? || IsIdentifier(t.text))
  }

  /** What is used up of `ts`, down to `rest`, is usable. */
  predicate Uses(ts: seq<Token>, rest: seq<Token>) { forall t <- ts :: IsUsable(t) || t in rest }

  lemma UsesOne(ts: seq<Token>, rest: seq<Token>)
    requires ts != [] && IsUsable(ts[0]) && Uses(ts[1..], rest)
    ensures Uses(ts, rest)
  {
    assert ts == [ts[0]] + ts[1..];
  }

  lemma UsesMore(ts: seq<Token>, middle: seq<Token>, rest: seq<Token>)
    requires Uses(ts, middle) && Uses(middle, rest)
    ensures Uses(ts, rest)
  {
  }

  lemma RepeatUses(ts: seq<Token>)
    requires ReadRepeat(ts).Read?
    ensures Uses(ts, ReadRepeat(ts).rest)
  {
    hide ParseI64, ScalarValue, IsIdentifier;
    assert ts == [ts[0], ts[1], ts[2], ts[3], ts[4]] + ts[5..];
  }

  lemma {:induction false} ValueUses(ts: seq<Token>)
    requires ReadValue(ts).Read?
    ensures Uses(ts, ReadValue(ts).rest)
    decreases |ts|, 1
  {
    hide ParseI64, ScalarValue, IsIdentifier, ReadRepeat;
    var rest := ReadValue(ts).rest;
    match ts[0]
    case Quote(_) =>
      UsesOne(ts, rest);
    case Mark(c) =>
      var t := ts[1..];
      if c == '[' {
        if At(t, ']') {
          UsesOne(t, rest);
        } else {
          ElementsUse(t, []);
        }
      } else {
        if At(t, '}') {
          UsesOne(t, rest);
        } else {
          MembersUse(t, []);
        }
      }
      UsesOne(ts, rest);
    case Word(word) =>
      if word == REPEAT {
        RepeatUses(ts[1..]);
        RepeatIsName();
      }
      UsesOne(ts, rest);
  }

  lemma RepeatIsName()
    ensures IsIdentifier(REPEAT)
  {
  }

  lemma {:induction false} ElementsUse(ts: seq<Token>, values: seq<Literal>)
    requires ReadElements(ts, values).Read?
    ensures Uses(ts, ReadElements(ts, values).rest)
    decreases |ts|, 2
  {
    hide IsUsable;
    ValueUses(ts);
    var p := ReadValue(ts);
    var rest := ReadElements(ts, values).rest;
    if !At(p.rest, ']') {
      ElementsUse(p.rest[1..], values + [p.value]);
    }
    UsesMark(p.rest, rest);
    UsesMore(ts, p.rest, rest);
  }

  lemma UsesMark(ts: seq<Token>, rest: seq<Token>)
    requires ts != [] && ts[0].Mark? && Uses(ts[1..], rest)
    ensures Uses(ts, rest)
  {
    UsesOne(ts, rest);
  }

  lemma {:induction false} MemberUses(ts: seq<Token>)
    requires ReadMember(ts).Read?
    ensures Uses(ts, ReadMember(ts).rest)
    decreases |ts|, 2
  {
    hide ParseI64, ScalarValue, IsIdentifier;
    var rest := ReadMember(ts).rest;
    ValueUses(ts[2..]);
    assert ts[2..] == ts[1..][1..];
    UsesMark(ts[1..], rest);
    UsesOne(ts, rest);
  }

  lemma {:induction false} MembersUse(ts: seq<Token>, fields: seq<BodyField>)
    requires ReadMembers(ts, fields).Read?
    ensures Uses(ts, ReadMembers(ts, fields).rest)
    decreases |ts|, 3
  {
    hide IsUsable;
    MemberUses(ts);
    var p := ReadMember(ts);
    var rest := ReadMembers(ts, fields).rest;
    if !At(p.rest, '}') {
      MembersUse(p.rest[1..], fields + [p.value]);
    }
    UsesMark(p.rest, rest);
    UsesMore(ts, p.rest, rest);
  }

  // ---------------------------------------------------------------------------
  // The parser and the token grammar accept the same literals

  lemma NoTokens(s: string)
    ensures Lex(s) == [] <==> TrimStart(s) == ""
  {
    LexSkips(s);
  }

  /** A text is accepted with some value exactly when its tokens are. */
  lemma AcceptanceIsByTokens(s: string, value: Literal)
    ensures ParseLiteral(s) == Ok(value) <==> ReadValue(Lex(s)) == Read(value, [])
  {
    if ParseLiteral(s) == Ok(value) {
      ValueForward(s);
      NoTokens(ParseValue(s).rest);
    }
    if ReadValue(Lex(s)) == Read(value, []) {
      ValueBack(s);
      NoTokens(ParseValue(s).rest);
    }
  }

  /** Whitespace between tokens, line breaks included, never matters. */
  lemma SameTokensSameLiteral(a: string, b: string, value: Literal)
    requires Lex(a) == Lex(b)
    ensures ParseLiteral(a) == Ok(value) <==> ParseLiteral(b) == Ok(value)
  {
    AcceptanceIsByTokens(a, value);
    AcceptanceIsByTokens(b, value);
  }

  /** Every token of an accepted literal is usable. */
  lemma AcceptedTokens(s: string)
    requires ParseLiteral(s).Ok?
    ensures forall t <- Lex(s) :: IsUsable(t)
  {
    hide IsUsable;
    AcceptanceIsByTokens(s, ParseLiteral(s).value);
    ValueUses(Lex(s));
  }
}
