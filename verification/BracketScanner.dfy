/** `body_value_is_complete`: the bracket scanner that decides when a multi-line literal has ended,
and its agreement with the literal parser. */
module BracketScanner {
  import opened Text
  import opened Ast
  import opened LiteralGrammar

  /** Where the scan of a text stands: it met a closer nobody expects, or it ran to the end. */
  datatype Scan = Unmatched | End(quoted: bool, escaped: bool, closers: seq<char>)

  function ScanFrom(s: string, quoted: bool, escaped: bool, closers: seq<char>): Scan {
    if s == "" then End(quoted, escaped, closers)
    else if quoted then
      if escaped then ScanFrom(s[1..], true, false, closers)
      else if s[0] == '\\' then ScanFrom(s[1..], true, true, closers)
      else ScanFrom(s[1..], s[0] != '"', false, closers)
    else if s[0] == '"' then ScanFrom(s[1..], true, escaped, closers)
    else if s[0] == '{' then ScanFrom(s[1..], false, escaped, closers + ['}'])
    else if s[0] == '[' then ScanFrom(s[1..], false, escaped, closers + [']'])
    else if s[0] == '}' || s[0] == ']' then
      if closers != [] && closers[|closers| - 1] == s[0]
      then ScanFrom(s[1..], false, escaped, closers[..|closers| - 1])
      else Unmatched
    else ScanFrom(s[1..], false, escaped, closers)
  }

  predicate Judges(scan: Scan) {
    match scan
    case Unmatched => true
    case End(quoted, _, closers) => quoted || closers == []
  }

  predicate IsComplete(value: string) { Judges(ScanFrom(value, false, false, [])) }

  method BodyValueIsComplete(value: string) returns (complete: bool)
    ensures complete == IsComplete(value)
  {
    var expectedClosers: seq<char> := [];
    var quoted, escaped := false, false;
    var i := 0;
    while i < |value|
      invariant 0 <= i <= |value|
      invariant IsComplete(value) == Judges(ScanFrom(value[i..], quoted, escaped, expectedClosers))
    {
      assert value[i..][1..] == value[i + 1..];
      var character := value[i];
      i := i + 1;
      if quoted {
        if escaped {
          escaped := false;
        } else if character == '\\' {
          escaped := true;
        } else if character == '"' {
          quoted := false;
        }
        continue;
      }
      if character == '"' {
        quoted := true;
        continue;
      }
      match character {
        case '{' => expectedClosers := expectedClosers + ['}'];
        case '[' => expectedClosers := expectedClosers + [']'];
        case '}' | ']' =>
          if expectedClosers != [] && expectedClosers[|expectedClosers| - 1] == character {
            expectedClosers := expectedClosers[..|expectedClosers| - 1];
          } else {
            return true;
          }
        case _ =>
      }
    }
    return quoted || expectedClosers == [];
  }

  // ---------------------------------------------------------------------------
  // Agreement with the parser

  /** A character the scanner passes over outside a string. */
  predicate IsNeutral(c: char) { c != '"' && c != '{' && c != '}' && c != '[' && c != ']' }

  lemma {:induction false} ScanNeutral(s: string, n: nat, closers: seq<char>)
    requires n <= |s| && forall c <- s[..n] :: IsNeutral(c)
    ensures ScanFrom(s, false, false, closers) == ScanFrom(s[n..], false, false, closers)
  {
    if n > 0 {
      assert s[0] in s[..n];
      assert s[1..][..n - 1] == s[..n][1..];
      assert s[1..][n - 1..] == s[n..];
      ScanNeutral(s[1..], n - 1, closers);
    }
  }

  lemma {:induction false} ScanWhitespace(s: string, closers: seq<char>)
    ensures ScanFrom(s, false, false, closers) == ScanFrom(TrimStart(s), false, false, closers)
  {
    if s != "" && IsWhitespace(s[0]) {
      ScanWhitespace(s[1..], closers);
    }
  }

  lemma {:induction false} ScanRaw(s: string, raw: string, closers: seq<char>)
    requires ParseRaw(s, raw).Parsed?
    ensures ScanFrom(s, true, false, closers) == ScanFrom(ParseRaw(s, raw).rest, false, false, closers)
    decreases |s|
  {
    if s[0] == '"' {
    } else if s[0] == '\\' {
      assert s[1..][1..] == s[2..];
      ScanRaw(s[2..], raw + [s[0], s[1]], closers);
    } else {
      ScanRaw(s[1..], raw + [s[0]], closers);
    }
  }

  /** An accepted number word has no quote and no bracket. */
  lemma NumberIsNeutral(word: string)
    requires ParseI64(word).Some?
    ensures forall c <- word :: IsNeutral(c)
  {
    if word[0] == '-' || word[0] == '+' {
      assert word == [word[0]] + word[1..];
    }
  }

  lemma ScanWord(s: string, word: string, closers: seq<char>)
    requires word <= s && (ScalarValue(word).Some? || ParseI64(word).Some? || IsIdentifier(word))
    ensures ScanFrom(s, false, false, closers) == ScanFrom(s[|word|..], false, false, closers)
  {
    if word != "true" && word != "false" {
      if ParseI64(word).Some? {
        NumberIsNeutral(word);
      } else {
        assert word == [word[0]] + word[1..];
      }
    }
    assert s[..|word|] == word;
    ScanNeutral(s, |word|, closers);
  }

  lemma ScanKey(s: string, closers: seq<char>)
    requires ParseObjectKey(s).Parsed?
    ensures ScanFrom(s, false, false, closers) == ScanFrom(ParseObjectKey(s).rest, false, false, closers)
  {
    ScanWhitespace(s, closers);
    var t := TrimStart(s);
    if LooksAt(t, '"') {
      ScanRaw(t[1..], "", closers);
    } else {
      ScanWord(t, TakeUntil(t, c => !IsNameChar(c)), closers);
    }
  }

  lemma ScanCloser(s: string, closers: seq<char>)
    requires s != "" && (s[0] == ']' || s[0] == '}')
    ensures ScanFrom(s, false, false, closers + [s[0]]) == ScanFrom(s[1..], false, false, closers)
  {
    var inner := closers + [s[0]];
    assert inner[..|inner| - 1] == closers;
  }

  lemma ScanConsume(s: string, c: char, closers: seq<char>)
    requires IsNeutral(c) && Consume(TrimStart(s), c).Parsed?
    ensures ScanFrom(s, false, false, closers)
         == ScanFrom(Consume(TrimStart(s), c).rest, false, false, closers)
  {
    ScanWhitespace(s, closers);
  }

  lemma ScanRepeat(s: string, closers: seq<char>)
    requires ParseRepeat(s).Parsed?
    ensures ScanFrom(s, false, false, closers) == ScanFrom(ParseRepeat(s).rest, false, false, closers)
  {
    ScanConsume(s, '(', closers);
    var s1 := TrimStart(s)[1..];
    ScanWhitespace(s1, closers);
    var s2 := TrimStart(s1);
    ScanRaw(s2[1..], "", closers);
    var s3 := ParseString(s2).rest;
    ScanConsume(s3, ',', closers);
    var s4 := TrimStart(s3)[1..];
    ScanWhitespace(s4, closers);
    ScanCount(TrimStart(s4), closers);
    ScanConsume(ParseRepeatCount(TrimStart(s4)).rest, ')', closers);
  }

  lemma ScanCount(s: string, closers: seq<char>)
    requires ParseRepeatCount(s).Parsed?
    ensures ScanFrom(s, false, false, closers) == ScanFrom(ParseRepeatCount(s).rest, false, false, closers)
  {
    ScanWord(s, TakeUntil(s, EndsCount), closers);
  }

  /** Over any accepted value the scanner returns to the bracket stack it started from. */
  lemma {:induction false} ScanValue(s: string, closers: seq<char>)
    requires ParseValue(s).Parsed?
    ensures ScanFrom(s, false, false, closers) == ScanFrom(ParseValue(s).rest, false, false, closers)
    decreases |s|, 1
  {
    hide TrimStart, IsWhitespace, ParseElements, ParseMembers, ParseRepeat;
    ScanWhitespace(s, closers);
    var t := TrimStart(s);
    if t[0] == '"' {
      ScanRaw(t[1..], "", closers);
    } else if t[0] == '[' {
      var inner := closers + [']'];
      ScanWhitespace(t[1..], inner);
      var u := TrimStart(t[1..]);
      if LooksAt(u, ']') {
        ScanCloser(u, closers);
      } else {
        ScanElements(u, [], closers);
      }
    } else if t[0] == '{' {
      var inner := closers + ['}'];
      ScanWhitespace(t[1..], inner);
      var u := TrimStart(t[1..]);
      if LooksAt(u, '}') {
        ScanCloser(u, closers);
      } else {
        ScanMembers(u, [], closers);
      }
    } else if IsAsciiAlphabetic(t[0]) && REPEAT <= t {
      assert t[..|REPEAT|] == REPEAT;
      ScanNeutral(t, |REPEAT|, closers);
      ScanRepeat(t[|REPEAT|..], closers);
    } else {
      ScanWord(t, TakeUntil(t, EndsScalar), closers);
    }
  }

  lemma {:induction false} ScanElements(s: string, values: seq<Literal>, closers: seq<char>)
    requires ParseElements(s, values).Parsed?
    ensures ScanFrom(s, false, false, closers + [']'])
         == ScanFrom(ParseElements(s, values).rest, false, false, closers)
    decreases |s|, 2
  {
    var inner := closers + [']'];
    ScanValue(s, inner);
    var p := ParseValue(s);
    ScanWhitespace(p.rest, inner);
    var t := TrimStart(p.rest);
    if LooksAt(t, ']') {
      ScanCloser(t, closers);
    } else {
      ScanElements(t[1..], values + [p.value], closers);
    }
  }

  lemma {:induction false} ScanMember(s: string, closers: seq<char>)
    requires ParseMember(s).Parsed?
    ensures ScanFrom(s, false, false, closers) == ScanFrom(ParseMember(s).rest, false, false, closers)
    decreases |s|, 2
  {
    ScanKey(s, closers);
    var k := ParseObjectKey(s).rest;
    ScanConsume(k, ':', closers);
    ScanValue(TrimStart(k)[1..], closers);
  }

  lemma {:induction false} ScanMembers(s: string, fields: seq<BodyField>, closers: seq<char>)
    requires ParseMembers(s, fields).Parsed?
    ensures ScanFrom(s, false, false, closers + ['}'])
         == ScanFrom(ParseMembers(s, fields).rest, false, false, closers)
    decreases |s|, 3
  {
    hide ParseMember, TrimStart, IsWhitespace;
    var inner := closers + ['}'];
    ScanMember(s, inner);
    var p := ParseMember(s);
    ScanWhitespace(p.rest, inner);
    var t := TrimStart(p.rest);
    if LooksAt(t, '}') {
      ScanCloser(t, closers);
    } else {
      ScanMembers(t[1..], fields + [p.value], closers);
    }
  }

  /** A literal the parser accepts leaves the scanner outside quotes with an empty stack. */
  lemma AcceptedLiteralScans(value: string, closers: seq<char>)
    requires ParseLiteral(value).Ok?
    ensures ScanFrom(value, false, false, closers) == End(false, false, closers)
  {
    ScanValue(value, closers);
    ScanWhitespace(ParseValue(value).rest, closers);
  }

  /** The scan of a text is the scan of its tail from where the head left off. */
  lemma {:induction false} ScanSplit(a: string, b: string, quoted: bool, escaped: bool, closers: seq<char>)
    ensures ScanFrom(a + b, quoted, escaped, closers) == match ScanFrom(a, quoted, escaped, closers)
      case Unmatched => Unmatched
      case End(q, e, c) => ScanFrom(b, q, e, c)
    decreases |a|
  {
    if a == "" {
      assert a + b == b;
    } else {
      assert (a + b)[1..] == a[1..] + b;
      if quoted {
        if escaped {
          ScanSplit(a[1..], b, true, false, closers);
        } else if a[0] == '\\' {
          ScanSplit(a[1..], b, true, true, closers);
        } else {
          ScanSplit(a[1..], b, a[0] != '"', false, closers);
        }
      } else if a[0] == '"' {
        ScanSplit(a[1..], b, true, escaped, closers);
      } else if a[0] == '{' {
        ScanSplit(a[1..], b, false, escaped, closers + ['}']);
      } else if a[0] == '[' {
        ScanSplit(a[1..], b, false, escaped, closers + [']']);
      } else if a[0] == '}' || a[0] == ']' {
        if closers != [] && closers[|closers| - 1] == a[0] {
          ScanSplit(a[1..], b, false, escaped, closers[..|closers| - 1]);
        }
      } else {
        ScanSplit(a[1..], b, false, escaped, closers);
      }
    }
  }
}
