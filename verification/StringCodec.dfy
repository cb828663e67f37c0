/** Quoted strings: the printer's escaping, the parser's decoding and the RFC 8259 reading of them. */
module StringCodec {
  import opened Text
  import opened Ast

  const BACKSPACE: char := '\U{8}'
  const FORM_FEED: char := '\U{C}'

  /** The five control characters that have a one-letter escape. */
  predicate HasShortEscape(c: char) {
    c == BACKSPACE || c == FORM_FEED || c == '\n' || c == '\r' || c == '\t'
  }

  /** No control character other than those five. */
  predicate IsClean(value: string) {
    forall c <- value :: IsControl(c) ==> HasShortEscape(c)
  }

  // ---------------------------------------------------------------------------
  // Printing (`write_json_string`, `hex_digit`)

  function HexDigit(value: nat): (c: char)
    requires value < 16
    ensures HexValue(c) == Some(value) && !IsControl(c)
  {
    if value < 10 then '0' + value as char else 'a' + (value - 10) as char
  }

  function EscapeChar(c: char): (e: string)
    ensures e != "" && forall x <- e :: !IsControl(x)
  {
    if c == '"' then "\\\""
    else if c == '\\' then "\\\\"
    else if c == BACKSPACE then "\\b"
    else if c == FORM_FEED then "\\f"
    else if c == '\n' then "\\n"
    else if c == '\r' then "\\r"
    else if c == '\t' then "\\t"
    else if IsControl(c) then
      var code := c as int;
      ['\\', 'u', HexDigit(code / 0x1000 % 16), HexDigit(code / 0x100 % 16), HexDigit(code / 0x10 % 16),
        HexDigit(code % 16)]
    else [c]
  }

  function Escaped(value: string): (e: string)
    ensures forall x <- e :: !IsControl(x)
  {
    if value == "" then "" else EscapeChar(value[0]) + Escaped(value[1..])
  }

  function Quoted(value: string): string { "\"" + Escaped(value) + "\"" }

  // ---------------------------------------------------------------------------
  // Decoding (`decode_quoted_content`, `parse_quoted`)

  function EscapeMeaning(letter: char): Option<char> {
    match letter
    case '"' => Some('"')
    case '\\' => Some('\\')
    case 'b' => Some(BACKSPACE)
    case 'f' => Some(FORM_FEED)
    case 'n' => Some('\n')
    case 'r' => Some('\r')
    case 't' => Some('\t')
    case _ => None
  }

  function Decode(value: string): Result<string, ErrorKind> {
    if value == "" then Ok("")
    else if value[0] == '"' then Err(UnescapedQuote)
    else if value[0] == '\\' then
      if |value| == 1 then Err(IncompleteEscape)
      else match EscapeMeaning(value[1])
        case None => Err(UnsupportedEscape(value[1]))
        case Some(c) => var tail :- Decode(value[2..]); Ok([c] + tail)
    else if IsControl(value[0]) then Err(ControlCharacter)
    else var tail :- Decode(value[1..]); Ok([value[0]] + tail)
  }

  /** A decoded prefix in front of the decoding of what follows. */
  function Prepend(decoded: string, tail: Result<string, ErrorKind>): Result<string, ErrorKind> {
    match tail
    case Ok(t) => Ok(decoded + t)
    case Err(e) => Err(e)
  }

  lemma PrependAssociates(decoded: string, c: char, tail: Result<string, ErrorKind>)
    ensures Prepend(decoded, Prepend([c], tail)) == Prepend(decoded + [c], tail)
  {
    if tail.Ok? {
      assert decoded + ([c] + tail.value) == decoded + [c] + tail.value;
    }
  }

  method DecodeQuotedContent(value: string) returns (r: Result<string, ErrorKind>)
    ensures r == Decode(value)
  {
    var decoded := "";
    var i := 0;
    assert value[0..] == value && forall t: string :: "" + t == t;
    while i < |value|
      invariant 0 <= i <= |value|
      invariant Decode(value) == Prepend(decoded, Decode(value[i..]))
    {
      ghost var remaining := value[i..];
      assert remaining[1..] == value[i + 1..];
      assert i + 1 < |value| ==> remaining[2..] == value[i + 2..];
      var character := value[i];
      i := i + 1;
      if character == '"' {
        return Err(UnescapedQuote);
      }
      if character == '\\' {
        if i == |value| {
          return Err(IncompleteEscape);
        }
        var escaped := value[i];
        i := i + 1;
        match EscapeMeaning(escaped)
        case None => return Err(UnsupportedEscape(escaped));
        case Some(c) =>
          PrependAssociates(decoded, c, Decode(value[i..]));
          decoded := decoded + [c];
      } else {
        if IsControl(character) {
          return Err(ControlCharacter);
        }
        PrependAssociates(decoded, character, Decode(value[i..]));
        decoded := decoded + [character];
      }
    }
    assert decoded + "" == decoded;
    return Ok(decoded);
  }

  predicate IsQuoted(v: string) { |v| >= 2 && v[0] == '"' && v[|v| - 1] == '"' }

  function ParseQuoted(value: string): Result<string, ErrorKind> {
    var v := Trim(value);
    if !IsQuoted(v) then Err(NotQuoted) else Decode(v[1..|v| - 1])
  }

  // ---------------------------------------------------------------------------
  // Reading (section 7 of RFC 8259), on the text after the opening quote

  function HexValue(c: char): Option<nat> {
    if '0' <= c <= '9' then Some(c as int - '0' as int)
    else if 'a' <= c <= 'f' then Some(c as int - 'a' as int + 10)
    else if 'A' <= c <= 'F' then Some(c as int - 'A' as int + 10)
    else None
  }

  /** The code unit of a `\uXXXX` escape at the head of the text. */
  function CodeUnit(s: string): (r: Option<nat>)
    ensures r.Some? ==> |s| >= 6 && r.value <= 0xFFFF
  {
    if |s| < 6 || s[0] != '\\' || s[1] != 'u' then None
    else match (HexValue(s[2]), HexValue(s[3]), HexValue(s[4]), HexValue(s[5]))
      case (Some(a), Some(b), Some(c), Some(d)) =>
        if a < 16 && b < 16 && c < 16 && d < 16 then Some(0x1000 * a + 0x100 * b + 0x10 * c + d) else None
      case _ => None
  }

  /** One character, escaped or not, and the text after it. A surrogate stands only in a pair. */
  function ReadChar(s: string): (r: Option<(char, string)>)
    ensures r.Some? ==> |r.value.1| < |s|
  {
    if s == "" || s[0] == '"' || s[0] < ' ' then None
    else if s[0] != '\\' then Some((s[0], s[1..]))
    else if |s| == 1 then None
    else if s[1] == 'u' then
      match CodeUnit(s)
      case None => None
      case Some(high) =>
        if 0xD800 <= high < 0xDC00 then
          match CodeUnit(s[6..])
          case Some(low) =>
            if 0xDC00 <= low < 0xE000 then
              Some(((0x10000 + 0x400 * (high - 0xD800) + (low - 0xDC00)) as char, s[12..]))
            else None
          case None => None
        else if 0xDC00 <= high < 0xE000 then None
        else Some((high as char, s[6..]))
    else if s[1] == '/' then Some(('/', s[2..]))
    else match EscapeMeaning(s[1])
      case None => None
      case Some(c) => Some((c, s[2..]))
  }

  function ReadString(s: string): (r: Option<(string, string)>)
    ensures r.Some? ==> |r.value.1| < |s|
  {
    if s != "" && s[0] == '"' then Some(("", s[1..]))
    else match ReadChar(s)
      case None => None
      case Some((c, after)) =>
        match ReadString(after)
        case None => None
        case Some((tail, rest)) => Some(([c] + tail, rest))
  }

  // ---------------------------------------------------------------------------
  // The codecs agree

  lemma ReadControl(c: char, tail: string)
    requires IsControl(c) && !HasShortEscape(c)
    ensures EscapeChar(c)[0] == '\\' && ReadChar(EscapeChar(c) + tail) == Some((c, tail))
  {
    var code := c as int;
    var s := EscapeChar(c) + tail;
    assert s[6..] == tail;
    assert code == 0x1000 * (code / 0x1000 % 16) + 0x100 * (code / 0x100 % 16) + 0x10 * (code / 0x10 % 16) + code % 16;
  }

  lemma ReadEscapedChar(c: char, tail: string)
    ensures EscapeChar(c)[0] != '"'
    ensures ReadChar(EscapeChar(c) + tail) == Some((c, tail))
  {
    if IsControl(c) && !HasShortEscape(c) {
      ReadControl(c, tail);
    } else if |EscapeChar(c)| == 2 {
      assert (EscapeChar(c) + tail)[2..] == tail;
    } else {
      assert (EscapeChar(c) + tail)[1..] == tail;
    }
  }

  lemma ReadStringStep(c: char, tail: string, value: string, rest: string)
    requires ReadString(tail) == Some((value, rest))
    ensures ReadString(EscapeChar(c) + tail) == Some(([c] + value, rest))
  {
    ReadEscapedChar(c, tail);
  }

  /** A character stands for itself unless it is a quote, a backslash or a control character; seven have a short
  escape; the other control characters have four digits, the letters lower case. */
  lemma EscapeShape(c: char)
    ensures var e := EscapeChar(c); var code := c as int;
      && (e == [c] <==> c != '"' && c != '\\' && !(code < 0x20 || 0x7F <= code <= 0x9F))
      && (|e| == 2 <==> c == '"' || c == '\\' || code in {0x08, 0x09, 0x0A, 0x0C, 0x0D})
      && (|e| == 1 || |e| == 2 || |e| == 6)
      && (|e| == 6 ==> forall i | 2 <= i < 6 :: '0' <= e[i] <= '9' || 'a' <= e[i] <= 'f')
  {
    if IsControl(c) && |EscapeChar(c)| == 6 {
      DigitsAreLower(c as int / 0x1000 % 16);
      DigitsAreLower(c as int / 0x100 % 16);
      DigitsAreLower(c as int / 0x10 % 16);
      DigitsAreLower(c as int % 16);
    }
  }

  lemma DigitsAreLower(value: nat)
    requires value < 16
    ensures '0' <= HexDigit(value) <= '9' || 'a' <= HexDigit(value) <= 'f'
  {
  }

  /** An RFC 8259 reader recovers every printed string and stops exactly at its closing quote. */
  lemma {:induction false} ReadPrinted(value: string, rest: string)
    ensures ReadString(Escaped(value) + "\"" + rest) == Some((value, rest))
  {
    if value == "" {
      assert (Escaped(value) + "\"" + rest)[1..] == rest;
    } else {
      var tail := Escaped(value[1..]) + "\"" + rest;
      assert Escaped(value) + "\"" + rest == EscapeChar(value[0]) + tail;
      ReadPrinted(value[1..], rest);
      ReadStringStep(value[0], tail, value[1..], rest);
      assert value == [value[0]] + value[1..];
    }
  }

  lemma DecodeEscapedChar(c: char, tail: string)
    ensures Decode(EscapeChar(c) + tail) == if IsControl(c) && !HasShortEscape(c)
      then Err(UnsupportedEscape('u'))
      else Prepend([c], Decode(tail))
  {
    var s := EscapeChar(c) + tail;
    if |EscapeChar(c)| == 2 {
      assert s[2..] == tail;
    } else if |EscapeChar(c)| == 1 {
      assert s[1..] == tail;
    }
  }

  /** The parser's decoder inverts the printer exactly on clean strings: any other control character
  is printed as a `\u` escape, which the decoder refuses. */
  lemma {:induction false} DecodePrinted(value: string)
    ensures IsClean(value) ==> Decode(Escaped(value)) == Ok(value)
    ensures !IsClean(value) ==> Decode(Escaped(value)) == Err(UnsupportedEscape('u'))
  {
    if value != "" {
      var c, tail := value[0], value[1..];
      DecodePrinted(tail);
      DecodeEscapedChar(c, Escaped(tail));
      assert value == [c] + tail;
    }
  }

  /** Whatever the decoder accepts is clean, so printing it back needs no `\u` escape. */
  lemma {:induction false} DecodedIsClean(value: string)
    ensures Decode(value).Ok? ==> IsClean(Decode(value).value)
    decreases |value|
  {
    if value != "" && value[0] != '"' {
      if value[0] != '\\' {
        DecodedIsClean(value[1..]);
      } else if |value| > 1 {
        DecodedIsClean(value[2..]);
      }
    }
  }
}
