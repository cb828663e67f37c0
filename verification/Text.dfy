/** Text primitives that the Rust front end borrows from its standard library.

A Rust `char` is a Unicode scalar value, exactly Dafny's `char`; a `&str` is modelled as the
sequence of its characters. */
module Text {
  datatype Option<+T> = None | Some(value: T) {
    predicate IsFailure() { None? }

    function PropagateFailure<U>(): Option<U>
      requires None?
    {
      None
    }

    function Extract(): T
      requires Some?
    {
      value
    }
  }

  /** The Unicode White_Space property, as `char::is_whitespace` tests it. */
  predicate IsWhitespace(c: char) {
    var u := c as int;
    || 0x09 <= u <= 0x0D || u == 0x20 || u == 0x85 || u == 0xA0 || u == 0x1680
    || 0x2000 <= u <= 0x200A || u == 0x2028 || u == 0x2029 || u == 0x202F || u == 0x205F || u == 0x3000
  }

  /** The Unicode general category Cc, as `char::is_control` tests it. */
  predicate IsControl(c: char) {
    var u := c as int;
    u < 0x20 || 0x7F <= u <= 0x9F
  }

  predicate IsDigit(c: char) { '0' <= c <= '9' }

  predicate IsAsciiAlphabetic(c: char) { 'a' <= c <= 'z' || 'A' <= c <= 'Z' }

  predicate IsAsciiAlphanumeric(c: char) { IsDigit(c) || IsAsciiAlphabetic(c) }

  predicate IsNameStart(c: char) { c == '_' || IsAsciiAlphabetic(c) }

  predicate IsNameChar(c: char) { c == '_' || IsAsciiAlphanumeric(c) }

  /** `is_identifier` of the parser and of the validator. */
  predicate IsIdentifier(value: string) {
    value != "" && IsNameStart(value[0]) && forall c <- value[1..] :: IsNameChar(c)
  }

  function TrimStart(s: string): (r: string)
    ensures |r| <= |s|
    ensures r == "" || !IsWhitespace(r[0])
    ensures s == "" || !IsWhitespace(s[0]) ==> r == s
  {
    if s != "" && IsWhitespace(s[0]) then TrimStart(s[1..]) else s
  }

  function TrimEnd(s: string): (r: string)
    ensures r <= s
    ensures r == "" || !IsWhitespace(r[|r| - 1])
  {
    if s != "" && IsWhitespace(s[|s| - 1]) then TrimEnd(s[..|s| - 1]) else s
  }

  function Trim(s: string): string { TrimEnd(TrimStart(s)) }

  lemma {:induction false} TrimStartKeeps(s: string)
    ensures forall c <- s :: IsWhitespace(c) || c in TrimStart(s)
  {
    hide IsWhitespace;
    if s != "" && IsWhitespace(s[0]) {
      TrimStartKeeps(s[1..]);
      assert s == [s[0]] + s[1..];
    }
  }

  lemma {:induction false} TrimEndKeeps(s: string)
    ensures forall c <- s :: IsWhitespace(c) || c in TrimEnd(s)
  {
    hide IsWhitespace;
    if s != "" && IsWhitespace(s[|s| - 1]) {
      TrimEndKeeps(s[..|s| - 1]);
      assert s == s[..|s| - 1] + [s[|s| - 1]];
    }
  }

  lemma Reassociated(s: string, front: string, back: string)
    requires s != "" && s[1..] == front + back
    ensures s == [s[0]] + front + back
  {
  }

  lemma {:induction false} TrimStartCuts(s: string) returns (before: string)
    ensures s == before + TrimStart(s) && forall c <- before :: IsWhitespace(c)
  {
    hide IsWhitespace;
    if s != "" && IsWhitespace(s[0]) {
      var rest := TrimStartCuts(s[1..]);
      before := [s[0]] + rest;
      Reassociated(s, rest, TrimStart(s[1..]));
    } else {
      before := "";
    }
  }

  lemma {:induction false} TrimEndCuts(s: string) returns (after: string)
    ensures s == TrimEnd(s) + after && forall c <- after :: IsWhitespace(c)
  {
    hide IsWhitespace;
    if s != "" && IsWhitespace(s[|s| - 1]) {
      after := TrimEndCuts(s[..|s| - 1]);
      after := after + [s[|s| - 1]];
      assert s == s[..|s| - 1] + [s[|s| - 1]];
    } else {
      after := "";
    }
  }

  /** Trimming takes whitespace from both ends, and all of it. */
  lemma TrimMeans(s: string) returns (before: string, after: string)
    ensures s == before + Trim(s) + after && forall c <- before + after :: IsWhitespace(c)
    ensures Trim(s) != "" ==> !IsWhitespace(Trim(s)[0]) && !IsWhitespace(Trim(s)[|Trim(s)| - 1])
  {
    hide IsWhitespace;
    before := TrimStartCuts(s);
    after := TrimEndCuts(TrimStart(s));
  }

  /** A text with a visible character is not blank. */
  lemma VisibleIsNotBlank(s: string, c: char)
    requires c in s && !IsWhitespace(c)
    ensures Trim(s) != ""
  {
    TrimStartKeeps(s);
    TrimEndKeeps(TrimStart(s));
  }

  /** The maximal runs of non-whitespace characters, left to right. */
  function SplitWhitespace(s: string): (words: seq<string>)
    ensures forall w <- words :: w != ""
    decreases |s|
  {
    var t := TrimStart(s);
    if t == "" then [] else var w := TakeWord(t); [w] + SplitWhitespace(t[|w|..])
  }

  function TakeWord(s: string): (w: string)
    ensures w <= s && forall c <- w :: !IsWhitespace(c)
    ensures s != "" && !IsWhitespace(s[0]) ==> w != ""
  {
    if s == "" || IsWhitespace(s[0]) then "" else [s[0]] + TakeWord(s[1..])
  }

  /** `split_once(c)`: the text before and after the first `c`. */
  function SplitOnce(s: string, c: char): (r: Option<(string, string)>)
    ensures r.Some? ==> s == r.value.0 + [c] + r.value.1 && c !in r.value.0
    ensures r.None? <==> c !in s
  {
    if s == "" then None
    else if s[0] == c then Some(("", s[1..]))
    else match SplitOnce(s[1..], c)
      case None => None
      case Some((a, b)) => Some(([s[0]] + a, b))
  }

  lemma {:induction false} SplitOnceAt(a: string, c: char, b: string)
    requires c !in a
    ensures SplitOnce(a + [c] + b, c) == Some((a, b))
  {
    var s := a + [c] + b;
    if a == "" {
      assert s[1..] == b;
    } else {
      assert s[0] == a[0] && a[0] in a;
      assert s[1..] == a[1..] + [c] + b;
      SplitOnceAt(a[1..], c, b);
      assert a == [a[0]] + a[1..];
    }
  }

  /** `split(c)`: every piece between separators, at least one. */
  function SplitOn(s: string, c: char): (pieces: seq<string>)
    ensures |pieces| > 0
    decreases |s|
  {
    match SplitOnce(s, c)
    case None => [s]
    case Some((a, b)) => [a] + SplitOn(b, c)
  }

  function StripPrefix(s: string, prefix: string): Option<string> {
    if prefix <= s then Some(s[|prefix|..]) else None
  }

  function StripSuffix(s: string, suffix: string): Option<string> {
    if |suffix| <= |s| && s[|s| - |suffix|..] == suffix then Some(s[..|s| - |suffix|]) else None
  }

  /** `str::lines`: split after each newline, dropping it and one carriage return before it. */
  function Lines(source: string): (lines: seq<string>)
    decreases |source|
  {
    match SplitOnce(source, '\n')
    case None => if source == "" then [] else [source]
    case Some((a, b)) => [DropCarriageReturn(a)] + Lines(b)
  }

  function DropCarriageReturn(s: string): string {
    if s != "" && s[|s| - 1] == '\r' then s[..|s| - 1] else s
  }

  // ---------------------------------------------------------------------------
  // 64-bit integers in decimal

  const I64_MIN := -0x8000_0000_0000_0000
  const I64_MAX := 0x7FFF_FFFF_FFFF_FFFF

  predicate IsI64(n: int) { I64_MIN <= n <= I64_MAX }

  predicate AllDigits(s: string) { forall c <- s :: IsDigit(c) }

  function DigitChar(d: nat): (c: char)
    requires d < 10
    ensures IsDigit(c) && c as int - '0' as int == d
  {
    '0' + d as char
  }

  /** `i64::to_string` on the magnitude. */
  function FormatNat(n: nat): (s: string)
    ensures |s| > 0 && AllDigits(s)
    ensures |s| > 1 ==> s[0] != '0'
  {
    if n < 10 then [DigitChar(n)] else FormatNat(n / 10) + [DigitChar(n % 10)]
  }

  function FormatInt(n: int): (s: string)
    ensures s != "" && (IsDigit(s[0]) || s[0] == '-')
    ensures forall c <- s :: IsDigit(c) || c == '-'
  {
    if n < 0 then "-" + FormatNat(-n) else FormatNat(n)
  }

  function DigitsValue(s: string): nat
    requires AllDigits(s)
  {
    if s == "" then 0
    else
      assert IsDigit(s[|s| - 1]);
      10 * DigitsValue(s[..|s| - 1]) + (s[|s| - 1] as int - '0' as int)
  }

  /** `str::parse::<i64>`: an optional sign, at least one digit, no overflow. */
  function ParseI64(s: string): (r: Option<int>)
    ensures r.Some? ==> IsI64(r.value)
  {
    var negative := s != "" && s[0] == '-';
    var signed := negative || (s != "" && s[0] == '+');
    var digits := if signed then s[1..] else s;
    if digits == "" || !AllDigits(digits) then None
    else
      var v: int := if negative then -(DigitsValue(digits) as int) else DigitsValue(digits);
      if IsI64(v) then Some(v) else None
  }

  lemma {:induction false} FormatNatValue(n: nat)
    ensures DigitsValue(FormatNat(n)) == n
  {
    if n >= 10 {
      FormatNatValue(n / 10);
      var s := FormatNat(n);
      assert s[..|s| - 1] == FormatNat(n / 10);
    }
  }

  /** Decimal text is read back exactly, for every i64 including the minimum. */
  lemma ParseFormat(n: int)
    requires IsI64(n)
    ensures ParseI64(FormatInt(n)) == Some(n)
  {
    if n < 0 {
      FormatNatValue(-n);
      assert FormatInt(n)[1..] == FormatNat(-n);
    } else {
      FormatNatValue(n);
      assert FormatNat(n)[0] in FormatNat(n);
    }
  }

  predicate AllZeros(s: string) { forall c <- s :: c == '0' }

  /** A way to write a number: a sign that suits it, any zeros, and its magnitude in decimal. */
  predicate Writes(sign: string, zeros: string, magnitude: nat, n: int) {
    && AllZeros(zeros)
    && (sign == "" || sign == "+" || sign == "-")
    && n == if sign == "-" then -(magnitude as int) else magnitude
  }

  lemma {:induction false} LeadingZeros(zeros: string, digits: string)
    requires AllZeros(zeros) && AllDigits(digits)
    ensures AllDigits(zeros + digits) && DigitsValue(zeros + digits) == DigitsValue(digits)
  {
    var s := zeros + digits;
    if digits != "" {
      assert s[..|s| - 1] == zeros + digits[..|digits| - 1];
      LeadingZeros(zeros, digits[..|digits| - 1]);
    } else if zeros != "" {
      var front := zeros[..|zeros| - 1];
      assert s == zeros && zeros[|zeros| - 1] in zeros;
      forall c | c in front ensures c == '0' {
        assert c in zeros;
      }
      assert s[..|s| - 1] == front + "";
      LeadingZeros(front, "");
    }
  }

  /** Digits are zeros followed by the decimal text of their value. */
  lemma {:induction false} DigitsAreNumeral(digits: string) returns (zeros: string)
    requires digits != "" && AllDigits(digits)
    ensures AllZeros(zeros) && digits == zeros + FormatNat(DigitsValue(digits))
  {
    var front, last := digits[..|digits| - 1], digits[|digits| - 1];
    assert digits == front + [last] && IsDigit(last);
    var d: nat := last as int - '0' as int;
    var v := DigitsValue(front);
    assert DigitsValue(digits) == 10 * v + d && [last] == [DigitChar(d)];
    if front == "" {
      zeros := "";
    } else {
      zeros := DigitsAreNumeral(front);
      if v == 0 {
        zeros := zeros + "0";
        assert FormatNat(0) == "0";
      } else {
        assert FormatNat(10 * v + d) == FormatNat(v) + [DigitChar(d)];
      }
    }
  }

  /** A text is refused unless it writes a 64-bit integer, and is read as the integer it writes. */
  lemma ParsedNumbers(s: string, n: int)
    ensures ParseI64(s) == Some(n)
      <==> IsI64(n) && exists sign, zeros, magnitude ::
        Writes(sign, zeros, magnitude, n) && s == sign + zeros + FormatNat(magnitude)
  {
    if ParseI64(s) == Some(n) {
      var sign := if s[0] == '-' || s[0] == '+' then s[..1] else "";
      var digits := s[|sign|..];
      var zeros := DigitsAreNumeral(digits);
      assert s == sign + digits && Writes(sign, zeros, DigitsValue(digits), n);
      assert s == sign + zeros + FormatNat(DigitsValue(digits));
    }
    if IsI64(n) {
      forall sign, zeros, magnitude
        | Writes(sign, zeros, magnitude, n) && s == sign + zeros + FormatNat(magnitude)
        ensures ParseI64(s) == Some(n)
      {
        NumeralParses(sign, zeros, magnitude, n);
      }
    }
  }

  lemma NumeralParses(sign: string, zeros: string, magnitude: nat, n: int)
    requires IsI64(n) && Writes(sign, zeros, magnitude, n)
    ensures ParseI64(sign + zeros + FormatNat(magnitude)) == Some(n)
  {
    var digits := zeros + FormatNat(magnitude);
    LeadingZeros(zeros, FormatNat(magnitude));
    FormatNatValue(magnitude);
    assert sign + zeros + FormatNat(magnitude) == sign + digits;
    SignedParses(sign, digits);
  }

  lemma SignedParses(sign: string, digits: string)
    requires (sign == "" || sign == "+" || sign == "-") && digits != "" && AllDigits(digits)
    ensures var v: int := DigitsValue(digits); var n := if sign == "-" then -v else v;
      ParseI64(sign + digits) == if IsI64(n) then Some(n) else None
  {
    assert digits[0] in digits;
    if sign == "" {
      assert sign + digits == digits;
    } else {
      assert (sign + digits)[1..] == digits;
    }
  }

  lemma FormatIntInjective(a: int, b: int)
    requires FormatInt(a) == FormatInt(b)
    ensures a == b
  {
    FormatNatValue(if a < 0 then -a else a);
    FormatNatValue(if b < 0 then -b else b);
    var s, t := FormatInt(a), FormatInt(b);
    if a < 0 { assert s[1..] == FormatNat(-a); } else { assert s[0] in FormatNat(a); }
    if b < 0 { assert t[1..] == FormatNat(-b); } else { assert t[0] in FormatNat(b); }
  }
}
