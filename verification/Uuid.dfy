/** Amber's identifiers: UUIDs of version 4, as random bytes and as text. */
module Uuid {
  type Bytes = b: seq<bv8> | |b| == 16 witness [0, 0, 0, 0, 0, 0, 0, 0, 0, 0, 0, 0, 0, 0, 0, 0]

  // ---------------------------------------------------------------------------
  // What `validateID` accepts

  predicate IsHexDigit(c: char) { '0' <= c <= '9' || 'a' <= c <= 'f' }

  predicate IsHyphenPlace(i: nat) { i == 8 || i == 13 || i == 18 || i == 23 }

  predicate IsCanonical(text: string) {
    |text| == 36 && forall i | 0 <= i < 36 :: if IsHyphenPlace(i) then text[i] == '-' else IsHexDigit(text[i])
  }

  /** Canonical lowercase text with the version and variant digits of RFC 4122, sections 4.1.1 and 4.1.3. */
  predicate IsID(text: string) {
    IsCanonical(text) && text[14] == '4' && (text[19] == '8' || text[19] == '9' || text[19] == 'a' || text[19] == 'b')
  }

  method ValidateID(text: string) returns (ok: bool)
    ensures ok == IsID(text)
  {
    if |text| != 36 {
      return false;
    }
    for i := 0 to 36
      invariant forall j | 0 <= j < i :: if IsHyphenPlace(j) then text[j] == '-' else IsHexDigit(text[j])
    {
      if IsHyphenPlace(i) {
        if text[i] != '-' {
          return false;
        }
        continue;
      }
      if !IsHexDigit(text[i]) {
        return false;
      }
    }
    if text[14] != '4' {
      return false;
    }
    return text[19] == '8' || text[19] == '9' || text[19] == 'a' || text[19] == 'b';
  }

  // ---------------------------------------------------------------------------
  // What `newID` makes of sixteen bytes

  /** The version and the variant, in six fixed bits. */
  function Marked(b: Bytes): Bytes { b[6 := (b[6] & 0x0f) | 0x40][8 := (b[8] & 0x3f) | 0x80] }

  function Digit(n: bv8): char {
    if n == 0 then '0' else if n == 1 then '1' else if n == 2 then '2' else if n == 3 then '3'
    else if n == 4 then '4' else if n == 5 then '5' else if n == 6 then '6' else if n == 7 then '7'
    else if n == 8 then '8' else if n == 9 then '9' else if n == 10 then 'a' else if n == 11 then 'b'
    else if n == 12 then 'c' else if n == 13 then 'd' else if n == 14 then 'e' else 'f'
  }

  function High(b: bv8): char { Digit(b >> 4) }

  function Low(b: bv8): char { Digit(b & 0x0f) }

  /** `hex.Encode`. */
  function Hex(b: seq<bv8>): (s: string)
    ensures |s| == 2 * |b|
    ensures forall i | 0 <= i < |b| :: s[2 * i] == High(b[i]) && s[2 * i + 1] == Low(b[i])
  {
    if b == [] then "" else [High(b[0]), Low(b[0])] + Hex(b[1..])
  }

  function Text(b: Bytes): (s: string)
    ensures |s| == 36
  {
    Hex(b[..4]) + "-" + Hex(b[4..6]) + "-" + Hex(b[6..8]) + "-" + Hex(b[8..10]) + "-" + Hex(b[10..])
  }

  /** Where the digits of a byte stand. */
  function Place(i: nat): nat {
    2 * i + (if i < 4 then 0 else if i < 6 then 1 else if i < 8 then 2 else if i < 10 then 3 else 4)
  }

  /** A text put together from its groups. */
  lemma InGroups(p: string, q: string, r: string, s: string, t: string)
    requires |p| == 8 && |q| == |r| == |s| == 4
    ensures var text := p + "-" + q + "-" + r + "-" + s + "-" + t;
      && text[..8] == p && text[9..13] == q && text[14..18] == r && text[19..23] == s && text[24..] == t
  {
  }

  lemma TextDigits(b: Bytes, i: nat)
    requires i < 16
    ensures Text(b)[Place(i)] == High(b[i]) && Text(b)[Place(i) + 1] == Low(b[i])
  {
    hide High, Low;
    var p, q, r, s, t := Hex(b[..4]), Hex(b[4..6]), Hex(b[6..8]), Hex(b[8..10]), Hex(b[10..]);
    InGroups(p, q, r, s, t);
    if i < 4 {
      assert Text(b)[Place(i)] == p[2 * i] && Text(b)[Place(i) + 1] == p[2 * i + 1];
    } else if i < 6 {
      assert Text(b)[Place(i)] == q[2 * (i - 4)] && Text(b)[Place(i) + 1] == q[2 * (i - 4) + 1];
    } else if i < 8 {
      assert Text(b)[Place(i)] == r[2 * (i - 6)] && Text(b)[Place(i) + 1] == r[2 * (i - 6) + 1];
    } else if i < 10 {
      assert Text(b)[Place(i)] == s[2 * (i - 8)] && Text(b)[Place(i) + 1] == s[2 * (i - 8) + 1];
    } else {
      assert Text(b)[Place(i)] == t[2 * (i - 10)] && Text(b)[Place(i) + 1] == t[2 * (i - 10) + 1];
    }
  }

  lemma TextHyphens(b: Bytes)
    ensures Text(b)[8] == '-' && Text(b)[13] == '-' && Text(b)[18] == '-' && Text(b)[23] == '-'
  {
    hide High, Low;
  }

  lemma DigitIsHex(n: bv8)
    ensures IsHexDigit(Digit(n))
  {
  }

  /** The byte whose digit stands at a place that holds no hyphen. */
  lemma DigitAt(b: Bytes, k: nat)
    requires k < 36 && !IsHyphenPlace(k)
    ensures IsHexDigit(Text(b)[k])
  {
    hide Text, High, Low, Digit, IsHexDigit;
    var i: nat :| i < 16 && (k == Place(i) || k == Place(i) + 1) by {
      PlaceOf(k);
    }
    TextDigits(b, i);
    DigitsAreHex(b[i]);
  }

  lemma PlaceOf(k: nat)
    requires k < 36 && !IsHyphenPlace(k)
    ensures exists i: nat :: i < 16 && (k == Place(i) || k == Place(i) + 1)
  {
    var i: nat := if k < 8 then k / 2 else if k < 13 then (k - 1) / 2 else if k < 18 then (k - 2) / 2
      else if k < 23 then (k - 3) / 2 else (k - 4) / 2;
    assert i < 16 && (k == Place(i) || k == Place(i) + 1);
  }

  lemma DigitsAreHex(b: bv8)
    ensures IsHexDigit(High(b)) && IsHexDigit(Low(b))
  {
    DigitIsHex(b >> 4);
    DigitIsHex(b & 0x0f);
  }

  lemma VersionDigit(b: bv8)
    ensures High((b & 0x0f) | 0x40) == '4'
  {
    assert ((b & 0x0f) | 0x40) >> 4 == 4;
  }

  lemma VariantDigit(b: bv8)
    ensures var c := High((b & 0x3f) | 0x80); c == '8' || c == '9' || c == 'a' || c == 'b'
  {
    var n := ((b & 0x3f) | 0x80) >> 4;
    assert n == 8 || n == 9 || n == 10 || n == 11;
  }

  /** Whatever the sixteen random bytes, the text is an identifier that `validateID` accepts. */
  lemma NewIdentifierIsValid(b: Bytes)
    ensures IsID(Text(Marked(b)))
  {
    hide Text, High, Low, IsHexDigit;
    var m := Marked(b);
    TextHyphens(m);
    forall k | 0 <= k < 36 && !IsHyphenPlace(k) ensures IsHexDigit(Text(m)[k]) {
      DigitAt(m, k);
    }
    TextDigits(m, 6);
    TextDigits(m, 8);
    VersionDigit(b[6]);
    VariantDigit(b[8]);
  }

  // ---------------------------------------------------------------------------
  // Which bytes give the same text

  /** The bits of a byte that are not fixed. */
  function FreeBits(i: nat): bv8 { if i == 6 then 0x0f else if i == 8 then 0x3f else 0xff }

  lemma DigitInjective(m: bv8, n: bv8)
    requires m < 16 && n < 16 && Digit(m) == Digit(n)
    ensures m == n
  {
  }

  lemma SameDigits(m: bv8, n: bv8)
    requires High(m) == High(n) && Low(m) == Low(n)
    ensures m == n
  {
    DigitInjective(m >> 4, n >> 4);
    DigitInjective(m & 0x0f, n & 0x0f);
    assert m == ((m >> 4) << 4) | (m & 0x0f);
    assert n == ((n >> 4) << 4) | (n & 0x0f);
  }

  lemma SameText(a: Bytes, b: Bytes)
    ensures Text(a) == Text(b) <==> a == b
  {
    hide Text, High, Low;
    if Text(a) == Text(b) {
      forall i | 0 <= i < 16 ensures a[i] == b[i] {
        TextDigits(a, i);
        TextDigits(b, i);
        SameDigits(a[i], b[i]);
      }
    }
  }

  lemma MarkedByte(a: bv8, b: bv8)
    ensures (a & 0x0f) | 0x40 == (b & 0x0f) | 0x40 <==> a & 0x0f == b & 0x0f
    ensures (a & 0x3f) | 0x80 == (b & 0x3f) | 0x80 <==> a & 0x3f == b & 0x3f
    ensures a & 0xff == a
  {
  }

  /** Two draws give the same identifier exactly when they agree outside the six fixed bits. */
  lemma SameIdentifierIffSameFreeBits(a: Bytes, b: Bytes)
    ensures Text(Marked(a)) == Text(Marked(b)) <==> forall i | 0 <= i < 16 :: a[i] & FreeBits(i) == b[i] & FreeBits(i)
  {
    hide Text;
    SameText(Marked(a), Marked(b));
    forall i | 0 <= i < 16 ensures Marked(a)[i] == Marked(b)[i] <==> a[i] & FreeBits(i) == b[i] & FreeBits(i) {
      MarkedByte(a[i], b[i]);
      MarkedByte(b[i], a[i]);
    }
  }

  // ---------------------------------------------------------------------------
  // Reading an identifier

  function DigitValue(c: char): int { if c <= '9' then c as int - '0' as int else c as int - 'a' as int + 10 }

  lemma DigitReadsBack(n: bv8)
    requires n < 16
    ensures DigitValue(Digit(n)) == n as int
  {
  }

  lemma ByteReadsBack(b: bv8)
    ensures 16 * DigitValue(High(b)) + DigitValue(Low(b)) == b as int
  {
    hide Digit, DigitValue;
    DigitReadsBack(b >> 4);
    DigitReadsBack(b & 0x0f);
    Halves(b);
  }

  lemma Halves(b: bv8)
    ensures 16 * ((b >> 4) as int) + (b & 0x0f) as int == b as int
  {
    assert b >> 4 == b / 16 && b & 0x0f == b % 16;
  }

  lemma MarkedValue(b: bv8)
    ensures ((b & 0x0f) | 0x40) as int == 64 + b as int % 16
    ensures ((b & 0x3f) | 0x80) as int == 128 + b as int % 64
  {
    assert (b & 0x0f) | 0x40 == 64 + b % 16 && (b & 0x3f) | 0x80 == 128 + b % 64;
  }

  /** The digits of an identifier in pairs, past the hyphens, are the bytes that were drawn, except for the high
  digit of the seventh byte and the two high bits of the ninth. */
  lemma IdentifierReadsBack(b: Bytes, i: nat)
    requires i < 16
    ensures var text := Text(Marked(b));
      var place := 2 * i + if i < 4 then 0 else if i < 6 then 1 else if i < 8 then 2 else if i < 10 then 3 else 4;
      16 * DigitValue(text[place]) + DigitValue(text[place + 1]) == (
        if i == 6 then 64 + b[i] as int % 16
        else if i == 8 then 128 + b[i] as int % 64
        else b[i] as int)
  {
    hide Text, High, Low, DigitValue;
    TextDigits(Marked(b), i);
    ByteReadsBack(Marked(b)[i]);
    MarkedValue(b[i]);
  }

  /** The sixteen bytes in hexadecimal, in groups of 4, 2, 2, 2 and 6. */
  method SpellOut(bytes: array<bv8>) returns (text: string)
    requires bytes.Length == 16
    ensures text == Text(bytes[..])
  {
    ghost var b: Bytes := bytes[..];
    GroupsOf(b);
    hide Text, Hex;
    text := Hex(bytes[..][0..4]) + "-" + Hex(bytes[..][4..6]) + "-" + Hex(bytes[..][6..8]) + "-" + Hex(bytes[..][8..10])
      + "-" + Hex(bytes[..][10..16]);
  }

  lemma GroupsOf(b: Bytes)
    ensures Text(b)
      == Hex(b[0..4]) + "-" + Hex(b[4..6]) + "-" + Hex(b[6..8]) + "-" + Hex(b[8..10]) + "-" + Hex(b[10..16])
  {
    assert b[0..4] == b[..4] && b[10..16] == b[10..];
  }

  /** `newID` on the bytes it has read: it marks them in place and spells them out. */
  method NewID(bytes: array<bv8>) returns (text: string)
    requires bytes.Length == 16
    modifies bytes
    ensures bytes[..] == Marked(old(bytes[..]))
    ensures text == Text(Marked(old(bytes[..]))) && IsID(text)
  {
    hide Text, IsID, Hex;
    ghost var random: Bytes := bytes[..];
    bytes[6] := (bytes[6] & 0x0f) | 0x40;
    bytes[8] := (bytes[8] & 0x3f) | 0x80;
    assert bytes[..] == Marked(random);
    NewIdentifierIsValid(random);
    text := SpellOut(bytes);
  }
}
