/** The two readers of quoted strings: `parse_quoted` on a clause line, `parse_string` in a literal. */
module QuotedAgreement {
  import opened Text
  import opened Ast
  import opened StringCodec
  import opened LiteralGrammar

  lemma Glue(head: string, tail: string, rest: string, raw: string)
    ensures head + (tail + "\"" + rest) == head + tail + "\"" + rest
    ensures raw + head + tail == raw + (head + tail)
  {
  }

  /** The literal reader stops at a quote and decodes exactly the text before it. */
  lemma {:induction false} RawEnds(s: string, raw: string) returns (inner: string)
    requires ParseRaw(s, raw).Parsed?
    ensures s == inner + "\"" + ParseRaw(s, raw).rest && Decode(raw + inner) == Ok(ParseRaw(s, raw).value)
    decreases |s|
  {
    if s[0] == '"' {
      assert raw + "" == raw;
      inner := "";
    } else {
      var head := if s[0] == '\\' then [s[0], s[1]] else [s[0]];
      var tail := RawEnds(s[|head|..], raw + head);
      inner := head + tail;
      assert s == head + s[|head|..];
      Glue(head, tail, ParseRaw(s, raw).rest, raw);
    }
  }

  /** Text that decodes holds no bare quote, no control character and no split escape, so the literal
  reader runs through it. */
  lemma {:induction false} RawRunsThrough(inner: string, raw: string)
    requires Decode(inner).Ok?
    ensures ParseRaw(inner + "\"", raw) == ParseRaw("\"", raw + inner)
    decreases |inner|
  {
    if inner == "" {
      assert inner + "\"" == "\"" && raw + inner == raw;
    } else if inner[0] == '\\' {
      assert (inner + "\"")[2..] == inner[2..] + "\"";
      RawRunsThrough(inner[2..], raw + [inner[0], inner[1]]);
      assert raw + [inner[0], inner[1]] + inner[2..] == raw + inner;
    } else {
      assert (inner + "\"")[1..] == inner[1..] + "\"";
      RawRunsThrough(inner[1..], raw + [inner[0]]);
      assert raw + [inner[0]] + inner[1..] == raw + inner;
    }
  }

  /** Text between quotes is read by the one reader exactly when it is decoded by the other. */
  lemma BetweenQuotes(t: string, inner: string, decoded: string)
    requires t == "\"" + inner + "\""
    ensures ParseString(t) == Parsed(decoded, "") <==> Decode(inner) == Ok(decoded)
  {
    assert t[1..] == inner + "\"" && "" + inner == inner;
    if Decode(inner).Ok? {
      RawRunsThrough(inner, "");
    }
    if ParseString(t) == Parsed(decoded, "") {
      var other := RawEnds(t[1..], "");
      assert t[1..] == other + "\"" && "" + other == other;
      assert other == t[1..][..|t| - 2] == inner;
    }
  }

  lemma QuotedShape(t: string)
    requires ParseString(t).Parsed? && ParseString(t).rest == ""
    ensures IsQuoted(t)
  {
    var inner := RawEnds(t[1..], "");
    assert t[1..] == inner + "\"";
  }

  lemma Unquote(t: string)
    requires IsQuoted(t)
    ensures t == "\"" + t[1..|t| - 1] + "\""
  {
  }

  /** Both readers accept the same tokens with the same value. */
  lemma SameTokens(value: string, decoded: string)
    ensures ParseQuoted(value) == Ok(decoded) <==> ParseString(Trim(value)) == Parsed(decoded, "")
  {
    var t := Trim(value);
    if IsQuoted(t) {
      Unquote(t);
      BetweenQuotes(t, t[1..|t| - 1], decoded);
    } else if ParseString(t) == Parsed(decoded, "") {
      QuotedShape(t);
    }
  }
}
