/** JSON values, their compact text, and a reader for the grammar of RFC 8259 (sections 2 to 7). */
module Json {
  import opened Text
  import opened StringCodec

  /** A number keeps its spelling, an object its members in order. */
  datatype Json =
    | Null
    | Bool(b: bool)
    | Number(lexeme: string)
    | Str(text: string)
    | Arr(items: seq<Json>)
    | Obj(members: seq<Member>)

  datatype Member = Member(name: string, value: Json)

  // ---------------------------------------------------------------------------
  // The compact text: no whitespace, one spelling per value

  function Render(j: Json): (s: string)
    ensures s != ""
  {
    match j
    case Null => "null"
    case Bool(b) => if b then "true" else "false"
    case Number(lexeme) => if lexeme == "" then "0" else lexeme
    case Str(text) => Quoted(text)
    case Arr(items) => "[" + RenderItems(items) + "]"
    case Obj(members) => "{" + RenderMembers(members) + "}"
  }

  function RenderItems(items: seq<Json>): string {
    if items == [] then ""
    else if |items| == 1 then Render(items[0])
    else Render(items[0]) + "," + RenderItems(items[1..])
  }

  function RenderMember(m: Member): string { Quoted(m.name) + ":" + Render(m.value) }

  function RenderMembers(members: seq<Member>): string {
    if members == [] then ""
    else if |members| == 1 then RenderMember(members[0])
    else RenderMember(members[0]) + "," + RenderMembers(members[1..])
  }

  /** An optional minus, then decimal digits without a superfluous leading zero. */
  predicate IsIntegerLexeme(t: string) {
    var digits := if t != "" && t[0] == '-' then t[1..] else t;
    digits != "" && AllDigits(digits) && (|digits| > 1 ==> digits[0] != '0')
  }

  /** Every number in the value is an integer lexeme. */
  predicate IsIntegral(j: Json) {
    match j
    case Number(lexeme) => IsIntegerLexeme(lexeme)
    case Arr(items) => forall item <- items :: IsIntegral(item)
    case Obj(members) => forall m <- members :: IsIntegral(m.value)
    case _ => true
  }

  lemma FormatIsIntegerLexeme(n: int)
    ensures IsIntegerLexeme(FormatInt(n))
  {
    if n < 0 {
      assert FormatInt(n)[1..] == FormatNat(-n);
    } else {
      assert FormatNat(n)[0] in FormatNat(n);
    }
  }

  // ---------------------------------------------------------------------------
  // The reader: each function returns what it read and the text after it

  predicate IsBlank(c: char) { c == ' ' || c == '\t' || c == '\n' || c == '\r' }

  function SkipBlank(s: string): (r: string)
    ensures |r| <= |s|
  {
    if s != "" && IsBlank(s[0]) then SkipBlank(s[1..]) else s
  }

  predicate Begins(s: string, c: char) { s != "" && s[0] == c }

  function Digits(s: string): (w: string)
    ensures w <= s && AllDigits(w)
    ensures |w| < |s| ==> !IsDigit(s[|w|])
  {
    if s == "" || !IsDigit(s[0]) then "" else [s[0]] + Digits(s[1..])
  }

  /** int = zero / ( digit1-9 *DIGIT ) */
  function IntPart(s: string): (w: string)
    ensures w <= s
  {
    if Begins(s, '0') then "0" else Digits(s)
  }

  /** frac = decimal-point 1*DIGIT */
  function FracPart(s: string): (w: string)
    ensures w <= s
  {
    if Begins(s, '.') && Digits(s[1..]) != "" then "." + Digits(s[1..]) else ""
  }

  /** exp = e [ minus / plus ] 1*DIGIT */
  function ExpPart(s: string): (w: string)
    ensures w <= s
  {
    if Begins(s, 'e') || Begins(s, 'E') then
      var signed := |s| > 1 && (s[1] == '-' || s[1] == '+');
      var digits := if signed then Digits(s[2..]) else Digits(s[1..]);
      if digits == "" then "" else (if signed then s[..2] else s[..1]) + digits
    else ""
  }

  function ReadNumber(s: string): (r: Option<(Json, string)>)
    ensures r.Some? ==> |r.value.1| < |s|
  {
    var sign := if Begins(s, '-') then 1 else 0;
    var i := IntPart(s[sign..]);
    if i == "" then None
    else
      var n := sign + |i|;
      var n := n + |FracPart(s[n..])|;
      var n := n + |ExpPart(s[n..])|;
      Some((Number(s[..n]), s[n..]))
  }

  function ReadKeyword(s: string, word: string, value: Json): (r: Option<(Json, string)>)
    requires word != ""
    ensures r.Some? ==> |r.value.1| < |s|
  {
    if |word| <= |s| && s[..|word|] == word then Some((value, s[|word|..])) else None
  }

  function ReadAtom(s: string): (r: Option<(Json, string)>)
    requires s != ""
    ensures r.Some? ==> |r.value.1| < |s|
  {
    if s[0] == '"' then
      match ReadString(s[1..])
      case None => None
      case Some((text, rest)) => Some((Str(text), rest))
    else if s[0] == 'n' then ReadKeyword(s, "null", Null)
    else if s[0] == 't' then ReadKeyword(s, "true", Bool(true))
    else if s[0] == 'f' then ReadKeyword(s, "false", Bool(false))
    else ReadNumber(s)
  }

  function ReadValue(s: string): (r: Option<(Json, string)>)
    ensures r.Some? ==> |r.value.1| < |s|
    decreases |s|, 0
  {
    if s == "" then None
    else if s[0] == '{' then
      var s := SkipBlank(s[1..]);
      if Begins(s, '}') then Some((Obj([]), s[1..]))
      else match ReadMembers(s)
        case None => None
        case Some((members, rest)) => Some((Obj(members), rest))
    else if s[0] == '[' then
      var s := SkipBlank(s[1..]);
      if Begins(s, ']') then Some((Arr([]), s[1..]))
      else match ReadItems(s)
        case None => None
        case Some((items, rest)) => Some((Arr(items), rest))
    else ReadAtom(s)
  }

  /** The items up to and including the closing bracket. */
  function ReadItems(s: string): (r: Option<(seq<Json>, string)>)
    ensures r.Some? ==> |r.value.1| < |s|
    decreases |s|, 1
  {
    match ReadValue(s)
    case None => None
    case Some((item, after)) =>
      var t := SkipBlank(after);
      if Begins(t, ']') then Some(([item], t[1..]))
      else if !Begins(t, ',') then None
      else match ReadItems(SkipBlank(t[1..]))
        case None => None
        case Some((items, rest)) => Some(([item] + items, rest))
  }

  function ReadMember(s: string): (r: Option<(Member, string)>)
    ensures r.Some? ==> |r.value.1| < |s|
    decreases |s|, 1
  {
    if !Begins(s, '"') then None
    else match ReadString(s[1..])
      case None => None
      case Some((name, after)) =>
        var t := SkipBlank(after);
        if !Begins(t, ':') then None
        else match ReadValue(SkipBlank(t[1..]))
          case None => None
          case Some((value, rest)) => Some((Member(name, value), rest))
  }

  function ReadMembers(s: string): (r: Option<(seq<Member>, string)>)
    ensures r.Some? ==> |r.value.1| < |s|
    decreases |s|, 2
  {
    match ReadMember(s)
    case None => None
    case Some((member, after)) =>
      var t := SkipBlank(after);
      if Begins(t, '}') then Some(([member], t[1..]))
      else if !Begins(t, ',') then None
      else match ReadMembers(SkipBlank(t[1..]))
        case None => None
        case Some((members, rest)) => Some(([member] + members, rest))
  }

  /** JSON-text = ws value ws */
  function ReadText(s: string): Option<Json> {
    match ReadValue(SkipBlank(s))
    case None => None
    case Some((value, rest)) => if SkipBlank(rest) == "" then Some(value) else None
  }

  // ---------------------------------------------------------------------------
  // Reading what was rendered

  /** What may follow a value in rendered text. */
  predicate IsFollow(rest: string) { rest == "" || rest[0] == ',' || rest[0] == ']' || rest[0] == '}' }

  lemma {:induction false} DigitsOf(w: string, rest: string)
    requires AllDigits(w) && (rest == "" || !IsDigit(rest[0]))
    ensures Digits(w + rest) == w
  {
    if w == "" {
      assert w + rest == rest;
    } else {
      assert (w + rest)[1..] == w[1..] + rest;
      DigitsOf(w[1..], rest);
    }
  }

  /** Without a fraction and an exponent the lexeme is a sign and the integer part. */
  lemma ReadPlainNumber(s: string, sign: nat, digits: string, rest: string)
    requires sign == if Begins(s, '-') then 1 else 0
    requires sign + |digits| <= |s| && digits != "" && IsFollow(rest)
    requires s[sign..] == digits + rest && IntPart(s[sign..]) == digits
    ensures ReadNumber(s) == Some((Number(s[..sign + |digits|]), rest))
  {
    var n := sign + |digits|;
    assert s[n..] == s[sign..][|digits|..] == rest;
  }

  lemma IntPartOf(digits: string, rest: string)
    requires digits != "" && AllDigits(digits) && (|digits| > 1 ==> digits[0] != '0')
    requires rest == "" || !IsDigit(rest[0])
    ensures IntPart(digits + rest) == digits && IsDigit(digits[0])
  {
    assert digits[0] in digits;
    if digits[0] == '0' {
      assert digits == "0";
    } else {
      DigitsOf(digits, rest);
    }
  }

  lemma ReadInteger(t: string, rest: string)
    requires IsIntegerLexeme(t) && IsFollow(rest)
    ensures ReadNumber(t + rest) == Some((Number(t), rest))
    ensures t[0] == '-' || IsDigit(t[0])
  {
    var s := t + rest;
    var sign := if t[0] == '-' then 1 else 0;
    var digits := t[sign..];
    IntPartOf(digits, rest);
    SplitInteger(t, sign, rest);
    ReadPlainNumber(s, sign, digits, rest);
  }

  lemma SplitInteger(t: string, sign: nat, rest: string)
    requires sign <= |t| && t != ""
    ensures (t + rest)[sign..] == t[sign..] + rest && (t + rest)[..|t|] == t && (t + rest)[0] == t[0]
  {
  }

  predicate IsValueHead(c: char) { !IsBlank(c) && c != ']' && c != '}' }

  /** A rendered value begins with no blank and no closing bracket, so no reader skips into it. */
  lemma RenderHead(j: Json)
    requires IsIntegral(j)
    ensures IsValueHead(Render(j)[0])
  {
    if j.Number? {
      ReadInteger(j.lexeme, "");
    }
  }

  lemma {:induction false} ReadRendered(j: Json, rest: string)
    requires IsIntegral(j) && IsFollow(rest)
    ensures ReadValue(Render(j) + rest) == Some((j, rest))
    decreases j, 0
  {
    match j
    case Arr(items) =>
      if items != [] {
        ReadRenderedItems(items, rest);
      }
      ReadArrText(items, RenderItems(items), rest);
    case Obj(members) =>
      if members != [] {
        MembersHead(members);
        ReadRenderedMembers(members, rest);
      }
      ReadObjText(members, RenderMembers(members), rest);
    case _ =>
      ReadRenderedAtom(j, rest);
      AtomIsValue(Render(j) + rest);
  }

  lemma ReadRenderedAtom(j: Json, rest: string)
    requires IsIntegral(j) && IsFollow(rest) && !j.Arr? && !j.Obj?
    ensures ReadAtom(Render(j) + rest) == Some((j, rest))
  {
    match j
    case Null => ReadKeywordText("null", Null, rest);
    case Bool(b) => ReadBoolText(b, rest);
    case Number(lexeme) => ReadNumberText(lexeme, rest);
    case Str(text) => ReadStrText(text, rest);
  }

  lemma ReadBoolText(b: bool, rest: string)
    ensures ReadAtom((if b then "true" else "false") + rest) == Some((Bool(b), rest))
  {
    ReadKeywordText(if b then "true" else "false", Bool(b), rest);
  }

  lemma ReadNumberText(lexeme: string, rest: string)
    requires IsIntegerLexeme(lexeme) && IsFollow(rest)
    ensures ReadAtom(lexeme + rest) == Some((Number(lexeme), rest))
  {
    ReadInteger(lexeme, rest);
    assert (lexeme + rest)[0] == lexeme[0];
  }

  lemma ReadStrText(text: string, rest: string)
    ensures ReadAtom(Quoted(text) + rest) == Some((Str(text), rest))
  {
    ReadPrinted(text, rest);
    assert (Quoted(text) + rest)[1..] == Escaped(text) + "\"" + rest;
  }

  lemma AtomIsValue(s: string)
    requires s != "" && s[0] != '{' && s[0] != '['
    ensures ReadValue(s) == ReadAtom(s)
  {
  }

  lemma ReadKeywordText(word: string, value: Json, rest: string)
    requires word != ""
    ensures ReadKeyword(word + rest, word, value) == Some((value, rest))
  {
    assert (word + rest)[..|word|] == word && (word + rest)[|word|..] == rest;
  }

  lemma ReadArrText(items: seq<Json>, inner: string, rest: string)
    requires if items == [] then inner == "" else
      inner != "" && IsValueHead(inner[0]) && ReadItems(inner + "]" + rest) == Some((items, rest))
    ensures ReadValue("[" + inner + "]" + rest) == Some((Arr(items), rest))
  {
    var s := "[" + inner + "]" + rest;
    assert s[1..] == inner + "]" + rest;
    if items == [] {
      assert s[1..] == "]" + rest;
      assert s[1..][1..] == rest;
    }
  }

  lemma ReadObjText(members: seq<Member>, inner: string, rest: string)
    requires if members == [] then inner == "" else
      inner != "" && inner[0] == '"' && ReadMembers(inner + "}" + rest) == Some((members, rest))
    ensures ReadValue("{" + inner + "}" + rest) == Some((Obj(members), rest))
  {
    var s := "{" + inner + "}" + rest;
    assert s[1..] == inner + "}" + rest;
    if members == [] {
      assert s[1..] == "}" + rest;
      assert s[1..][1..] == rest;
    }
  }

  lemma Reassociate(head: string, close: string, rest: string)
    ensures head + close + rest == head + (close + rest)
  {
  }

  lemma ReassociateList(head: string, tail: string, close: string, rest: string)
    ensures head + "," + tail + close + rest == head + ("," + (tail + close + rest))
  {
  }

  lemma ReadItemsCons(s: string, item: Json, items: seq<Json>, tail: string, rest: string)
    requires ReadValue(s) == Some((item, "," + tail))
    requires tail != "" && IsValueHead(tail[0]) && ReadItems(tail) == Some((items, rest))
    ensures ReadItems(s) == Some(([item] + items, rest))
  {
    assert ("," + tail)[1..] == tail;
  }

  lemma ReadItemsLast(s: string, item: Json, rest: string)
    requires ReadValue(s) == Some((item, "]" + rest))
    ensures ReadItems(s) == Some(([item], rest))
  {
    assert ("]" + rest)[1..] == rest;
  }

  lemma {:induction false} ReadRenderedItems(items: seq<Json>, rest: string)
    requires items != [] && forall item <- items :: IsIntegral(item)
    ensures ReadItems(RenderItems(items) + "]" + rest) == Some((items, rest))
    ensures RenderItems(items) != "" && IsValueHead(RenderItems(items)[0])
    decreases items, 1
  {
    var item, tail := items[0], items[1..];
    RenderHead(item);
    if tail == [] {
      assert items == [item];
      ReadRendered(item, "]" + rest);
      ReadItemsLast(Render(item) + ("]" + rest), item, rest);
      Reassociate(Render(item), "]", rest);
    } else {
      ReadRenderedItems(tail, rest);
      var after := RenderItems(tail) + "]" + rest;
      ReadRendered(item, "," + after);
      ReadItemsCons(Render(item) + ("," + after), item, tail, after, rest);
      ReassociateList(Render(item), RenderItems(tail), "]", rest);
      assert items == [item] + tail;
    }
  }

  lemma ReassociateMember(inner: string, text: string, rest: string)
    ensures "\"" + inner + "\"" + ":" + text + rest == "\"" + (inner + "\"" + (":" + (text + rest)))
  {
  }

  lemma ReassociateField(quoted: string, text: string, rest: string)
    ensures quoted + ":" + text + rest == quoted + (":" + (text + rest))
  {
  }

  lemma ReadMemberText(name: string, value: Json, text: string, rest: string)
    requires text != "" && IsValueHead(text[0]) && ReadValue(text + rest) == Some((value, rest))
    ensures ReadMember(Quoted(name) + ":" + text + rest) == Some((Member(name, value), rest))
  {
    var after := ":" + (text + rest);
    var body := Escaped(name) + "\"" + after;
    ReadPrinted(name, after);
    assert after[1..] == text + rest;
    ReassociateMember(Escaped(name), text, rest);
    ReadMemberParts("\"" + body, body, name, after, text + rest);
  }

  lemma ReadMemberParts(s: string, body: string, name: string, after: string, text: string)
    requires s == "\"" + body && ReadString(body) == Some((name, after))
    requires after != "" && after[0] == ':' && after[1..] == text && text != "" && IsValueHead(text[0])
    ensures ReadMember(s) == match ReadValue(text)
      case None => None
      case Some((value, rest)) => Some((Member(name, value), rest))
  {
    assert s[1..] == body;
  }

  lemma {:induction false} ReadRenderedMember(m: Member, rest: string)
    requires IsIntegral(m.value) && IsFollow(rest)
    ensures ReadMember(RenderMember(m) + rest) == Some((m, rest))
    decreases m, 1
  {
    RenderHead(m.value);
    ReadRendered(m.value, rest);
    ReadMemberText(m.name, m.value, Render(m.value), rest);
  }

  lemma ReadMembersCons(s: string, member: Member, members: seq<Member>, tail: string, rest: string)
    requires ReadMember(s) == Some((member, "," + tail))
    requires tail != "" && IsValueHead(tail[0]) && ReadMembers(tail) == Some((members, rest))
    ensures ReadMembers(s) == Some(([member] + members, rest))
  {
    assert ("," + tail)[1..] == tail;
  }

  lemma ReadMembersLast(s: string, member: Member, rest: string)
    requires ReadMember(s) == Some((member, "}" + rest))
    ensures ReadMembers(s) == Some(([member], rest))
  {
    assert ("}" + rest)[1..] == rest;
  }

  lemma MembersHead(members: seq<Member>)
    requires members != []
    ensures RenderMembers(members) != "" && RenderMembers(members)[0] == '"'
  {
    assert RenderMember(members[0])[0] == '"';
  }

  lemma {:induction false} ReadRenderedMembers(members: seq<Member>, rest: string)
    requires members != [] && forall m <- members :: IsIntegral(m.value)
    ensures ReadMembers(RenderMembers(members) + "}" + rest) == Some((members, rest))
    decreases members, 2
  {
    var member, tail := members[0], members[1..];
    assert members == [member] + tail;
    if tail == [] {
      assert members == [member];
      ReadRenderedMember(member, "}" + rest);
      ReadMembersLast(RenderMember(member) + ("}" + rest), member, rest);
      Reassociate(RenderMember(member), "}", rest);
    } else {
      var inner := RenderMembers(tail);
      var after := inner + "}" + rest;
      ReadRenderedMembers(tail, rest);
      MembersHead(tail);
      ReadRenderedMember(member, "," + after);
      ReadMembersCons(RenderMember(member) + ("," + after), member, tail, after, rest);
      ReassociateList(RenderMember(member), inner, "}", rest);
    }
  }

  /** Rendered text is one well-formed JSON text, and it reads back as the value it came from. */
  lemma ReadTextRendered(j: Json)
    requires IsIntegral(j)
    ensures ReadText(Render(j)) == Some(j)
  {
    ReadRendered(j, "");
    RenderHead(j);
    assert Render(j) + "" == Render(j);
  }

  lemma RenderInjective(a: Json, b: Json)
    requires IsIntegral(a) && IsIntegral(b) && Render(a) == Render(b)
    ensures a == b
  {
    ReadTextRendered(a);
    ReadTextRendered(b);
  }
}
