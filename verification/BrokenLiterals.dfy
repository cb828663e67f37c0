/** Literals broken over several lines: what the scanner promises about a line the parser accepts, and
why a break between tokens changes nothing. */
module BrokenLiterals {
  import opened Text
  import opened Ast
  import opened LiteralGrammar
  import opened ClauseLines
  import opened BracketScanner
  import opened BlockMachine
  import opened Tokens
  import R = BlockRefinement

  // ---------------------------------------------------------------------------
  // The scanner on a body line that the parser accepts

  lemma {:induction false} TrimEndScans(s: string)
    requires ScanFrom(TrimEnd(s), false, false, []) == End(false, false, [])
    ensures ScanFrom(s, false, false, []) == End(false, false, [])
  {
    if s != "" && IsWhitespace(s[|s| - 1]) {
      var t := s[..|s| - 1];
      var blank := [s[|s| - 1]];
      assert IsNeutral(blank[0]);
      TrimEndScans(t);
      hide TrimEnd, IsWhitespace, IsNeutral;
      assert s == t + blank;
      ScanSplit(t, blank, false, false, []);
      NeutralScan(blank);
    }
  }

  lemma BlankIsNeutral(c: char)
    requires IsWhitespace(c) || IsNameChar(c)
    ensures IsNeutral(c)
  {
  }

  lemma NameIsNeutral(name: string)
    requires IsIdentifier(Trim(name))
    ensures forall c <- name :: IsNeutral(c)
  {
    hide IsWhitespace, IsNameChar, IsNeutral, TrimStart, TrimEnd;
    TrimStartKeeps(name);
    TrimEndKeeps(TrimStart(name));
    var t := Trim(name);
    assert t == [t[0]] + t[1..];
    assert IsNameChar(t[0]) by {
      StartIsNameChar(t[0]);
    }
    forall c <- name ensures IsNeutral(c) {
      BlankIsNeutral(c);
    }
  }

  lemma StartIsNameChar(c: char)
    requires IsNameStart(c)
    ensures IsNameChar(c)
  {
  }

  lemma NeutralScan(s: string)
    requires forall c <- s :: IsNeutral(c)
    ensures ScanFrom(s, false, false, []) == End(false, false, [])
  {
    assert s[..|s|] == s;
    ScanNeutral(s, |s|, []);
  }

  /** A body line the parser accepts leaves the scanner outside quotes with an empty stack. */
  lemma AcceptedLineScans(fields: seq<BodyField>, line: string)
    requires ParseBodyLine(fields, line).Ok?
    ensures ScanFrom(line, false, false, []) == End(false, false, []) && IsComplete(line)
  {
    var (name, raw) := SplitOnce(line, '=').value;
    NameIsNeutral(name);
    assert (name + ['='])[..|name| + 1] == name + ['='];
    NeutralScan(name + ['=']);
    ScanSplit(name + ['='], raw, false, false, []);
    AcceptedLiteralScans(Trim(raw), []);
    TrimEndScans(TrimStart(raw));
    ScanWhitespace(raw, []);
  }

  /** No prefix of an accepted line meets a closer it does not expect, so a prefix is judged incomplete
  exactly when it ends outside a string with a bracket still open. */
  lemma PrefixOfAcceptedLine(fields: seq<BodyField>, line: string, n: nat)
    requires n <= |line| && ParseBodyLine(fields, line).Ok?
    ensures var scan := ScanFrom(line[..n], false, false, []);
      scan.End? && (!IsComplete(line[..n]) <==> !scan.quoted && scan.closers != [])
  {
    hide ParseBodyLine, ScanFrom;
    AcceptedLineScans(fields, line);
    assert line == line[..n] + line[n..];
    ScanSplit(line[..n], line[n..], false, false, []);
  }

  // ---------------------------------------------------------------------------
  // Tokens of texts put together

  predicate Separate(x: string, y: string) {
    x == "" || y == "" || EndsWord(x[|x| - 1]) || EndsWord(y[0])
  }

  lemma {:induction false} RawExtends(s: string, raw: string, more: string)
    requires ParseRaw(s, raw).Parsed?
    ensures ParseRaw(s + more, raw) == Parsed(ParseRaw(s, raw).value, ParseRaw(s, raw).rest + more)
    ensures var rest := ParseRaw(s, raw).rest; rest == s[|s| - |rest|..]
    decreases |s|
  {
    if s[0] == '"' {
      assert (s + more)[1..] == s[1..] + more;
    } else if s[0] == '\\' {
      assert (s + more)[2..] == s[2..] + more;
      RawExtends(s[2..], raw + [s[0], s[1]], more);
    } else {
      assert (s + more)[1..] == s[1..] + more;
      RawExtends(s[1..], raw + [s[0]], more);
    }
  }

  lemma LexStep(s: string)
    requires s != ""
    ensures IsWhitespace(s[0]) ==> Lex(s) == Lex(s[1..])
    ensures IsMark(s[0]) ==> Lex(s) == [Mark(s[0])] + Lex(s[1..])
    ensures s[0] == '"' ==> Lex(s) == LexQuote(s)
    ensures !EndsWord(s[0]) ==> var word := TakeUntil(s, EndsWord);
      word != "" && word[0] == s[0] && Lex(s) == [Word(word)] + Lex(s[|word|..])
  {
  }

  lemma Concatenate(head: seq<Token>, x: seq<Token>, y: seq<Token>)
    ensures head + (x + y) == head + x + y
    ensures Broken !in head + x ==> Broken !in x
  {
    assert forall t <- x :: t in head + x;
  }

  /** The tokens of two texts put together, where no word spans the seam. */
  lemma {:induction false} LexAppend(x: string, y: string)
    requires Broken !in Lex(x) && Separate(x, y)
    ensures Lex(x + y) == Lex(x) + Lex(y)
    decreases |x|
  {
    if x == "" {
      assert x + y == y;
    } else {
      hide Lex, LexQuote, IsWhitespace, IsMark, ParseRaw;
      LexStep(x);
      LexStep(x + y);
      assert (x + y)[1..] == x[1..] + y;
      if IsWhitespace(x[0]) {
        LexAppend(x[1..], y);
      } else if IsMark(x[0]) {
        Concatenate([Mark(x[0])], Lex(x[1..]), Lex(y));
        LexAppend(x[1..], y);
      } else if x[0] == '"' {
        LexAppendQuote(x, y);
      } else {
        LexAppendWord(x, y);
        var word := TakeUntil(x, EndsWord);
        Concatenate([Word(word)], Lex(x[|word|..]), Lex(y));
        LexAppend(x[|word|..], y);
      }
    }
  }

  lemma LexAppendWord(x: string, y: string)
    requires x != "" && !EndsWord(x[0]) && Separate(x, y)
    ensures var word := TakeUntil(x, EndsWord);
      Lex(x + y) == [Word(word)] + Lex(x[|word|..] + y) && Separate(x[|word|..], y)
  {
    hide Lex, IsWhitespace, IsMark;
    LexStep(x);
    var word := TakeUntil(x, EndsWord);
    assert (x + y)[|word|..] == x[|word|..] + y;
    if |word| == |x| {
      assert x[|x| - 1] in word;
    }
    LexWord(x + y, word);
  }

  lemma {:induction false} LexAppendQuote(x: string, y: string)
    requires Broken !in Lex(x) && Separate(x, y) && x != "" && x[0] == '"'
    ensures Lex(x + y) == Lex(x) + Lex(y)
    decreases |x|, 0
  {
    assert (x + y)[1..] == x[1..] + y;
    LexStep(x);
    LexStep(x + y);
    hide Lex, IsWhitespace, IsMark, ParseRaw;
    RawExtends(x[1..], "", y);
    var p := ParseRaw(x[1..], "");
    Concatenate([Quote(p.value)], Lex(p.rest), Lex(y));
    LexAppend(p.rest, y);
  }

  // ---------------------------------------------------------------------------
  // A text cut outside its strings

  lemma {:induction false} RawPrefix(s: string, more: string, raw: string, closers: seq<char>)
    requires ParseRaw(s + more, raw).Parsed?
    requires var scan := ScanFrom(s, true, false, closers); scan.End? && !scan.quoted
    ensures ParseRaw(s, raw).Parsed?
    decreases |s|
  {
    if s != "" && s[0] == '\\' && |s| > 1 {
      assert (s + more)[2..] == s[2..] + more;
      assert s[1..][1..] == s[2..];
      RawPrefix(s[2..], more, raw + [s[0], s[1]], closers);
    } else if s != "" && s[0] != '\\' && s[0] != '"' {
      assert (s + more)[1..] == s[1..] + more;
      RawPrefix(s[1..], more, raw + [s[0]], closers);
    }
  }

  lemma WordScans(x: string, word: string, closers: seq<char>)
    requires word <= x && forall c <- word :: !EndsWord(c)
    ensures ScanFrom(x, false, false, closers) == ScanFrom(x[|word|..], false, false, closers)
  {
    assert forall c :: !EndsWord(c) ==> IsNeutral(c);
    hide EndsWord, IsNeutral, ScanFrom;
    ScanNeutral(x, |word|, closers);
  }

  /** A prefix that ends outside strings has no broken quote if the whole text has none. */
  lemma {:induction false} UnbrokenPrefix(x: string, y: string, closers: seq<char>)
    requires Broken !in Lex(x + y)
    requires var scan := ScanFrom(x, false, false, closers); scan.End? && !scan.quoted
    ensures Broken !in Lex(x)
    decreases |x|
  {
    if x != "" {
      hide Lex, LexQuote, IsWhitespace, IsMark, ParseRaw;
      LexStep(x);
      LexStep(x + y);
      assert (x + y)[1..] == x[1..] + y;
      if x[0] == '"' {
        UnbrokenQuote(x, y, closers);
      } else if EndsWord(x[0]) {
        var inner := SymbolScans(x, closers);
        if IsMark(x[0]) {
          Concatenate([Mark(x[0])], Lex(x[1..] + y), []);
        }
        UnbrokenPrefix(x[1..], y, inner);
      } else {
        UnbrokenWord(x, y, closers);
      }
    }
  }

  lemma SymbolScans(x: string, closers: seq<char>) returns (inner: seq<char>)
    requires x != "" && x[0] != '"' && ScanFrom(x, false, false, closers).End?
    ensures ScanFrom(x[1..], false, false, inner) == ScanFrom(x, false, false, closers)
  {
    inner := if x[0] == '{' then closers + ['}'] else if x[0] == '[' then closers + [']']
      else if x[0] == '}' || x[0] == ']' then closers[..|closers| - 1] else closers;
  }

  lemma {:induction false} UnbrokenQuote(x: string, y: string, closers: seq<char>)
    requires Broken !in Lex(x + y) && x != "" && x[0] == '"'
    requires var scan := ScanFrom(x, false, false, closers); scan.End? && !scan.quoted
    ensures Broken !in Lex(x)
    decreases |x|, 0
  {
    assert (x + y)[1..] == x[1..] + y;
    LexStep(x);
    LexStep(x + y);
    assert ParseRaw(x[1..] + y, "").Parsed?;
    RawPrefix(x[1..], y, "", closers);
    RawExtends(x[1..], "", y);
    ScanRaw(x[1..], "", closers);
    hide Lex, ParseRaw, ScanFrom;
    var p := ParseRaw(x[1..], "");
    Concatenate([Quote(p.value)], Lex(p.rest + y), []);
    UnbrokenPrefix(p.rest, y, closers);
  }

  lemma {:induction false} UnbrokenWord(x: string, y: string, closers: seq<char>)
    requires Broken !in Lex(x + y) && x != "" && !EndsWord(x[0])
    requires var scan := ScanFrom(x, false, false, closers); scan.End? && !scan.quoted
    ensures Broken !in Lex(x)
    decreases |x|, 0
  {
    hide Lex, IsWhitespace, IsMark, ScanFrom, EndsWord;
    LexStep(x);
    var word := TakeUntil(x, EndsWord);
    WordScans(x, word, closers);
    var rest := x[|word|..];
    if rest == "" {
      NoText();
    } else {
      assert x + y == word + (rest + y);
      assert (x + y)[|word|..] == rest + y;
      LexWord(x + y, word);
      Concatenate([Word(word)], Lex(rest + y), []);
      UnbrokenPrefix(rest, y, closers);
    }
  }

  lemma NoText()
    ensures Lex("") == []
  {
  }

  predicate IsBlankText(gap: string) { forall c <- gap :: IsWhitespace(c) }

  lemma {:induction false} LexBlank(gap: string, line: string)
    requires IsBlankText(gap)
    ensures Lex(gap + line) == Lex(line)
    ensures forall closers :: ScanFrom(gap + line, false, false, closers) == ScanFrom(line, false, false, closers)
  {
    if gap == "" {
      assert gap + line == line;
    } else {
      assert gap[0] in gap && (gap + line)[1..] == gap[1..] + line;
      LexBlank(gap[1..], line);
    }
  }

  // ---------------------------------------------------------------------------
  // A line broken into pieces

  /** The whitespace where the single line was cut, and the numbered line that follows the cut. */
  datatype Piece = Piece(gap: string, line: Numbered)

  /** The single line. */
  function Whole(prefix: string, pieces: seq<Piece>): string
    decreases pieces
  {
    if pieces == [] then prefix else Whole(prefix + pieces[0].gap + pieces[0].line.text, pieces[1..])
  }

  function Rows(pieces: seq<Piece>): seq<Numbered> {
    if pieces == [] then [] else [pieces[0].line] + Rows(pieces[1..])
  }

  lemma {:induction false} WholeExtends(prefix: string, pieces: seq<Piece>)
    ensures prefix <= Whole(prefix, pieces)
    decreases pieces
  {
    if pieces != [] {
      WholeExtends(prefix + pieces[0].gap + pieces[0].line.text, pieces[1..]);
    }
  }

  predicate IsInsideBrackets(prefix: string) {
    match ScanFrom(prefix, false, false, [])
    case Unmatched => false
    case End(quoted, _, closers) => !quoted && closers != []
  }

  /** Every cut falls inside a bracket, outside strings, and between two tokens. */
  predicate CutBetweenTokens(prefix: string, pieces: seq<Piece>)
    decreases pieces
  {
    pieces == [] || (
      && IsInsideBrackets(prefix)
      && var Piece(gap, line) := pieces[0];
      && IsBlankText(gap)
      && line.text != "" && line.text == Trim(line.text)
      && (gap != "" || EndsWord(prefix[|prefix| - 1]) || EndsWord(line.text[0]))
      && CutBetweenTokens(prefix + gap + line.text, pieces[1..]))
  }

  // ---------------------------------------------------------------------------
  // The same tokens give the same field

  /** The raw value of a body line. */
  function AfterEquals(line: string): string {
    match SplitOnce(line, '=')
    case None => ""
    case Some((_, raw)) => raw
  }

  predicate EndsTight(s: string) { s != "" && !IsWhitespace(s[|s| - 1]) }

  lemma {:induction false} TightTrim(s: string)
    requires EndsTight(s)
    ensures Lex(Trim(s)) == Lex(s)
  {
    hide Lex;
    LexSkips(s);
    TightTrimStart(s);
  }

  lemma {:induction false} TightTrimStart(s: string)
    requires EndsTight(s)
    ensures EndsTight(TrimStart(s))
  {
    if IsWhitespace(s[0]) {
      TightTrimStart(s[1..]);
    }
  }

  lemma SameTokensSameField(fields: seq<BodyField>, name: string, p: string, j: string)
    requires '=' !in name && Lex(p) == Lex(j) && EndsTight(p) && EndsTight(j)
    requires ParseBodyLine(fields, name + "=" + p).Ok?
    ensures ParseBodyLine(fields, name + "=" + j) == ParseBodyLine(fields, name + "=" + p)
  {
    hide Lex, Trim, ParseLiteral;
    SplitOnceAt(name, '=', p);
    SplitOnceAt(name, '=', j);
    TightTrim(p);
    TightTrim(j);
    SameTokensSameLiteral(Trim(p), Trim(j), ParseLiteral(Trim(p)).value);
  }

  // ---------------------------------------------------------------------------
  // One more piece

  lemma {:induction false} NotEscapedOutside(s: string, quoted: bool, escaped: bool, closers: seq<char>)
    requires escaped ==> quoted
    ensures var scan := ScanFrom(s, quoted, escaped, closers); scan.End? && scan.escaped ==> scan.quoted
  {
    if s != "" {
      if quoted {
        NotEscapedOutside(s[1..], escaped || s[0] == '\\' || s[0] != '"', !escaped && s[0] == '\\', closers);
      } else if s[0] == '"' {
        NotEscapedOutside(s[1..], true, false, closers);
      } else if s[0] == '{' {
        NotEscapedOutside(s[1..], false, false, closers + ['}']);
      } else if s[0] == '[' {
        NotEscapedOutside(s[1..], false, false, closers + [']']);
      } else if s[0] == '}' || s[0] == ']' {
        if closers != [] {
          NotEscapedOutside(s[1..], false, false, closers[..|closers| - 1]);
        }
      } else {
        NotEscapedOutside(s[1..], false, false, closers);
      }
    }
  }

  lemma ScanMore(prefix: string, gap: string, text: string)
    requires IsInsideBrackets(prefix) && IsBlankText(gap)
    ensures ScanFrom(prefix + gap + text, false, false, [])
         == ScanFrom(text, false, false, ScanFrom(prefix, false, false, []).closers)
  {
    NotEscapedOutside(prefix, false, false, []);
    assert prefix + gap + text == prefix + (gap + text);
    ScanSplit(prefix, gap + text, false, false, []);
    LexBlank(gap, text);
  }

  lemma LexMore(p: string, gap: string, text: string)
    requires Broken !in Lex(p) && Broken !in Lex(text) && IsBlankText(gap) && Separate(p, gap + text)
    ensures Lex(p + gap + text) == Lex(p) + Lex(text) && Broken !in Lex(p + gap + text)
  {
    hide Lex;
    assert p + gap + text == p + (gap + text);
    LexAppend(p, gap + text);
    LexBlank(gap, text);
  }

  lemma CutSeparates(head: string, p: string, gap: string, text: string)
    requires text != "" && IsBlankText(gap)
    requires gap != "" || EndsWord((head + "=" + p)[|head + "=" + p| - 1]) || EndsWord(text[0])
    ensures Separate(p, gap + text)
  {
    var line := head + "=" + p;
    if p != "" {
      assert line[|line| - 1] == p[|p| - 1];
      if gap != "" {
        assert gap[0] in gap && (gap + text)[0] == gap[0];
      } else {
        assert gap + text == text;
      }
    }
  }

  lemma TightText(before: string, text: string)
    requires text != "" && text == Trim(text)
    ensures EndsTight(before + text)
  {
    assert (before + text)[|before + text| - 1] == text[|text| - 1];
  }

  lemma AssociateText(head: string, p: string, gap: string, text: string)
    ensures head + "=" + p + gap + text == head + "=" + (p + gap + text)
  {
  }

  // ---------------------------------------------------------------------------
  // The tokens of an accepted line, and of what stands before a cut

  lemma {:induction false} LexTrimEnd(s: string)
    requires Broken !in Lex(TrimEnd(s))
    ensures Lex(s) == Lex(TrimEnd(s))
  {
    if s != "" && IsWhitespace(s[|s| - 1]) {
      var t, blank := s[..|s| - 1], [s[|s| - 1]];
      LexTrimEnd(t);
      hide TrimEnd, IsWhitespace;
      assert s == t + blank;
      BlankTokens(blank);
      LexAppend(t, blank);
    }
  }

  lemma BlankTokens(blank: string)
    requires |blank| == 1 && IsWhitespace(blank[0])
    ensures Lex(blank) == [] && EndsWord(blank[0])
  {
    hide IsWhitespace;
  }

  lemma UsableIsUnbroken(ts: seq<Token>)
    requires forall t <- ts :: IsUsable(t)
    ensures Broken !in ts
  {
    assert !IsUsable(Broken);
  }

  lemma RawTokens(fields: seq<BodyField>, line: string)
    requires ParseBodyLine(fields, line).Ok?
    ensures forall t <- Lex(AfterEquals(line)) :: IsUsable(t)
  {
    hide Lex, IsUsable, TrimStart, TrimEnd, ParseLiteral, IsIdentifier;
    var raw := AfterEquals(line);
    AcceptedTokens(Trim(raw));
    UsableIsUnbroken(Lex(Trim(raw)));
    LexTrimEnd(TrimStart(raw));
    LexSkips(raw);
  }

  lemma PrefixTokens(fields: seq<BodyField>, name: string, q: string, whole: string)
    requires '=' !in name && name + "=" + q <= whole && ParseBodyLine(fields, whole).Ok?
    requires var scan := ScanFrom(name + "=" + q, false, false, []); scan.End? && !scan.quoted
    ensures Broken !in Lex(q)
  {
    hide Lex, IsUsable, ScanFrom, ParseLiteral, TrimStart, TrimEnd, IsIdentifier;
    var more := whole[|name + "=" + q|..];
    assert whole == name + ['='] + (q + more);
    SplitOnceAt(name, '=', q + more);
    RawTokens(fields, whole);
    UsableIsUnbroken(Lex(q + more));
    NameScans(fields, name, q + more, q);
    UnbrokenPrefix(q, more, []);
  }

  lemma NameScans(fields: seq<BodyField>, name: string, raw: string, q: string)
    requires '=' !in name && ParseBodyLine(fields, name + ['='] + raw).Ok?
    ensures ScanFrom(name + "=" + q, false, false, []) == ScanFrom(q, false, false, [])
  {
    hide ScanFrom, ParseLiteral, TrimStart, TrimEnd, IsNeutral;
    SplitOnceAt(name, '=', raw);
    NameIsNeutral(name);
    var head := name + "=";
    EqualsIsNeutral();
    assert forall c <- head :: IsNeutral(c);
    NeutralScan(head);
    ScanSplit(head, q, false, false, []);
  }

  lemma EqualsIsNeutral()
    ensures IsNeutral('=')
  {
  }

  /** What stands before a cut, and what stands between it and the next, has no broken quote. */
  lemma PieceTokens(fields: seq<BodyField>, name: string, p: string, pieces: seq<Piece>)
    requires pieces != [] && '=' !in name
    requires CutBetweenTokens(name + "=" + p, pieces) && ParseBodyLine(fields, Whole(name + "=" + p, pieces)).Ok?
    ensures Broken !in Lex(p) && Broken !in Lex(pieces[0].line.text)
  {
    hide Lex, ScanFrom, ParseBodyLine, Trim, EndsWord;
    var Piece(gap, line) := pieces[0];
    var whole, q := Whole(name + "=" + p, pieces), p + gap + line.text;
    AssociateText(name, p, gap, line.text);
    WholeExtends(name + "=" + q, pieces[1..]);
    PrefixExtends(name + "=" + p, gap + line.text, whole);
    PrefixTokens(fields, name, p, whole);
    if pieces[1..] == [] {
      AcceptedLineScans(fields, whole);
    }
    PrefixTokens(fields, name, q, whole);
    CutSeparates(name, p, gap, line.text);
    LexAppend(p, gap + line.text);
    LexBlank(gap, line.text);
    assert q == p + (gap + line.text);
    Concatenate(Lex(p), Lex(line.text), []);
  }

  lemma PrefixExtends(x: string, y: string, whole: string)
    requires x + y <= whole
    ensures x <= whole
  {
  }

  // ---------------------------------------------------------------------------
  // Feeding the pieces to the machine

  lemma StoreSame(st: State, owner: BodyOwner, a: string, b: string, n: nat)
    requires Invariant(st) && st.bodyOwner == Some(owner)
    requires ParseBodyLine(R.Body(st, owner), a) == ParseBodyLine(R.Body(st, owner), b)
    ensures Store(st, owner, a, n) == Store(st, owner, b, n)
  {
    hide ParseBodyLine;
  }

  lemma RunStep(first: Numbered, more: seq<Numbered>, st: State, last: nat)
    ensures Run([first] + more, st, last) == R.Stored(Step(st, first.text, first.line), more, last)
  {
    assert ([first] + more)[1..] == more;
  }

  /** The pending text and the single line so far hold the same tokens and look alike to the scanner. */
  lemma {:induction false} Feed(
      st: State, owner: BodyOwner, n: nat, name: string, p: string, j: string, pieces: seq<Piece>, more: seq<Numbered>,
      last: nat)
    requires Invariant(st) && st.bodyOwner == Some(owner) && st.pending.None?
    requires pieces != [] && '=' !in name
    requires Lex(p) == Lex(j)
    requires ScanFrom(name + "=" + p, false, false, []) == ScanFrom(name + "=" + j, false, false, [])
    requires CutBetweenTokens(name + "=" + p, pieces)
    requires ParseBodyLine(R.Body(st, owner), Whole(name + "=" + p, pieces)).Ok?
    ensures Run(Rows(pieces) + more, st.(pending := Some(Pending(name + "=" + j, n))), last)
         == R.Stored(Store(st, owner, Whole(name + "=" + p, pieces), n), more, last)
    decreases pieces
  {
    hide Lex, ScanFrom, ParseBodyLine, Invariant, Store, Trim, EndsWord;
    var Piece(gap, line) := pieces[0];
    var tail := pieces[1..];
    var p', j' := p + gap + line.text, j + " " + line.text;
    PieceTokens(R.Body(st, owner), name, p, pieces);
    CutSeparates(name, p, gap, line.text);
    LexMore(p, gap, line.text);
    assert Separate(j, " " + line.text) by {
      BlankEndsWord();
    }
    LexMore(j, " ", line.text);
    ScanMore(name + "=" + p, gap, line.text);
    ScanMore(name + "=" + j, " ", line.text);
    AssociateText(name, p, gap, line.text);
    AssociateText(name, j, " ", line.text);
    var pending := st.(pending := Some(Pending(name + "=" + j, n)));
    assert Rows(pieces) + more == [line] + (Rows(tail) + more);
    RunStep(line, Rows(tail) + more, pending, last);
    if tail == [] {
      AcceptedLineScans(R.Body(st, owner), name + "=" + p');
      TightText(p + gap, line.text);
      TightText(j + " ", line.text);
      SameTokensSameField(R.Body(st, owner), name, p', j');
      StoreSame(st, owner, name + "=" + p', name + "=" + j', n);
      assert pending.(pending := None) == st;
      assert Rows(tail) + more == more;
    } else {
      Feed(st, owner, n, name, p', j', tail, more, last);
    }
  }

  lemma BlankEndsWord()
    ensures EndsWord(' ')
  {
  }

  /** A first line that ends inside a bracket contains the equals sign. */
  lemma FirstLineHasName(fields: seq<BodyField>, first: string, whole: string)
    requires first <= whole && ParseBodyLine(fields, whole).Ok? && IsInsideBrackets(first)
    ensures SplitOnce(first, '=').Some?
  {
    hide IsNeutral, ScanFrom, Trim, IsIdentifier, ParseLiteral;
    var (name, raw) := SplitOnce(whole, '=').value;
    assert whole[|name|] == '=';
    assert |name| < |first| ==> first[|name|] == whole[|name|];
    if '=' !in first {
      assert first == name[..|first|];
      NameIsNeutral(name);
      NeutralScan(first);
    }
  }

  /** A literal broken over lines between its tokens is read as if it stood on one line: the machine
  goes on, or ends, exactly as it does on the single line. */
  lemma BreakingBetweenTokens(
      st: State, owner: BodyOwner, first: Numbered, pieces: seq<Piece>, more: seq<Numbered>, last: nat)
    requires Invariant(st) && st.bodyOwner == Some(owner) && st.pending.None?
    requires CutBetweenTokens(first.text, pieces)
    requires ParseBodyLine(R.Body(st, owner), Whole(first.text, pieces)).Ok?
    ensures Run([first] + (Rows(pieces) + more), st, last)
         == Run([Numbered(Whole(first.text, pieces), first.line)] + more, st, last)
  {
    if pieces == [] {
      assert Rows(pieces) + more == more;
    } else {
      var whole := Whole(first.text, pieces);
      var fields := R.Body(st, owner);
      WholeExtends(first.text, pieces);
      FirstLineHasName(fields, first.text, whole);
      AcceptedLineScans(fields, whole);
      assert whole != "}" && first.text != "}";
      var (name, p) := SplitOnce(first.text, '=').value;
      hide Lex, ScanFrom, ParseBodyLine, Invariant, Store, Trim, EndsWord, CutBetweenTokens, Whole, SplitOnce;
      RunStep(first, Rows(pieces) + more, st, last);
      RunStep(Numbered(whole, first.line), more, st, last);
      Feed(st, owner, first.line, name, p, p, pieces, more, last);
    }
  }
}
