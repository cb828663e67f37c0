/** Source texts that differ in how a body literal is broken over lines. */
module BrokenSources {
  import opened Text
  import opened Ast
  import opened LiteralGrammar
  import opened ClauseLines
  import opened BracketScanner
  import opened BlockMachine
  import opened Tokens
  import opened Layout
  import opened BrokenLiterals
  import R = BlockRefinement

  // ---------------------------------------------------------------------------
  // The machine on the lines before

  /** The machine on some lines, with more to come. */
  function Advance(lines: seq<Numbered>, st: State): Outcome {
    if lines == [] then Running(st)
    else match Step(st, lines[0].text, lines[0].line)
      case Running(next) => Advance(lines[1..], next)
      case outcome => outcome
  }

  lemma {:induction false} RunAfter(lines: seq<Numbered>, more: seq<Numbered>, st: State, last: nat)
    ensures Run(lines + more, st, last) == R.Stored(Advance(lines, st), more, last)
    decreases |lines|
  {
    hide Step;
    if lines == [] {
      assert lines + more == more;
    } else {
      assert (lines + more)[0] == lines[0] && (lines + more)[1..] == lines[1..] + more;
      match Step(st, lines[0].text, lines[0].line)
      case Running(next) => RunAfter(lines[1..], more, next, last);
      case _ =>
    }
  }

  lemma {:induction false} AdvanceIsSound(lines: seq<Numbered>, st: State)
    requires Invariant(st)
    ensures IsSound(Advance(lines, st))
    decreases |lines|
  {
    hide Step, Invariant;
    if lines != [] {
      StepIsSound(st, lines[0].text, lines[0].line);
      match Step(st, lines[0].text, lines[0].line)
      case Running(next) => AdvanceIsSound(lines[1..], next);
      case _ =>
    }
  }

  // ---------------------------------------------------------------------------
  // Lines of texts put together

  predicate EndsLine(head: string) { head == "" || head[|head| - 1] == '\n' }

  lemma FirstLine(head: string) returns (line: string, more: string)
    requires EndsLine(head) && head != ""
    ensures head == line + ("\n" + more) && '\n' !in line && EndsLine(more)
  {
    assert '\n' in head;
    var parts := SplitOnce(head, '\n').value;
    line, more := parts.0, parts.1;
    assert head == line + ("\n" + more);
    assert more != "" ==> more[|more| - 1] == head[|head| - 1];
  }

  lemma {:induction false} LinesAppend(head: string, rest: string)
    requires EndsLine(head)
    ensures Lines(head + rest) == Lines(head) + Lines(rest)
    decreases |head|
  {
    hide DropCarriageReturn, Lines, EndsLine;
    if head == "" {
      assert head + rest == rest;
      NoLines();
    } else {
      var line, more := FirstLine(head);
      assert head + rest == line + ("\n" + (more + rest));
      LinesCons(line, more);
      LinesCons(line, more + rest);
      LinesAppend(more, rest);
    }
  }

  lemma NoLines()
    ensures Lines("") == []
  {
  }

  lemma {:induction false} SignificantAppend(a: seq<string>, b: seq<string>, n: nat)
    ensures Significant(a + b, n) == Significant(a, n) + Significant(b, n + |a|)
    decreases |a|
  {
    hide Trim, IsSkipped;
    if a == [] {
      assert a + b == b;
    } else {
      assert (a + b)[0] == a[0] && (a + b)[1..] == a[1..] + b;
      SignificantAppend(a[1..], b, n + 1);
    }
  }

  lemma {:induction false} TextsAppend(a: seq<Numbered>, b: seq<Numbered>)
    ensures Texts(a + b) == Texts(a) + Texts(b)
  {
    if a == [] {
      assert a + b == b;
    } else {
      assert (a + b)[0] == a[0] && (a + b)[1..] == a[1..] + b;
      TextsAppend(a[1..], b);
    }
  }

  // ---------------------------------------------------------------------------
  // A line and its breaks

  /** The blanks at a cut of the single line; the indentation and the text of the line that follows it. */
  datatype Row = Row(gap: string, indent: string, text: string)

  function Pieces(rows: seq<Row>, n: nat): (r: seq<Piece>)
    ensures |r| == |rows| && forall i | 0 <= i < |r| :: r[i].line.text == rows[i].text
  {
    if rows == [] then [] else [Piece(rows[0].gap, Numbered(rows[0].text, n))] + Pieces(rows[1..], n + 1)
  }

  function OnOneLine(first: string, rows: seq<Row>): string { Whole(first, Pieces(rows, 0)) }

  function OnManyLines(first: string, rows: seq<Row>): string
    decreases |rows|
  {
    if rows == [] then first else first + ("\n" + (rows[0].indent + OnManyLines(rows[0].text, rows[1..])))
  }

  function RowTexts(rows: seq<Row>): seq<string> { if rows == [] then [] else [rows[0].text] + RowTexts(rows[1..]) }

  predicate IsIndent(indent: string) { IsBlankText(indent) && '\n' !in indent }

  /** What the trimmed text of a line looks like. */
  predicate IsLineText(text: string) { text != "" && text == Trim(text) && '\n' !in text && text[0] != '#' }

  lemma {:induction false} IndentTrims(indent: string, text: string)
    requires IsBlankText(indent) && text != "" && text == Trim(text)
    ensures Trim(indent + text) == text
  {
    hide IsWhitespace, TrimEnd;
    if indent == "" {
      assert indent + text == text;
    } else {
      assert indent[0] in indent && (indent + text)[1..] == indent[1..] + text;
      IndentTrims(indent[1..], text);
    }
  }

  lemma NoCarriageReturn(indent: string, text: string)
    requires text != "" && text == Trim(text)
    ensures DropCarriageReturn(indent + text) == indent + text
  {
    assert !IsWhitespace(text[|text| - 1]);
    assert (indent + text)[|indent + text| - 1] == text[|text| - 1];
  }

  lemma LineTexts(indent: string, text: string, rest: string, n: nat)
    requires IsIndent(indent) && IsLineText(text)
    ensures Texts(Significant(Lines(indent + (text + ("\n" + rest))), n)) == [text] + Texts(Significant(Lines(rest), n))
  {
    hide Trim, Significant, Lines, Texts, DropCarriageReturn, IsWhitespace;
    assert indent + (text + ("\n" + rest)) == (indent + text) + ("\n" + rest);
    LinesCons(indent + text, rest);
    NoCarriageReturn(indent, text);
    IndentTrims(indent, text);
    SignificantCons(indent + text, Lines(rest), n);
    TextsIgnoreNumbers(Lines(rest), n + 1, n);
  }

  predicate AreLineTexts(first: string, rows: seq<Row>) {
    IsLineText(first) && forall r <- rows :: IsLineText(r.text) && IsIndent(r.indent)
  }

  lemma {:induction false} ManyLineTexts(indent: string, first: string, rows: seq<Row>, tail: string, n: nat)
    requires IsIndent(indent) && AreLineTexts(first, rows)
    ensures Texts(Significant(Lines(indent + (OnManyLines(first, rows) + ("\n" + tail))), n))
         == [first] + RowTexts(rows) + Texts(Significant(Lines(tail), n))
    decreases |rows|
  {
    hide IsIndent, IsLineText, Significant, Lines, Texts;
    if rows == [] {
      LineTexts(indent, first, tail, n);
    } else {
      var Row(_, below, text) := rows[0];
      assert rows[0] in rows && forall r <- rows[1..] :: r in rows;
      var rest := below + (OnManyLines(text, rows[1..]) + ("\n" + tail));
      OneBreak(indent, first, below, OnManyLines(text, rows[1..]), tail);
      LineTexts(indent, first, rest, n);
      ManyLineTexts(below, text, rows[1..], tail, n);
    }
  }

  lemma OneBreak(indent: string, first: string, below: string, more: string, tail: string)
    ensures indent + ((first + ("\n" + (below + more))) + ("\n" + tail))
         == indent + (first + ("\n" + (below + (more + ("\n" + tail)))))
  {
    var a := (first + ("\n" + (below + more))) + ("\n" + tail);
    var b := first + ("\n" + (below + (more + ("\n" + tail))));
    assert a == b;
  }

  lemma {:induction false} RowsAreTexts(rows: seq<Row>, n: nat)
    ensures Texts(Rows(Pieces(rows, n))) == RowTexts(rows)
  {
    if rows != [] {
      RowsAreTexts(rows[1..], n + 1);
      var pieces := Pieces(rows, n);
      assert pieces[1..] == Pieces(rows[1..], n + 1);
      assert Rows(pieces)[1..] == Rows(pieces[1..]);
    }
  }

  // ---------------------------------------------------------------------------
  // No line of an accepted literal looks like a comment

  lemma UsableIsNoComment(text: string)
    requires text != "" && forall t <- Lex(text) :: IsUsable(t)
    ensures text[0] != '#'
  {
    LexStep(text);
    if text[0] == '#' {
      var word := TakeUntil(text, EndsWord);
      HashIsUnusable(word);
    }
  }

  lemma HashIsUnusable(word: string)
    requires word != "" && word[0] == '#'
    ensures !IsUsable(Word(word))
  {
    assert word[0] in word;
  }

  lemma PieceIsNoComment(fields: seq<BodyField>, name: string, p: string, pieces: seq<Piece>)
    requires pieces != [] && '=' !in name
    requires CutBetweenTokens(name + "=" + p, pieces) && ParseBodyLine(fields, Whole(name + "=" + p, pieces)).Ok?
    ensures pieces[0].line.text[0] != '#'
  {
    hide Lex, ScanFrom, ParseBodyLine, Trim, EndsWord, IsUsable;
    var Piece(gap, line) := pieces[0];
    var prefix := name + "=" + p;
    var whole := Whole(prefix, pieces);
    WholeExtends(prefix + gap + line.text, pieces[1..]);
    var more := whole[|prefix + gap + line.text|..];
    var text := line.text + more;
    assert whole == name + ['='] + (p + (gap + text));
    SplitOnceAt(name, '=', p + (gap + text));
    RawTokens(fields, whole);
    PieceTokens(fields, name, p, pieces);
    CutSeparates(name, p, gap, text);
    LexAppend(p, gap + text);
    LexBlank(gap, text);
    assert forall t <- Lex(text) :: t in Lex(p) + Lex(text);
    UsableIsNoComment(text);
  }

  lemma {:induction false} RowsAreNoComments(fields: seq<BodyField>, name: string, p: string, pieces: seq<Piece>)
    requires '=' !in name
    requires CutBetweenTokens(name + "=" + p, pieces) && ParseBodyLine(fields, Whole(name + "=" + p, pieces)).Ok?
    ensures forall x <- pieces :: x.line.text != "" && x.line.text[0] != '#' && x.line.text == Trim(x.line.text)
    decreases pieces
  {
    hide ParseBodyLine, Trim, EndsWord, IsInsideBrackets;
    if pieces != [] {
      var Piece(gap, line) := pieces[0];
      AssociateText(name, p, gap, line.text);
      PieceIsNoComment(fields, name, p, pieces);
      RowsAreNoComments(fields, name, p + gap + line.text, pieces[1..]);
      assert pieces == [pieces[0]] + pieces[1..];
    }
  }

  lemma FirstIsNoComment(fields: seq<BodyField>, first: string, whole: string)
    requires first != "" && first == Trim(first) && first <= whole && ParseBodyLine(fields, whole).Ok?
    ensures first[0] != '#'
  {
    var (name, raw) := SplitOnce(whole, '=').value;
    hide IsWhitespace, ParseLiteral;
    assert !IsWhitespace(first[0]) by {
      assert first == TrimEnd(TrimStart(first));
    }
    assert name != "" ==> name[0] == first[0] && TrimStart(name) == name;
    NameStartsVisibly(Trim(name));
  }

  lemma NameStartsVisibly(name: string)
    requires IsIdentifier(name)
    ensures name[0] != '#'
  {
  }

  // ---------------------------------------------------------------------------
  // Two source texts

  /** Both sources give the same lines before and after the entry. */
  lemma SourceTexts(head: string, entry: string, n: nat)
    requires EndsLine(head) && n == |Lines(head)| + 1
    ensures Significant(Lines(head + entry), 1) == Significant(Lines(head), 1) + Significant(Lines(entry), n)
  {
    hide Lines, Significant;
    LinesAppend(head, entry);
    SignificantAppend(Lines(head), Lines(entry), 1);
  }

  /** The lines of the single-line source after the head. */
  lemma SingleLine(indent: string, whole: string, tail: string, n: nat)
    requires IsIndent(indent) && IsLineText(whole)
    ensures Significant(Lines(indent + (whole + ("\n" + tail))), n)
         == [Numbered(whole, n)] + Significant(Lines(tail), n + 1)
  {
    hide Trim, IsWhitespace, Lines, DropCarriageReturn;
    assert indent + (whole + ("\n" + tail)) == (indent + whole) + ("\n" + tail);
    LinesCons(indent + whole, tail);
    NoCarriageReturn(indent, whole);
    IndentTrims(indent, whole);
    var lines := [indent + whole] + Lines(tail);
    assert lines[1..] == Lines(tail);
  }

  lemma TightIsTrimmed(s: string)
    requires EndsTight(s) && !IsWhitespace(s[0])
    ensures s == Trim(s)
  {
  }

  lemma TrimmedIsTight(s: string)
    requires s != "" && s == Trim(s)
    ensures EndsTight(s) && !IsWhitespace(s[0])
  {
    assert TrimEnd(TrimStart(s)) == s;
  }

  /** The single line ends as its last part does, and holds every part. */
  lemma {:induction false} WholeHolds(prefix: string, pieces: seq<Piece>, c: char)
    requires EndsTight(prefix)
    requires forall x <- pieces :: x.line.text != "" && x.line.text == Trim(x.line.text)
    ensures EndsTight(Whole(prefix, pieces))
    ensures c in prefix || (exists x <- pieces :: c in x.line.text) ==> c in Whole(prefix, pieces)
    decreases pieces
  {
    hide IsWhitespace, Trim;
    if pieces != [] {
      var Piece(gap, line) := pieces[0];
      assert pieces == [pieces[0]] + pieces[1..];
      assert line.text != "" && line.text == Trim(line.text);
      TightText(prefix + gap, line.text);
      WholeHolds(prefix + gap + line.text, pieces[1..], c);
    }
  }

  lemma FirstOfWhole(fields: seq<BodyField>, first: string, pieces: seq<Piece>)
    requires CutBetweenTokens(first, pieces) && ParseBodyLine(fields, Whole(first, pieces)).Ok?
    ensures first != "" && first <= Whole(first, pieces)
    ensures forall x <- pieces :: x.line.text != "" && x.line.text[0] != '#' && x.line.text == Trim(x.line.text)
  {
    hide ParseBodyLine, Trim;
    WholeExtends(first, pieces);
    if pieces == [] {
      AcceptedIsNotEmpty(fields, first);
    } else {
      FirstLineHasName(fields, first, Whole(first, pieces));
      var (name, p) := SplitOnce(first, '=').value;
      assert first == name + "=" + p;
      RowsAreNoComments(fields, name, p, pieces);
    }
  }

  lemma AcceptedIsNotEmpty(fields: seq<BodyField>, line: string)
    requires ParseBodyLine(fields, line).Ok?
    ensures line != ""
  {
  }

  /** Every line of the broken entry is read as it stands, and so is the single line. */
  lemma EntryTexts(fields: seq<BodyField>, first: string, rows: seq<Row>)
    requires first == Trim(first) && forall r <- rows :: IsIndent(r.indent)
    requires '\n' !in OnOneLine(first, rows) && CutBetweenTokens(first, Pieces(rows, 0))
    requires ParseBodyLine(fields, OnOneLine(first, rows)).Ok?
    ensures AreLineTexts(first, rows) && IsLineText(OnOneLine(first, rows))
  {
    hide ParseBodyLine, Trim, IsWhitespace, CutBetweenTokens;
    var pieces, whole := Pieces(rows, 0), OnOneLine(first, rows);
    FirstOfWhole(fields, first, pieces);
    TrimmedIsTight(first);
    FirstIsNoComment(fields, first, whole);
    WholeHolds(first, pieces, '\n');
    TightIsTrimmed(whole);
    forall r <- rows ensures IsLineText(r.text) {
      var i :| 0 <= i < |rows| && rows[i] == r;
      assert pieces[i] in pieces;
    }
  }

  /** After these lines the machine is in a body, with these fields read and no unfinished value. */
  predicate OpensBody(head: string, fields: seq<BodyField>) {
    EndsLine(head) && match Advance(Significant(Lines(head), 1), INITIAL)
      case Running(st) =>
        AdvanceIsSound(Significant(Lines(head), 1), INITIAL);
        st.bodyOwner.Some? && st.pending.None? && R.Body(st, st.bodyOwner.value) == fields
      case _ => false
  }

  /** A source in which one line of a body is accepted, and the same source with that line broken inside
  brackets, outside strings and between tokens: the same specification is read, or an error of the same
  kind is reported. With `ErasingKeepsTheOutcome`, blank lines and comments may stand between the parts. */
  lemma BreakingKeepsTheOutcome(
      head: string, fields: seq<BodyField>, indent: string, first: string, rows: seq<Row>, tail: string)
    requires OpensBody(head, fields)
    requires IsIndent(indent) && first == Trim(first) && forall r <- rows :: IsIndent(r.indent)
    requires '\n' !in OnOneLine(first, rows) && CutBetweenTokens(first, Pieces(rows, 0))
    requires ParseBodyLine(fields, OnOneLine(first, rows)).Ok?
    ensures SameOutcome(
      Parse(head + (indent + (OnManyLines(first, rows) + ("\n" + tail)))),
      Parse(head + (indent + (OnOneLine(first, rows) + ("\n" + tail)))))
  {
    var n := |Lines(head)| + 1;
    var whole := OnOneLine(first, rows);
    var many, one := indent + (OnManyLines(first, rows) + ("\n" + tail)), indent + (whole + ("\n" + tail));
    var before, after := Significant(Lines(head), 1), Significant(Lines(tail), n + 1);
    var split := [Numbered(first, n)] + (Rows(Pieces(rows, 0)) + after);
    var last := LastLine(Lines(head + one));
    AdvanceIsSound(before, INITIAL);
    var st := Advance(before, INITIAL).state;
    hide Significant, Lines, Trim, Run, ParseBodyLine, CutBetweenTokens, SameOutcome, Texts, OnManyLines, Invariant;
    SourceTexts(head, many, n);
    SourceTexts(head, one, n);
    EntryTexts(fields, first, rows);
    SingleLine(indent, whole, tail, n);
    SplitTexts(indent, first, rows, tail, n);
    TextsAppend(before, Significant(Lines(many), n));
    TextsAppend(before, split);
    RunSame(before + Significant(Lines(many), n), before + split, INITIAL, INITIAL, LastLine(Lines(head + many)), last);
    RunAfter(before, split, INITIAL, last);
    RunAfter(before, [Numbered(whole, n)] + after, INITIAL, last);
    BreakingBetweenTokens(st, st.bodyOwner.value, Numbered(first, n), Pieces(rows, 0), after, last);
  }

  lemma SplitTexts(indent: string, first: string, rows: seq<Row>, tail: string, n: nat)
    requires IsIndent(indent) && AreLineTexts(first, rows)
    ensures Texts(Significant(Lines(indent + (OnManyLines(first, rows) + ("\n" + tail))), n))
         == Texts([Numbered(first, n)] + (Rows(Pieces(rows, 0)) + Significant(Lines(tail), n + 1)))
  {
    hide Significant, Lines, OnManyLines, AreLineTexts, Rows, Pieces, RowTexts;
    var after := Significant(Lines(tail), n + 1);
    ManyLineTexts(indent, first, rows, tail, n);
    TextsIgnoreNumbers(Lines(tail), n, n + 1);
    RowsAreTexts(rows, 0);
    TextsAppend(Rows(Pieces(rows, 0)), after);
    TextsAppend([Numbered(first, n)], Rows(Pieces(rows, 0)) + after);
    OneText(first, n);
  }

  lemma OneText(text: string, n: nat)
    ensures Texts([Numbered(text, n)]) == [text]
  {
    assert [Numbered(text, n)][1..] == [];
  }
}
