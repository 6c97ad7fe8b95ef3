/** The line numbers that a reader of the marked text gives to its instructions. */
module PtxLines {
  import opened Wrappers
  import opened PtxText
  import opened PtxLex
  import opened PtxComments
  import opened PtxScan
  import opened PtxNormalize
  import opened PtxMarkers
  import opened PtxMarkStream
  import opened PtxMark
  import opened PtxWeave
  import opened PtxGuide
  import opened PtxPipeline

  // ----- reading `.loc` directives -----

  predicate IsDigitToken(x: Stream) {
    x.Cons? && |x.tok| == 1 && IsDigit(x.tok[0])
  }

  /** The digits of the number at the front of the stream, and what follows it. */
  function NumberAt(x: Stream): (r: (string, Stream))
    ensures AllDigits(r.0)
  {
    if !IsDigitToken(x) then ("", x)
    else if x.rest.gap == "" && IsDigitToken(x.rest) then
      var (digits, rest) := NumberAt(x.rest);
      (x.tok + digits, rest)
    else (x.tok, x.rest)
  }

  predicate StartsLoc(m: Mode, x: Stream) {
    x.Cons? && x.tok == ".loc" && Begins(m, x.tok, Head(x.rest))
  }

  /** What a `.loc` directive says: the file's index, the line and the column. */
  datatype Loc = Loc(file: nat, line: nat, column: nat)

  /** The three numbers of the `.loc` directive that `x` starts with. */
  function LocOf(x: Stream): Loc
    requires x.Cons?
  {
    var file := NumberAt(x.rest);
    var line := NumberAt(file.1);
    var column := NumberAt(line.1);
    Loc(DecimalValue(file.0), DecimalValue(line.0), DecimalValue(column.0))
  }

  function LastLoc(m: Mode, x: Stream, last: Option<Loc>): Option<Loc>
    requires x.Cons?
  {
    if StartsLoc(m, x) then Some(LocOf(x)) else last
  }

  /** For each completed instruction, what the last `.loc` directive before it says. */
  function LocLines(m: Mode, x: Stream, last: Option<Loc>): seq<Option<Loc>>
    decreases x
  {
    if x.End? then []
    else (if StartsInstruction(m, x) then [last] else []) + LocLines(After(m, x), x.rest, LastLoc(m, x, last))
  }

  lemma LinesTake(m: Mode, x: Stream, last: Option<Loc>)
    requires StartsInstruction(m, x)
    ensures LocLines(m, x, last) == [last] + LocLines(After(m, x), x.rest, last)
  {
    hide Step;
    assert !StartsLoc(m, x);
  }

  lemma LinesSkip(m: Mode, x: Stream, last: Option<Loc>)
    requires x.Cons? && !StartsInstruction(m, x)
    ensures LocLines(m, x, last) == LocLines(After(m, x), x.rest, LastLoc(m, x, last))
  {
    hide Step, StartsInstruction, LastLoc;
  }

  // ----- the inserted directives -----

  lemma {:induction false} NumberRead(gap: string, digits: string, y: Stream)
    requires digits != "" && AllDigits(digits) && (y.gap != "" || !IsDigitToken(y))
    ensures NumberAt(Digits(gap, digits, y)) == (digits, y)
    decreases |digits|
  {
    assert digits[..1][0] == digits[0];
    if |digits| == 1 {
      assert digits[..1] == digits;
    } else {
      NumberRead("", digits[1..], y);
      DigitsGap("", digits[1..], y);
      assert IsDigitToken(Digits("", digits[1..], y)) by { assert digits[1..][..1][0] == digits[1]; }
      Split(digits, 1);
    }
  }

  /** Digits are read in a line directive, or outside every body, without effect. */
  lemma {:induction false} DigitsRead(m: Mode, gap: string, digits: string, y: Stream, last: Option<Loc>)
    requires digits != "" && AllDigits(digits)
    requires m.Module? || (m.stmt == Directive(true) && '\n' !in y.gap)
    ensures LocLines(m, Digits(gap, digits, y), last) == LocLines(m, y, last)
    decreases |digits|
  {
    var x := Digits(gap, digits, y);
    DigitStep(m, gap, digits, y);
    LinesSkip(m, x, last);
    if |digits| > 1 {
      DigitsRead(m, "", digits[1..], y, last);
    }
  }

  lemma DigitStep(m: Mode, gap: string, digits: string, y: Stream)
    requires digits != "" && AllDigits(digits)
    requires m.Module? || (m.stmt == Directive(true) && '\n' !in y.gap)
    ensures var x := Digits(gap, digits, y);
            After(m, x) == m && !StartsInstruction(m, x) && !StartsLoc(m, x)
  {
    var x := Digits(gap, digits, y);
    assert |x.tok| == 1 && x.tok[0] == digits[0] && IsDigit(x.tok[0]);
    if |digits| > 1 {
      DigitsGap("", digits[1..], y);
    }
    assert x.tok != ";" && !OpensFunction(x.tok) && !OpensScope(x.tok);
    assert m.Body? ==> Current(m, x.tok, Head(x.rest)) == Directive(true);
  }

  /** An inserted `.loc` gives its file and line to what follows. */
  lemma LocRead(m: Mode, gap: string, f: string, l: string, y: Stream, last: Option<Loc>)
    requires f != "" && AllDigits(f) && l != "" && AllDigits(l)
    requires m.Body? && m.stmt == Idle && '\n' in y.gap
    ensures LocLines(m, LocStream(gap, f, l, y), last)
         == LocLines(m, y, Some(Loc(DecimalValue(f), DecimalValue(l), 0)))
  {
    hide DecimalValue, LocLines;
    var zero := Cons(" ", "0", y);
    var line := Digits(" ", l, zero);
    var index := Digits(" ", f, line);
    var x := Cons(gap, ".loc", index);
    var d := m.(stmt := Directive(true));
    var loc := Some(Loc(DecimalValue(f), DecimalValue(l), 0));
    assert index.tok[0] == f[0];
    assert After(m, x) == d && !StartsInstruction(m, x) && StartsLoc(m, x);
    DigitsGap(" ", l, zero);
    NumberRead(" ", f, line);
    NumberRead(" ", l, zero);
    ZeroRead(y);
    LinesSkip(m, x, last);
    DigitsRead(d, " ", f, line, loc);
    DigitsRead(d, " ", l, zero, loc);
    assert After(d, zero) == m && !StartsInstruction(d, zero);
    LinesSkip(d, zero, loc);
  }

  lemma ZeroRead(y: Stream)
    requires y.gap != ""
    ensures var zero := Cons(" ", "0", y); DecimalValue(NumberAt(zero).0) == 0
  {
    assert "0"[..0] == "";
  }

  lemma FileRead(m: Mode, f: string, q: string, y: Stream, last: Option<Loc>)
    requires Parts(f, q) && m.Module?
    ensures LocLines(m, FileStream(f, q, y), last) == LocLines(m, y, last)
  {
    hide LocLines;
    var z := AddGap("\n", y);
    var name := Cons(" ", q, z);
    var index := Digits(" ", f, name);
    var x := Cons("\n", ".file", index);
    assert After(m, x) == m;
    LinesSkip(m, x, last);
    DigitsRead(m, " ", f, name, last);
    assert q[0] == '"' && After(m, name) == m;
    LinesSkip(m, name, last);
    GapUnread(m, "\n", y, last);
  }

  lemma GapUnread(m: Mode, gap: string, y: Stream, last: Option<Loc>)
    ensures LocLines(m, AddGap(gap, y), last) == LocLines(m, y, last)
  {
    if y.Cons? {
      var z := AddGap(gap, y);
      assert HasSemi(z) <==> HasSemi(y);
    }
  }

  // ----- the marked stream -----

  /** For each instruction of the source stream, the line of its semicolon in file `f`. */
  function SemiLines(m: Mode, x: Stream, f: nat, n: nat): seq<Option<Loc>>
    decreases x
  {
    if x.End? then []
    else
      (if StartsInstruction(m, x) then [Some(Loc(f, MarkLine(x, n), 0))] else [])
      + SemiLines(After(m, x), x.rest, f, n + Newlines(x.gap + x.tok))
  }

  lemma SemiTake(m: Mode, x: Stream, f: nat, n: nat)
    requires StartsInstruction(m, x)
    ensures SemiLines(m, x, f, n)
         == [Some(Loc(f, MarkLine(x, n), 0))] + SemiLines(After(m, x), x.rest, f, n + Newlines(x.gap + x.tok))
  {
    hide Step, MarkLine, Newlines;
  }

  lemma SemiSkip(m: Mode, x: Stream, f: nat, n: nat)
    requires x.Cons? && !StartsInstruction(m, x)
    ensures SemiLines(m, x, f, n) == SemiLines(After(m, x), x.rest, f, n + Newlines(x.gap + x.tok))
  {
    hide Step, StartsInstruction, Newlines;
  }

  lemma RestRead(m: Mode, x: Stream, f: string, n: nat, a: nat, q: string, last: Option<Loc>)
    requires Parts(f, q) && Closed(x) && x.Cons? && Boundary(m, x, a)
    ensures var k := |x.gap| + |x.tok|;
            var tail := Mark(After(m, x), x.rest, f, n + Newlines(x.gap + x.tok), Less(a, k), q);
            LocLines(After(m, x), MarkRest(m, x, f, n, a, q), last) == LocLines(After(m, x), tail, last)
    ensures Boundary(After(m, x), x.rest, Less(a, |x.gap| + |x.tok|))
  {
    hide Step, LocLines, FileStream, Mark, Newlines;
    ClosedHead(x);
    var k := |x.gap| + |x.tok|;
    if a == k {
      FileRead(After(m, x), f, q, Mark(After(m, x), x.rest, f, n + Newlines(x.gap + x.tok), Less(a, k), q), last);
    }
  }

  /** In the marked stream the last `.loc` before each instruction is its own marker. */
  lemma {:induction false} MarkRead(m: Mode, x: Stream, f: string, n: nat, a: nat, q: string, last: Option<Loc>)
    requires Parts(f, q) && Closed(x) && Boundary(m, x, a)
    ensures LocLines(m, Mark(m, x, f, n, a, q), last) == SemiLines(m, x, DecimalValue(f), n)
    decreases x
  {
    hide Step, StartsInstruction, LocLines, SemiLines, Boundary, Closed, Newlines, MarkLine, MarkRest, LocStream, Decimal,
         RestGap, MarkGap, DecimalValue;
    if x.End? {
      NothingRead(m, x, f, n, a, q, last);
    } else {
      ClosedHead(x);
      var n' := n + Newlines(x.gap + x.tok);
      var a' := Less(a, |x.gap| + |x.tok|);
      if StartsInstruction(m, x) {
        StartFacts(m, x);
        var line := MarkLine(x, n);
        var gap := "\n" + RestGap(x.gap);
        var y := Cons(gap, x.tok, MarkRest(m, x, f, n, a, q));
        MarkStep(m, x, gap, f, n, a, q);
        assert gap[0] == '\n';
        LocRead(m, MarkGap(x.gap), f, Decimal(line), y, last);
        DecimalRoundTrip(line);
        var loc := Some(Loc(DecimalValue(f), line, 0));
        LinesTake(m, y, loc);
        RestRead(m, x, f, n, a, q, loc);
        MarkRead(After(m, x), x.rest, f, n', a', q, loc);
        SemiTake(m, x, DecimalValue(f), n);
      } else {
        var y := Cons(x.gap, x.tok, MarkRest(m, x, f, n, a, q));
        MarkStep(m, x, x.gap, f, n, a, q);
        LinesSkip(m, y, last);
        RestRead(m, x, f, n, a, q, LastLoc(m, y, last));
        MarkRead(After(m, x), x.rest, f, n', a', q, LastLoc(m, y, last));
        SemiSkip(m, x, DecimalValue(f), n);
      }
    }
  }

  lemma NothingRead(m: Mode, x: Stream, f: string, n: nat, a: nat, q: string, last: Option<Loc>)
    requires x.End? && f != "" && AllDigits(f)
    ensures LocLines(m, Mark(m, x, f, n, a, q), last) == SemiLines(m, x, DecimalValue(f), n)
  {
  }

  // ----- the new file -----

  /** Outside every body the text declares a file with this index and name. */
  predicate Declares(m: Mode, x: Stream, index: nat, q: string)
    decreases x
  {
    x.Cons? &&
    ((m.Module? && x.tok == ".file" &&
      DecimalValue(NumberAt(x.rest).0) == index && Head(NumberAt(x.rest).1) == q) ||
     Declares(After(m, x), x.rest, index, q))
  }

  lemma DeclaresLater(m: Mode, x: Stream, index: nat, q: string)
    requires x.Cons? && Declares(After(m, x), x.rest, index, q)
    ensures Declares(m, x, index, q)
  {
    hide Step;
  }

  lemma {:induction false} DigitsDeclare(m: Mode, gap: string, digits: string, y: Stream, index: nat, q: string)
    requires digits != "" && AllDigits(digits)
    requires m.Module? || (m.stmt == Directive(true) && '\n' !in y.gap)
    requires Declares(m, y, index, q)
    ensures Declares(m, Digits(gap, digits, y), index, q)
    decreases |digits|
  {
    hide Declares;
    DigitStep(m, gap, digits, y);
    if |digits| > 1 {
      DigitsDeclare(m, "", digits[1..], y, index, q);
    }
    DeclaresLater(m, Digits(gap, digits, y), index, q);
  }

  lemma LocDeclares(m: Mode, gap: string, f: string, l: string, y: Stream, index: nat, q: string)
    requires f != "" && AllDigits(f) && l != "" && AllDigits(l)
    requires m.Body? && m.stmt == Idle && '\n' in y.gap
    requires Declares(m, y, index, q)
    ensures Declares(m, LocStream(gap, f, l, y), index, q)
  {
    hide Declares;
    var zero := Cons(" ", "0", y);
    var line := Digits(" ", l, zero);
    var number := Digits(" ", f, line);
    var x := Cons(gap, ".loc", number);
    var d := m.(stmt := Directive(true));
    assert number.tok[0] == f[0];
    assert After(m, x) == d;
    DigitsGap(" ", l, zero);
    assert After(d, zero) == m;
    DeclaresLater(d, zero, index, q);
    DigitsDeclare(d, " ", l, zero, index, q);
    DigitsDeclare(d, " ", f, line, index, q);
    DeclaresLater(m, x, index, q);
  }

  /** The marked stream declares the new file. */
  lemma {:induction false} MarkDeclares(m: Mode, x: Stream, f: string, n: nat, a: nat, q: string)
    requires Parts(f, q) && Closed(x) && Boundary(m, x, a) && a > 0
    ensures Declares(m, Mark(m, x, f, n, a, q), DecimalValue(f), q)
    decreases x
  {
    hide Step, StartsInstruction, Boundary, Closed, Newlines, MarkLine, LocStream, Decimal, RestGap, MarkGap, DecimalValue,
         Declares, Mark, MarkRest;
    BoundaryUnfold(m, x, a);
    ClosedHead(x);
    MarkUnfold(m, x, f, n, a, q);
    var k := |x.gap| + |x.tok|;
    if a == k {
      FileDeclares(After(m, x), f, q, Mark(After(m, x), x.rest, f, n + Newlines(x.gap + x.tok), Less(a, k), q));
    } else {
      MarkDeclares(After(m, x), x.rest, f, n + Newlines(x.gap + x.tok), a - k, q);
    }
    var gap := if StartsInstruction(m, x) then "\n" + RestGap(x.gap) else x.gap;
    var y := Cons(gap, x.tok, MarkRest(m, x, f, n, a, q));
    MarkStep(m, x, gap, f, n, a, q);
    DeclaresLater(m, y, DecimalValue(f), q);
    if StartsInstruction(m, x) {
      StartFacts(m, x);
      assert gap[0] == '\n';
      LocDeclares(m, MarkGap(x.gap), f, Decimal(MarkLine(x, n)), y, DecimalValue(f), q);
    }
  }

  lemma BoundaryUnfold(m: Mode, x: Stream, a: nat)
    requires Boundary(m, x, a) && a > 0
    ensures x.Cons?
    ensures a == |x.gap| + |x.tok| ==> After(m, x).Module?
    ensures a != |x.gap| + |x.tok| ==>
              a > |x.gap| + |x.tok| && Boundary(After(m, x), x.rest, a - |x.gap| - |x.tok|)
  {
    hide Step;
  }

  lemma FileDeclares(m: Mode, f: string, q: string, y: Stream)
    requires Parts(f, q) && m.Module?
    ensures Declares(m, FileStream(f, q, y), DecimalValue(f), q)
  {
    hide DecimalValue;
    var name := Cons(" ", q, AddGap("\n", y));
    NumberRead(" ", f, name);
  }

  // ----- the marked text -----

  /** File `f` and the line numbers of the semicolons that end these spans. */
  function EndLines(source: string, f: nat, spans: seq<Span>): seq<Option<Loc>>
    requires Inside(source, spans)
  {
    seq(|spans|, k requires 0 <= k < |spans| => Some(Loc(f, LineNumber(source, spans[k].end - 1), 0)))
  }

  lemma EndLinesCons(source: string, f: nat, s: Span, spans: seq<Span>)
    requires Inside(source, [s] + spans) && Inside(source, spans)
    ensures 0 < s.end <= |source|
    ensures EndLines(source, f, [s] + spans)
         == [Some(Loc(f, LineNumber(source, s.end - 1), 0))] + EndLines(source, f, spans)
  {
    hide LineNumber;
    assert ([s] + spans)[0] == s;
  }

  lemma {:induction false} SemiLinesAre(m: Mode, x: Stream, f: nat, source: string, pos: nat)
    requires pos <= |source| && source[pos..] == Text(x)
    ensures Inside(source, Spans(m, x, pos))
    ensures SemiLines(m, x, f, Newlines(source[..pos])) == EndLines(source, f, Spans(m, x, pos))
    decreases x
  {
    hide Step, StartsInstruction, SemiLines, EndLines, Spans, Text, Newlines, MarkLine, LineNumber, Inside, UpToSemi,
         HasSemi;
    InsideFrom(source, m, x, pos);
    if x.End? {
      NoSemiLines(m, x, f, source, pos);
    } else {
      var end := pos + |x.gap| + |x.tok|;
      Descend(source, x, pos);
      NewlinesNext(source, x, pos);
      SemiLinesAre(After(m, x), x.rest, f, source, end);
      if StartsInstruction(m, x) {
        StartFacts(m, x);
        SpansTake(m, x, pos);
        SemiTake(m, x, f, Newlines(source[..pos]));
        LineOfSemi(source, x, pos);
        EndLinesCons(source, f, Span(pos + |x.gap|, pos + |x.gap| + |UpToSemi(x)|), Spans(After(m, x), x.rest, end));
      } else {
        SpansSkip(m, x, pos);
        SemiSkip(m, x, f, Newlines(source[..pos]));
      }
    }
  }

  lemma NoSemiLines(m: Mode, x: Stream, f: nat, source: string, pos: nat)
    requires x.End? && pos <= |source|
    ensures Inside(source, Spans(m, x, pos))
    ensures SemiLines(m, x, f, Newlines(source[..pos])) == EndLines(source, f, Spans(m, x, pos))
  {
  }

  /** The places a reader of the text gives to its instructions. */
  function LinesRead(text: string): seq<Option<Loc>> {
    LocLines(START, Lex(text), None)
  }

  /**
   Reading the marked text gives each instruction the new file and the line of its semicolon in the comment-free
   source; and the text declares that file, by its index and the quoted name.
   */
  lemma MarkedLines(source: string, name: string)
    requires Markable(source)
    ensures var c, r := WithoutComments(source), LineMarked(source, name);
            && r.Marked?
            && Inside(c, SourceSpans(c))
            && LinesRead(r.text) == EndLines(c, NextFileIndex(c), SourceSpans(c))
            && Declares(START, Lex(r.text), NextFileIndex(c), Quoted(name))
  {
    hide LocLines, SemiLines, EndLines, DecimalValue, Declares, Lex, Closed, Boundary, Spans, LineMarked, WithoutComments, AddressEnd,
         NextFileIndex, Decimal, Quoted, Mark, Text, WellFormed, Inside;
    var c := WithoutComments(source);
    MarkableIsPlaceable(source);
    MarkedLexes(source, name);
    ClosedSource(source);
    QuotedIsString(name);
    MarkRead(START, Lex(c), Decimal(NextFileIndex(c)), 0, AddressEnd(c).value, Quoted(name), None);
    assert c[0..] == c && c[..0] == "";
    NoNewlinesInEmpty();
    DecimalRoundTrip(NextFileIndex(c));
    SemiLinesAre(START, Lex(c), NextFileIndex(c), c, 0);
    MarkDeclares(START, Lex(c), Decimal(NextFileIndex(c)), 0, AddressEnd(c).value, Quoted(name));
  }

  lemma NoNewlinesInEmpty()
    ensures Newlines("") == 0
  {
  }

  /**
   The guide's map as the assembler reads it: in the marked, normalised text the `k`-th instruction has the number
   of the normalised line that holds its semicolon, which is the line of its first token exactly when none of its
   tokens spans lines.
   */
  lemma GuideLines(source: string, name: string)
    requires Markable(source) && AddressFirst(source)
    ensures var n, r := Normalized(source), LineMarked(Normalized(source), name);
            var spans, instructions := SourceSpans(n), InstructionTokens(START, Lex(WithoutComments(source)));
            && r.Marked? && |LinesRead(r.text)| == |spans| == |instructions|
            && Inside(n, spans)
            && (forall k: nat | k < |spans| ::
                  LinesRead(r.text)[k] == Some(Loc(NextFileIndex(n), LineNumber(n, spans[k].end - 1), 0)))
            && (forall k: nat | k < |spans| ::
                  LinesRead(r.text)[k] == Some(Loc(NextFileIndex(n), LineNumber(n, spans[k].start), 0))
                  <==> Unbroken(instructions[k]))
  {
    hide LinesRead, Normalized, Markable, AddressFirst, LineNumber, Unbroken, InstructionTokens, Lex, WithoutComments,
         LineMarked, SourceSpans, MarkersOf, LocText, OnLines, QuotesClosed, NextFileIndex, Declares;
    var n := Normalized(source);
    NormalizedMarkable(source);
    NormalizedIsBlank(source);
    MarkedLines(n, name);
    NormalizedLineMap(source, 0);
    var spans := SourceSpans(n);
    forall k: nat | k < |spans|
      ensures LinesRead(LineMarked(n, name).text)[k] == Some(Loc(NextFileIndex(n), LineNumber(n, spans[k].start), 0))
              <==> Unbroken(InstructionTokens(START, Lex(WithoutComments(source)))[k])
    {
      assert Mapped(n, spans, 0, MarkersOf(n, 0, spans), InstructionTokens(START, Lex(WithoutComments(source)))[k], k);
    }
  }

  lemma NormalizedIsBlank(source: string)
    requires Markable(source)
    ensures QuotesClosed(source) && WithoutComments(Normalized(source)) == Normalized(source)
  {
    hide QuotesClosed, WithoutComments, Normalized, Lex, Boundary, SourceSpans, AddressEnd;
    NormalizedHasNoComments(source);
  }
}
