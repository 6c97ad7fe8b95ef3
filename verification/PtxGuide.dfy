/** The main results about normalising and marking PTX text. */
module PtxGuide {
  import opened PtxText
  import opened PtxLex
  import opened PtxComments
  import opened PtxLoosen
  import opened PtxScan
  import opened PtxNormalize
  import opened PtxInsert
  import opened PtxMarkers
  import opened PtxMarkStream
  import opened PtxMark
  import opened PtxWeave

  // ----- marking preserves the program -----

  /**
   What the marker pass is written for: PTX whose quotes close, with an `.address_size` directive at module
   level. The number of that directive ends a token while the scanner is outside every function body.
   */
  predicate Markable(source: string) {
    var c := WithoutComments(source);
    && QuotesClosed(source)
    && AddressEnd(c).Some?
    && Boundary(START, Lex(c), AddressEnd(c).value)
    && SourceSpans(c) != []
  }

  /** The same, with the directive at module level or anywhere inside a statement that no newline ends. */
  predicate Placeable(source: string) {
    var c := WithoutComments(source);
    && QuotesClosed(source)
    && AddressEnd(c).Some?
    && Place(START, Lex(c), AddressEnd(c).value)
    && SourceSpans(c) != []
  }

  lemma MarkableIsPlaceable(source: string)
    requires Markable(source)
    ensures Placeable(source)
  {
    hide QuotesClosed, AddressEnd, Boundary, Place, Lex, SourceSpans, WithoutComments;
    var c := WithoutComments(source);
    BoundaryIsPlace(START, Lex(c), AddressEnd(c).value);
  }

  function MarkedStream(source: string, name: string): Stream
    requires AddressEnd(WithoutComments(source)).Some?
  {
    var c := WithoutComments(source);
    Mark(START, Lex(c), Decimal(NextFileIndex(c)), 0, AddressEnd(c).value, Quoted(name))
  }

  lemma AllInsertions(c: string, name: string)
    requires AddressEnd(c).Some? && Closed(Lex(c))
    ensures Sort(InsertionsOf(c, name))
         == ToInsert(START, Lex(c), Decimal(NextFileIndex(c)), 0, 0, AddressEnd(c).value,
                     FileTextOf(Decimal(NextFileIndex(c)), Quoted(name)))
  {
    hide Lex, Closed, Marks, MarkersOf, InsertSorted, NextFileIndex, AddressEnd, Spans, Text, Quoted, Decimal;
    LexIsWellFormed(c);
    SourceTexts(c);
    var x, index := Lex(c), NextFileIndex(c);
    var f := Decimal(index);
    assert c[0..] == c && c[..0] == "";
    MarkersAreMarks(START, x, c, index, 0);
    MarksFrom(START, x, f, 0, 0);
    var marks := Marks(START, x, f, 0, 0);
    SortOfSorted(marks);
    var file := Insertion(AddressEnd(c).value, FileText(index, name));
    assert InsertionsOf(c, name) == [file] + marks;
    SortFirst(file, marks);
  }

  lemma SortFirst(i: Insertion, ins: seq<Insertion>)
    ensures Sort([i] + ins) == InsertSorted(i, Sort(ins))
  {
    assert ([i] + ins)[1..] == ins;
  }

  /** The marker pass succeeds, and its output is lexed as the marked stream. */
  lemma MarkedLexes(source: string, name: string)
    requires Placeable(source)
    ensures var r := LineMarked(source, name);
            && r.Marked? && r.count == |SourceSpans(WithoutComments(source))|
            && Lex(r.text) == MarkedStream(source, name)
  {
    hide Lex, Closed, Text, ToInsert, Weave, Mark, AddressEnd, NextFileIndex, Decimal, Quoted, WellFormed, Separated,
         InsertionsOf, SourceSpans, WithoutComments, Place, Sort;
    var c := WithoutComments(source);
    var x, f, q, a := Lex(c), Decimal(NextFileIndex(c)), Quoted(name), AddressEnd(c).value;
    ClosedSource(source);
    assert c[0..] == c;
    AllInsertions(c, name);
    WeaveIsMark(START, x, c, f, 0, 0, a, q);
    QuotedIsString(name);
    MarkClosed(START, x, f, 0, a, q);
    var y := Mark(START, x, f, 0, a, q);
    ClosedIsWellFormed(y);
    LexText(y);
  }

  /**
   Marking keeps the program: scanning the marked text finds exactly the instruction texts of the comment-free
   source, in the same order, and reports how many there are.
   */
  lemma MarkingPreservesProgram(source: string, name: string)
    requires Markable(source)
    ensures var c, r := WithoutComments(source), LineMarked(source, name);
            && r.Marked?
            && Slices(r.text, SourceSpans(r.text)) == Slices(c, SourceSpans(c))
            && r.count == |SourceSpans(r.text)|
  {
    hide Lex, Closed, Mark, AddressEnd, NextFileIndex, Decimal, Quoted, WellFormed, Separated, Slices,
         InstructionTexts, WithoutComments, Boundary, Spans, Ordered, LineMarked, SourceSpans;
    var c, r := WithoutComments(source), LineMarked(source, name);
    MarkableIsPlaceable(source);
    MarkedLexes(source, name);
    ClosedSource(source);
    QuotedIsString(name);
    MarkPreserves(START, Lex(c), Decimal(NextFileIndex(c)), 0, AddressEnd(c).value, Quoted(name));
    SourceTexts(c);
    SourceTexts(r.text);
    SliceCount(c, SourceSpans(c));
    SliceCount(r.text, SourceSpans(r.text));
  }

  lemma SliceCount(s: string, spans: seq<Span>)
    ensures |Slices(s, spans)| == |spans|
  {
  }

  // ----- markers stand between instructions and erase cleanly, for every source -----

  lemma {:induction false} SpansEndInSemi(m: Mode, x: Stream, source: string, pos: nat)
    requires pos <= |source| && source[pos..] == Text(x)
    ensures forall k | 0 <= k < |Spans(m, x, pos)| ::
              var end := Spans(m, x, pos)[k].end; 0 < end <= |source| && source[end - 1] == ';'
    decreases x
  {
    hide Step, StartsInstruction, Spans, Text, HasSemi, UpToSemi, LineNumber;
    if x.Cons? {
      Descend(source, x, pos);
      SpansEndInSemi(After(m, x), x.rest, source, pos + |x.gap| + |x.tok|);
      if StartsInstruction(m, x) {
        StartFacts(m, x);
        LineOfSemi(source, x, pos);
        SpansTake(m, x, pos);
      } else {
        SpansSkip(m, x, pos);
      }
    } else {
      NoSpansAtEnd(m, x, pos);
    }
  }

  lemma NoSpansAtEnd(m: Mode, x: Stream, pos: nat)
    requires x.End?
    ensures Spans(m, x, pos) == []
  {
  }

  lemma MarkerBefore(c: string, index: nat, s: Span)
    requires s.start < s.end <= |c|
    ensures var at := Marker(c, index, s).at; at <= s.start && AllSpace(c[at..s.start])
  {
  }

  lemma InkEndsBefore(c: string, end: nat, at: nat, start: nat)
    requires 0 < end <= start && at <= start <= |c| && c[end - 1] == ';' && AllSpace(c[at..start])
    ensures end <= at
  {
    forall i | at <= i < start ensures IsSpace(c[i]) {
      assert c[at..start][i - at] == c[i];
    }
  }

  /**
   Every marker stands in the white space right before its instruction and after every earlier instruction,
   so marker positions strictly increase and none lies in a span; none splits a token.
   */
  lemma MarkersStandBetween(c: string, index: nat, i: nat, j: nat)
    requires i <= j < |SourceSpans(c)|
    ensures Inside(c, SourceSpans(c))
    ensures var spans := SourceSpans(c);
            && Marker(c, index, spans[j]).at <= spans[j].start
            && AllSpace(c[Marker(c, index, spans[j]).at..spans[j].start])
            && (i < j ==> Marker(c, index, spans[i]).at < spans[i].end <= Marker(c, index, spans[j]).at)
            && BetweenTokens(TokensAt(Lex(c), 0), Marker(c, index, spans[j]).at)
  {
    hide Lex, Spans, Text, Marker, WellFormed;
    var spans := SourceSpans(c);
    LexIsWellFormed(c);
    assert c[0..] == c;
    SourceTexts(c);
    OrderedInside(c, spans, 0);
    SpansEndInSemi(START, Lex(c), c, 0);
    MarkerBefore(c, index, spans[i]);
    MarkerBefore(c, index, spans[j]);
    if i < j {
      InkEndsBefore(c, spans[i].end, Marker(c, index, spans[j]).at, spans[j].start);
    }
    SourceSpansDelimited(c);
    StartsToken(c, spans[j]);
    var k: nat :| k < |TokensAt(Lex(c), 0)| && TokensAt(Lex(c), 0)[k].start == spans[j].start;
    SpaceSplitsNone(c, Marker(c, index, spans[j]).at, k);
  }

  /**
   Where a marker stands and what it says: for an instruction whose line begins at `k`, at the line's beginning when
   only white space stands before the instruction there, else right before it; on a line of its own; with the index,
   the number of the semicolon's line and column 0.
   */
  lemma MarkerMeans(c: string, index: nat, s: Span, k: nat)
    requires k <= s.start < s.end <= |c|
    requires (k == 0 || c[k - 1] == '\n') && '\n' !in c[k..s.start]
    ensures var at := if AllSpace(c[k..s.start]) then k else s.start;
            Marker(c, index, s)
            == Insertion(at, (if at == 0 || c[at - 1] == '\n' then "" else "\n") + ".loc " + Decimal(index) + " "
                             + Decimal(1 + Newlines(c[..s.end - 1])) + " 0\n")
  {
    hide Newlines, LineStart, Decimal;
    SliceDrop(c, 0, s.start, k);
    assert c[0..s.start] == c[..s.start];
    assert k > 0 ==> c[..s.start][k - 1] == c[k - 1];
    LineStartUnique(c[..s.start], k);
    var at := if AllSpace(c[k..s.start]) then k else s.start;
    var prefix := if at == 0 || c[at - 1] == '\n' then "" else "\n";
    var f, l := Decimal(index), Decimal(1 + Newlines(c[..s.end - 1]));
    assert prefix + (".loc " + f + " " + l + " 0\n") == prefix + ".loc " + f + " " + l + " 0\n";
  }

  lemma StartsToken(c: string, s: Span)
    requires Delimited(TokensAt(Lex(c), 0), s)
    ensures exists k: nat :: k < |TokensAt(Lex(c), 0)| && TokensAt(Lex(c), 0)[k].start == s.start
  {
    hide Lex, TokensAt;
    var i: nat, j: nat :| Delimits(TokensAt(Lex(c), 0), s, i, j);
  }

  lemma {:induction false} MarkersFit(c: string, index: nat, spans: seq<Span>)
    requires Inside(c, spans)
    ensures forall k | 0 <= k < |MarkersOf(c, index, spans)| :: MarkersOf(c, index, spans)[k].at <= |c|
  {
    hide Marker, MarkersOf;
    if spans != [] {
      assert spans == [spans[0]] + spans[1..];
      MarkersFirst(c, index, spans[0], spans[1..]);
      MarkerBefore(c, index, spans[0]);
      MarkersFit(c, index, spans[1..]);
    } else {
      NoMarkersOf(c, index, spans);
    }
  }

  lemma NoMarkersOf(c: string, index: nat, spans: seq<Span>)
    requires spans == []
    ensures MarkersOf(c, index, spans) == []
  {
  }

  /** Taking the inserted fragments out of the marked text gives the comment-free source back, on every input. */
  lemma MarkersErase(source: string, name: string)
    requires LineMarked(source, name).Marked?
    ensures var c := WithoutComments(source);
            var fragments := Sort(InsertionsOf(c, name));
            && AddressEnd(c).Some?
            && Erase(LineMarked(source, name).text, fragments) == c
            && |LineMarked(source, name).text| == |c| + TotalLength(fragments)
            && LineMarked(source, name).text == FromTheBack(c, fragments)
  {
    hide WithoutComments, AddressEnd, SourceSpans, Sort, Apply, Erase, TotalLength, FromTheBack, MarkersOf, Marker,
         NextFileIndex, FileText;
    var c := WithoutComments(source);
    var spans := SourceSpans(c);
    SourceTexts(c);
    OrderedInside(c, spans, 0);
    MarkersFit(c, NextFileIndex(c), spans);
    InsertionsErase(c, InsertionsOf(c, name));
  }

  // ----- the line map -----

  /** The instruction starts a line, and a line ends right after it. */
  predicate Framed(s: string, p: Span) {
    0 < p.start < p.end < |s| && s[p.start - 1] == '\n' && s[p.end] == '\n'
  }

  /** Nothing but the instruction is on its line. */
  predicate AloneOnLine(s: string, p: Span) {
    Framed(s, p) && '\n' !in s[p.start..p.end]
  }

  /** A marker gives the line of its instruction's first token exactly when the instruction has no newline. */
  lemma LineOfInstruction(s: string, p: Span)
    requires p.start < p.end <= |s| && s[p.end - 1] == ';'
    ensures LineNumber(s, p.end - 1) == LineNumber(s, p.start) <==> '\n' !in s[p.start..p.end]
  {
    assert s[..p.end - 1] == s[..p.start] + s[p.start..p.end - 1];
    NewlinesConcat(s[..p.start], s[p.start..p.end - 1]);
    NoNewlines(s[p.start..p.end - 1]);
    assert s[p.start..p.end] == s[p.start..p.end - 1] + [';'];
  }

  lemma LaterLine(s: string, p: Span, q: Span)
    requires Framed(s, p) && p.end < q.start <= |s|
    ensures LineNumber(s, p.end - 1) < LineNumber(s, q.start)
  {
    var t := s[p.end - 1..q.start];
    assert s[..q.start] == s[..p.end - 1] + t;
    NewlinesConcat(s[..p.end - 1], t);
    NoNewlines(t);
    assert t[1] == '\n';
  }

  /** No token, so no string literal, spans lines. */
  predicate Unbroken(toks: seq<string>) {
    forall t | t in toks :: '\n' !in t
  }

  lemma UnbrokenCons(t: string, toks: seq<string>)
    ensures Unbroken([t] + toks) <==> '\n' !in t && Unbroken(toks)
  {
    assert t in [t] + toks;
    assert forall u | u in toks :: u in [t] + toks;
  }

  /** A folded instruction spans lines only inside its tokens. */
  lemma {:induction false} OneLine(m: Mode, x: Stream, carry: string)
    requires HasSemi(x) && (Continues(m, x) || StartsInstruction(m, x))
    ensures HasSemi(Norm(m, x, carry))
    ensures '\n' !in UpToSemi(Norm(m, x, carry)) <==> Unbroken(TokensToSemi(x))
    decreases x
  {
    hide Unbroken;
    if x.tok != ";" {
      OneLine(After(m, x), x.rest, "");
      UnbrokenCons(x.tok, TokensToSemi(x.rest));
    } else {
      SemiUnbroken();
    }
  }

  lemma SemiUnbroken()
    ensures Unbroken([";"])
  {
  }

  lemma GapEnds(m: Mode, x: Stream, carry: string)
    requires StartsInstruction(m, x)
    ensures var g := Norm(m, x, carry).gap; g != "" && g[|g| - 1] == '\n'
  {
  }

  lemma GapStarts(m: Mode, x: Stream)
    requires m.Body? && m.stmt == Idle
    ensures var u := Text(Norm(m, x, "\n")); u != "" && u[0] == '\n'
  {
    var y := Norm(m, x, "\n");
    assert y.gap != "" && y.gap[0] == '\n';
    assert Text(y)[0] == y.gap[0];
  }

  /** The first instruction of a normalised stream has its lines to itself. */
  lemma HeadFramed(m: Mode, x: Stream, carry: string, out: string, pos: nat)
    requires Closed(x) && StartsInstruction(m, x)
    requires pos <= |out| && out[pos..] == Text(Norm(m, x, carry)) && HasSemi(Norm(m, x, carry))
    ensures var y := Norm(m, x, carry);
            OnLines(out, Span(pos + |y.gap|, pos + |y.gap| + |UpToSemi(y)|), TokensToSemi(x))
  {
    hide Step, StartsInstruction, Norm, Text, UpToSemi, HasSemi, Closed, Unbroken, FoldSpaces, TokensToSemi;
    var y := Norm(m, x, carry);
    StartFacts(m, x);
    NormFolds(m, x, carry);
    OneLine(m, x, carry);
    GapEnds(m, x, carry);
    GapStarts(m, PastSemi(x));
    CutInstruction(out, y, pos);
    HeadOfNorm(m, x, carry);
    SliceHead(out, y, pos);
    assert Slice(out, pos, pos + |y.gap|)[|y.gap| - 1] == out[pos + |y.gap| - 1];
    assert out[pos + |y.gap| + |UpToSemi(y)|..][0] == '\n';
  }

  /** The instruction has its lines to itself, and one line when none of its tokens spans lines. */
  ghost predicate OnLines(out: string, p: Span, toks: seq<string>) {
    Framed(out, p) && (AloneOnLine(out, p) <==> Unbroken(toks))
  }

  ghost predicate AllOnLines(out: string, spans: seq<Span>, instructions: seq<seq<string>>) {
    |spans| == |instructions| && forall k | 0 <= k < |spans| :: OnLines(out, spans[k], instructions[k])
  }

  lemma OnLinesCons(out: string, p: Span, toks: seq<string>, spans: seq<Span>, instructions: seq<seq<string>>)
    requires OnLines(out, p, toks) && AllOnLines(out, spans, instructions)
    ensures AllOnLines(out, [p] + spans, [toks] + instructions)
  {
    hide OnLines;
  }

  lemma TokensUnfold(m: Mode, x: Stream)
    requires x.Cons?
    ensures StartsInstruction(m, x) ==>
              InstructionTokens(m, x) == [TokensToSemi(x)] + InstructionTokens(After(m, x), x.rest)
    ensures !StartsInstruction(m, x) ==> InstructionTokens(m, x) == InstructionTokens(After(m, x), x.rest)
  {
    hide Step, Begins, TokensToSemi;
  }

  lemma HeadOfNorm(m: Mode, x: Stream, carry: string)
    requires x.Cons?
    ensures var y := Norm(m, x, carry);
            y.Cons? && y.tok == x.tok && y.rest == Norm(After(m, x), x.rest, Carry(m, x))
  {
    hide Step;
  }

  lemma {:induction false} NormOnLines(m: Mode, x: Stream, carry: string, out: string, pos: nat)
    requires Closed(x) && AllSpace(carry)
    requires pos <= |out| && out[pos..] == Text(Norm(m, x, carry))
    ensures AllOnLines(out, Spans(m, Norm(m, x, carry), pos), InstructionTokens(m, x))
    decreases x
  {
    hide Step, StartsInstruction, Norm, Text, UpToSemi, HasSemi, Closed, FoldSpaces, Spans, Carry, OnLines, AllOnLines,
         InstructionTokens, TokensToSemi;
    var y := Norm(m, x, carry);
    if x.Cons? {
      ClosedHead(x);
      HeadOfNorm(m, x, carry);
      SameStep(m, x, carry);
      CarrySpace(m, x);
      Descend(out, y, pos);
      var end := pos + |y.gap| + |y.tok|;
      NormOnLines(After(m, x), x.rest, Carry(m, x), out, end);
      TokensUnfold(m, x);
      if StartsInstruction(m, x) {
        StartFacts(m, y);
        StartFacts(m, x);
        HeadFramed(m, x, carry, out, pos);
        SpansTake(m, y, pos);
        OnLinesCons(out, Span(pos + |y.gap|, pos + |y.gap| + |UpToSemi(y)|), TokensToSemi(x),
                    Spans(After(m, y), y.rest, end), InstructionTokens(After(m, x), x.rest));
      } else {
        SpansSkip(m, y, pos);
      }
    } else {
      NormEnd(m, x, carry, out, pos);
    }
  }

  lemma CarrySpace(m: Mode, x: Stream)
    requires x.Cons?
    ensures AllSpace(Carry(m, x))
  {
  }

  lemma NormEnd(m: Mode, x: Stream, carry: string, out: string, pos: nat)
    requires x.End?
    ensures AllOnLines(out, Spans(m, Norm(m, x, carry), pos), InstructionTokens(m, x))
  {
  }

  lemma NormalizedOnLines(source: string)
    requires QuotesClosed(source)
    ensures AllOnLines(Normalized(source), SourceSpans(Normalized(source)),
                       InstructionTokens(START, Lex(WithoutComments(source))))
  {
    hide Closed, Norm, Text, Spans, WithoutComments, Normalized, Lex, WellFormed, CommentFree, AllOnLines,
         InstructionTokens, OnLines;
    var n := Normalized(source);
    ClosedSource(source);
    NormalizedLexes(source);
    assert n[0..] == n;
    NormOnLines(START, Lex(WithoutComments(source)), "", n, 0);
  }

  /** Closed quotes survive normalising. */
  lemma NormalizedStaysClosed(source: string)
    requires QuotesClosed(source)
    ensures QuotesClosed(Normalized(source))
  {
    hide Closed, Norm, Text, WithoutComments, Normalized, Lex, WellFormed, Loosens, CommentFree, Separated;
    NormalizedHasNoComments(source);
    NormalizedLexes(source);
    ClosedSource(source);
    var x := Lex(WithoutComments(source));
    LoosenedIsClosed(x, Norm(START, x, ""));
  }

  lemma {:induction false} MarkersOfAt(c: string, index: nat, spans: seq<Span>, k: nat)
    requires Inside(c, spans) && k < |spans|
    ensures |MarkersOf(c, index, spans)| == |spans| && MarkersOf(c, index, spans)[k] == Marker(c, index, spans[k])
  {
    hide Marker;
    if |spans| > 1 {
      assert spans == [spans[0]] + spans[1..];
      MarkersFirst(c, index, spans[0], spans[1..]);
      MarkersOfAt(c, index, spans[1..], if k > 0 then k - 1 else 0);
    }
  }

  /**
   The `k`-th instruction of the normalised text starts a line and a line ends after it; it is alone on one line
   exactly when none of its tokens spans lines, and exactly then the number of its first token is that of its
   semicolon; the `k`-th marker stands where the line starts and carries the semicolon's number.
   */
  ghost predicate Mapped(n: string, spans: seq<Span>, index: nat, markers: seq<Insertion>, toks: seq<string>, k: nat)
    requires Inside(n, spans)
  {
    && k < |spans| && k < |markers|
    && var p := spans[k];
       && OnLines(n, p, toks)
       && (LineNumber(n, p.start) == LineNumber(n, p.end - 1) <==> Unbroken(toks))
       && markers[k] == Insertion(p.start, LocText(index, LineNumber(n, p.end - 1)))
  }

  lemma OnLinesCount(n: string, spans: seq<Span>, instructions: seq<seq<string>>)
    requires AllOnLines(n, spans, instructions)
    ensures |instructions| == |spans|
  {
  }

  lemma OnLinesAt(out: string, spans: seq<Span>, instructions: seq<seq<string>>, k: nat)
    requires AllOnLines(out, spans, instructions) && k < |spans|
    ensures k < |instructions| && OnLines(out, spans[k], instructions[k]) && Framed(out, spans[k])
  {
  }

  lemma OnLinesNewline(out: string, p: Span, toks: seq<string>)
    requires OnLines(out, p, toks) && p.start < p.end <= |out| && out[p.end - 1] == ';'
    ensures LineNumber(out, p.start) == LineNumber(out, p.end - 1) <==> Unbroken(toks)
  {
    hide LineNumber, Unbroken;
    LineOfInstruction(out, p);
  }

  lemma MappedAt(n: string, spans: seq<Span>, index: nat, toks: seq<string>, k: nat)
    requires Inside(n, spans) && k < |spans| && OnLines(n, spans[k], toks) && Framed(n, spans[k])
    requires n[spans[k].end - 1] == ';'
    ensures Mapped(n, spans, index, MarkersOf(n, index, spans), toks, k)
  {
    hide LineNumber, Marker, MarkersOf, Unbroken, LocText, OnLines, Framed;
    MarkersOfAt(n, index, spans, k);
    OnLinesNewline(n, spans[k], toks);
    MarkerFramed(n, index, spans[k]);
  }

  lemma LaterAt(n: string, spans: seq<Span>, i: nat, j: nat)
    requires Ordered(spans, 0, |n|) && i < j < |spans| && Framed(n, spans[i]) && Framed(n, spans[j])
    requires n[spans[i].end - 1] == ';'
    ensures LineNumber(n, spans[i].end - 1) < LineNumber(n, spans[j].start)
  {
    hide LineNumber;
    NotAdjacent(n, spans[i], spans[j]);
    LaterLine(n, spans[i], spans[j]);
  }

  /**
   The guide's line map: the marker pass makes one marker for each instruction of the normalised text, in order,
   that stands at the start of the instruction's own line and carries that line's number; and the lines of later
   instructions are below those of earlier ones.
   */
  lemma NormalizedLineMap(source: string, index: nat)
    requires QuotesClosed(source)
    ensures var n := Normalized(source);
            var spans, instructions := SourceSpans(n), InstructionTokens(START, Lex(WithoutComments(source)));
            && WithoutComments(n) == n
            && Inside(n, spans) && |instructions| == |spans|
            && var markers := MarkersOf(n, index, spans);
               && |markers| == |spans|
               && (forall k: nat | k < |spans| :: Mapped(n, spans, index, markers, instructions[k], k))
               && (forall i: nat, j: nat | i < j < |spans| ::
                     LineNumber(n, spans[i].end - 1) < LineNumber(n, spans[j].start))
  {
    hide Normalized, SourceSpans, QuotesClosed, LineNumber, Marker, MarkersOf, WithoutComments, Lex, InstructionTokens,
         Unbroken, LocText, Mapped, AllOnLines, OnLines, Framed, Ordered, Slices, InstructionTexts;
    var n := Normalized(source);
    var spans, instructions := SourceSpans(n), InstructionTokens(START, Lex(WithoutComments(source)));
    NormalizedHasNoComments(source);
    NormalizedOnLines(source);
    OnLinesCount(n, spans, instructions);
    SourceEndsInSemi(n);
    SourceTexts(n);
    OrderedInside(n, spans, 0);
    MarkersCount(n, index, spans);
    forall k: nat | k < |spans| ensures Mapped(n, spans, index, MarkersOf(n, index, spans), instructions[k], k) {
      OnLinesAt(n, spans, instructions, k);
      MappedAt(n, spans, index, instructions[k], k);
    }
    forall i: nat, j: nat | i < j < |spans| ensures LineNumber(n, spans[i].end - 1) < LineNumber(n, spans[j].start) {
      OnLinesAt(n, spans, instructions, i);
      OnLinesAt(n, spans, instructions, j);
      LaterAt(n, spans, i, j);
    }
  }

  lemma MarkersCount(c: string, index: nat, spans: seq<Span>)
    requires Inside(c, spans)
    ensures |MarkersOf(c, index, spans)| == |spans|
  {
    if spans != [] {
      MarkersOfAt(c, index, spans, 0);
    }
  }

  lemma NotAdjacent(s: string, p: Span, q: Span)
    requires Framed(s, p) && Framed(s, q) && 0 < p.end <= q.start && s[p.end - 1] == ';'
    ensures p.end < q.start <= |s|
  {
  }

  lemma SourceEndsInSemi(c: string)
    ensures forall k | 0 <= k < |SourceSpans(c)| ::
              var end := SourceSpans(c)[k].end; 0 < end <= |c| && c[end - 1] == ';'
  {
    hide Lex, Spans, Text, WellFormed;
    LexIsWellFormed(c);
    assert c[0..] == c;
    SpansEndInSemi(START, Lex(c), c, 0);
  }

  lemma MarkerFramed(s: string, index: nat, p: Span)
    requires Framed(s, p)
    ensures Marker(s, index, p) == Insertion(p.start, LocText(index, LineNumber(s, p.end - 1)))
  {
    hide LocText, LineNumber, LineStart;
    assert s[..p.start][p.start - 1] == '\n' && s[..p.start][p.start..] == "";
    LineStartUnique(s[..p.start], p.start);
    assert s[p.start..p.start] == "";
    var text := LocText(index, LineNumber(s, p.end - 1));
    assert "" + text == text;
  }

  // ----- the file index is fresh -----

  lemma {:induction false} IndexFound(s: string, lineStart: bool, p: nat)
    requires p <= |s| && (if p == 0 then lineStart else s[p - 1] == '\n')
    requires FileMatch(s[p..]).Some?
    ensures FileMatch(s[p..]).value.1 in FileIndices(s, lineStart)
    decreases |s|
  {
    hide FileMatch, FileIndices;
    if lineStart && FileMatch(s).Some? {
      var n := FileMatch(s).value.0;
      IndicesMatch(s);
      if p < n {
        MatchStartsOnce(s, p);
      } else {
        MatchEndsInDigit(s);
        assert s[n..][p - n..] == s[p..];
        assert p > n ==> s[n..][p - n - 1] == s[p - 1];
        IndexFound(s[n..], false, p - n);
      }
    } else {
      WholeDrop(s);
      assert p > 0;
      assert s[1..][p - 1..] == s[p..];
      assert p > 1 ==> s[1..][p - 2] == s[p - 1];
      IndicesStep(s, lineStart);
      IndexFound(s[1..], s[0] == '\n', p - 1);
    }
  }

  lemma WholeDrop(s: string)
    ensures s[0..] == s
  {
  }

  lemma IndicesMatch(s: string)
    requires FileMatch(s).Some?
    ensures FileIndices(s, true) == [FileMatch(s).value.1] + FileIndices(s[FileMatch(s).value.0..], false)
  {
    hide FileMatch;
  }

  lemma IndicesStep(s: string, lineStart: bool)
    requires s != "" && !(lineStart && FileMatch(s).Some?)
    ensures FileIndices(s, lineStart) == FileIndices(s[1..], s[0] == '\n')
  {
    hide FileMatch;
  }

  lemma SliceDropTake(s: string, a: nat, b: nat, c: nat)
    requires a + b + c <= |s|
    ensures s[a..][b..b + c] == s[a + b..a + b + c]
  {
  }

  /** The parts of a match: white space, the keyword, white space, digits. */
  lemma MatchParts(s: string) returns (g: nat, w: nat, d: nat)
    requires FileMatch(s).Some?
    ensures g == SpaceRun(s) && w > 0 && d > 0 && g + 5 + w + d == FileMatch(s).value.0
    ensures s[g..g + 5] == ".file"
    ensures AllSpace(s[g + 5..g + 5 + w]) && AllDigits(s[g + 5 + w..g + 5 + w + d])
  {
    hide SpaceRun, DigitRun, DecimalValue, AllSpace, AllDigits, IsWord;
    g := SpaceRun(s);
    var u := s[g..];
    w := SpaceRun(u[5..]);
    d := DigitRun(u[5..][w..]);
    DropThenTake(s, g, 0, 5);
    WholeDrop(u);
    DropThenTake(u, 5, 0, w);
    WholeDrop(u[5..]);
    DropThenTake(u, 5, w, d);
    SliceDropTake(s, g, 5, w);
    SliceDropTake(s, g, 5 + w, d);
  }

  lemma MatchEndsInDigit(s: string)
    requires FileMatch(s).Some?
    ensures s[FileMatch(s).value.0 - 1] != '\n'
  {
    hide FileMatch, SpaceRun;
    var g, w, d := MatchParts(s);
    var e := g + 5 + w;
    assert s[e..e + d][d - 1] == s[e + d - 1];
  }

  /** A match that starts inside another one is that match after fewer blanks. */
  lemma MatchStartsOnce(s: string, p: nat)
    requires FileMatch(s).Some? && p < FileMatch(s).value.0
    requires p > 0 ==> s[p - 1] == '\n'
    requires FileMatch(s[p..]).Some?
    ensures FileMatch(s[p..]).value.1 == FileMatch(s).value.1
  {
    hide FileMatch, KeywordNumber, IsSpace, SpaceRun;
    var g, w, d := MatchParts(s);
    MatchNumber(s);
    MatchNumber(s[p..]);
    if p <= g {
      SpaceRunFrom(s, p);
      assert s[p..][g - p..] == s[g..];
    } else {
      InsideMatch(s, p, g, w, d);
    }
  }

  lemma MatchNumber(s: string)
    requires FileMatch(s).Some?
    ensures KeywordNumber(s[SpaceRun(s)..], ".file").Some?
    ensures FileMatch(s).value.1 == KeywordNumber(s[SpaceRun(s)..], ".file").value.1
  {
    hide KeywordNumber, SpaceRun;
  }

  lemma {:induction false} SpaceRunFrom(s: string, p: nat)
    requires p <= SpaceRun(s)
    ensures SpaceRun(s[p..]) == SpaceRun(s) - p
  {
    hide IsSpace;
    if p > 0 {
      SpaceRunFrom(s[1..], p - 1);
      assert s[1..][p - 1..] == s[p..];
    } else {
      WholeDrop(s);
    }
  }

  lemma FirstDiffers(s: string, prefix: string)
    requires prefix != "" && (s == "" || s[0] != prefix[0])
    ensures !StartsWith(s, prefix)
  {
    assert |prefix| <= |s| ==> s[..|prefix|][0] == s[0];
  }

  /** Past its leading white space, no line of a match starts another. */
  lemma InsideMatch(s: string, p: nat, g: nat, w: nat, d: nat)
    requires g < p < g + 5 + w + d <= |s| && s[p - 1] == '\n' && d > 0
    requires s[g..g + 5] == ".file"
    requires AllSpace(s[g + 5..g + 5 + w]) && AllDigits(s[g + 5 + w..g + 5 + w + d])
    ensures FileMatch(s[p..]).None?
  {
    var e := g + 5 + w;
    forall i | g <= i < g + 5 ensures s[i] != '\n' {
      assert s[i] == s[g..g + 5][i - g] == ".file"[i - g];
    }
    forall i | e <= i < e + d ensures IsDigit(s[i]) {
      assert s[i] == s[e..e + d][i - e];
    }
    forall i | g + 5 <= i < e ensures IsSpace(s[i]) {
      assert s[i] == s[g + 5..e][i - g - 5];
    }
    assert g + 5 < p <= e;
    BlanksThenDigit(s, p, e);
  }

  lemma BlanksThenDigit(s: string, p: nat, e: nat)
    requires p <= e < |s| && IsDigit(s[e])
    requires forall i | p <= i < e :: IsSpace(s[i])
    ensures FileMatch(s[p..]).None?
  {
    Split(s[p..], e - p);
    assert s[p..][..e - p] == s[p..e] && s[p..][e - p..] == s[e..];
    SpaceRunOf(s[p..e], s[e..]);
    assert ".file"[0] == '.';
    FirstDiffers(s[e..], ".file");
  }

  /** The new file's index is above the index of every `.file` directive that starts a line. */
  lemma FileIndexIsFresh(c: string, p: nat)
    requires p <= |c| && (p == 0 || c[p - 1] == '\n') && FileMatch(c[p..]).Some?
    ensures FileMatch(c[p..]).value.1 < NextFileIndex(c)
  {
    hide FileMatch, FileIndices;
    IndexFound(c, true, p);
  }
}
