/** The insertions, made by position, print the marked token stream. */
module PtxWeave {
  import opened PtxText
  import opened PtxLex
  import opened PtxScan
  import opened PtxInsert
  import opened PtxMarkers
  import opened PtxMarkStream
  import opened PtxMark

  // ----- the marker of an instruction stands in the white space before it -----

  function GapMarker(g: string, f: string, line: nat, pos: nat): Insertion {
    var loc := ".loc " + f + " " + Decimal(line) + " 0\n";
    if '\n' in g then Insertion(pos + LineStart(g), loc) else Insertion(pos + |g|, "\n" + loc)
  }

  /** The insertions of `Mark`, for a stream at position `pos`, `n` newlines into the source. */
  function Marks(m: Mode, x: Stream, f: string, n: nat, pos: nat): seq<Insertion>
    decreases x
  {
    if x.End? then []
    else
      (if StartsInstruction(m, x) then [GapMarker(x.gap, f, MarkLine(x, n), pos)] else [])
      + Marks(After(m, x), x.rest, f, n + Newlines(x.gap + x.tok), pos + |x.gap| + |x.tok|)
  }

  lemma MarksTake(m: Mode, x: Stream, f: string, n: nat, pos: nat)
    requires StartsInstruction(m, x)
    ensures Marks(m, x, f, n, pos)
         == [GapMarker(x.gap, f, MarkLine(x, n), pos)]
            + Marks(After(m, x), x.rest, f, n + Newlines(x.gap + x.tok), pos + |x.gap| + |x.tok|)
  {
  }

  lemma MarksSkip(m: Mode, x: Stream, f: string, n: nat, pos: nat)
    requires x.Cons? && !StartsInstruction(m, x)
    ensures Marks(m, x, f, n, pos)
         == Marks(After(m, x), x.rest, f, n + Newlines(x.gap + x.tok), pos + |x.gap| + |x.tok|)
  {
    hide Step, StartsInstruction;
  }

  /** A stream that is not at the start of the source follows a token. */
  ghost predicate AfterInk(m: Mode, source: string, pos: nat) {
    pos <= |source| && if pos == 0 then m.Module? else !IsSpace(source[pos - 1])
  }

  lemma InkBefore(m: Mode, source: string, pos: nat)
    requires AfterInk(m, source, pos)
    ensures pos <= |source| && (m.Body? ==> 0 < pos && !IsSpace(source[pos - 1]))
  {
  }

  lemma LineStartAfterNewline(source: string, pos: nat, g: string)
    requires pos + |g| <= |source| && source[pos..pos + |g|] == g && '\n' in g
    ensures LineStart(source[..pos + |g|]) == pos + LineStart(g)
  {
    var s, k := source[..pos + |g|], LineStart(g);
    assert forall i | 0 <= i < |g| :: s[pos + i] == g[i] by {
      forall i | 0 <= i < |g| ensures s[pos + i] == g[i] {
        assert source[pos..pos + |g|][i] == source[pos + i];
      }
    }
    assert s[pos + k..] == g[k..];
    Split(g, k);
    assert k > 0;
    LineStartUnique(s, pos + k);
  }

  lemma LineStartBefore(source: string, pos: nat, g: string)
    requires 0 < pos && pos + |g| <= |source| && source[pos..pos + |g|] == g && '\n' !in g
    requires !IsSpace(source[pos - 1])
    ensures LineStart(source[..pos + |g|]) < pos
  {
    var s := source[..pos + |g|];
    forall i | pos <= i < pos + |g| ensures s[i] != '\n' {
      assert s[i] == source[pos..pos + |g|][i - pos] == g[i - pos];
    }
    assert s[pos - 1] != '\n';
    assert LineStart(s) > 0 ==> s[LineStart(s) - 1] == '\n';
  }

  /** The text between the last newline of the gap and the token is the rest of the gap. */
  lemma GapAfterNewline(source: string, pos: nat, g: string)
    requires pos + |g| <= |source| && source[pos..pos + |g|] == g && '\n' in g
    ensures var k := LineStart(g);
            0 < k <= |g| && source[pos + k - 1] == '\n' && source[pos + k..pos + |g|] == g[k..]
  {
    hide LineStart;
    assert g[0..] == g;
    SliceDrop(source, pos, pos + |g|, LineStart(g));
  }

  lemma MarkerOnNewLine(source: string, index: nat, pos: nat, g: string, line: nat)
    requires pos + |g| <= |source| && source[pos..pos + |g|] == g && AllSpace(g) && '\n' in g
    ensures MarkerAt(source, index, pos + |g|, LineStart(source[..pos + |g|]), line)
         == GapMarker(g, Decimal(index), line, pos)
  {
    hide LineStart, Decimal;
    LineStartAfterNewline(source, pos, g);
    GapAfterNewline(source, pos, g);
    assert "" + LocText(index, line) == LocText(index, line);
  }

  lemma MarkerOnSharedLine(source: string, index: nat, pos: nat, g: string, line: nat)
    requires 0 < pos && pos + |g| <= |source| && source[pos..pos + |g|] == g && '\n' !in g
    requires !IsSpace(source[pos - 1])
    ensures MarkerAt(source, index, pos + |g|, LineStart(source[..pos + |g|]), line)
         == GapMarker(g, Decimal(index), line, pos)
  {
    hide LineStart, Decimal;
    var p := pos + |g|;
    LineStartBefore(source, pos, g);
    var ls := LineStart(source[..p]);
    assert source[ls..p][pos - 1 - ls] == source[pos - 1];
    assert source[p - 1] != '\n' by {
      if |g| > 0 { assert source[pos..p][|g| - 1] == source[p - 1]; }
    }
  }

  lemma MarkerInGap(source: string, index: nat, pos: nat, g: string, line: nat)
    requires 0 < pos && pos + |g| <= |source| && source[pos..pos + |g|] == g && AllSpace(g)
    requires !IsSpace(source[pos - 1])
    ensures MarkerAt(source, index, pos + |g|, LineStart(source[..pos + |g|]), line)
         == GapMarker(g, Decimal(index), line, pos)
  {
    hide MarkerAt, GapMarker, LineStart, Decimal, IsSpace;
    if '\n' in g {
      MarkerOnNewLine(source, index, pos, g, line);
    } else {
      MarkerOnSharedLine(source, index, pos, g, line);
    }
  }

  lemma SemiAddsNoLine(t: string)
    requires t != "" && t[|t| - 1] == ';'
    ensures Newlines(t[..|t| - 1]) == Newlines(t)
  {
    assert t == t[..|t| - 1] + ";";
    NewlinesConcat(t[..|t| - 1], ";");
    assert ";"[1..] == "" && Newlines(";") == 0;
  }

  lemma TextThroughSemi(source: string, x: Stream, pos: nat)
    requires pos <= |source| && source[pos..] == Text(x) && HasSemi(x)
    ensures var end := pos + |x.gap| + |UpToSemi(x)|;
            end <= |source| && source[..end] == source[..pos] + (x.gap + UpToSemi(x))
  {
    hide Text, HasSemi, UpToSemi;
    var w := x.gap + UpToSemi(x);
    CutAtSemi(x);
    assert source[pos..][..|w|] == w;
    assert source[..pos + |w|] == source[..pos] + source[pos..][..|w|];
  }

  lemma LineOfSemi(source: string, x: Stream, pos: nat)
    requires pos <= |source| && source[pos..] == Text(x) && HasSemi(x)
    ensures var end := pos + |x.gap| + |UpToSemi(x)|;
            && end <= |source| && source[end - 1] == ';'
            && LineNumber(source, end - 1) == MarkLine(x, Newlines(source[..pos]))
  {
    hide Text, HasSemi, UpToSemi, Newlines;
    var w := x.gap + UpToSemi(x);
    var end := pos + |w|;
    TextThroughSemi(source, x, pos);
    NewlinesConcat(source[..pos], w);
    EndsInSemi(x);
    assert source[end - 1] == source[..end][end - 1] == w[|w| - 1];
    SemiAddsNoLine(source[..end]);
    assert source[..end][..end - 1] == source[..end - 1];
  }

  lemma {:induction false} EndsInSemi(x: Stream)
    requires HasSemi(x)
    ensures UpToSemi(x)[|UpToSemi(x)| - 1] == ';'
  {
    if x.tok != ";" {
      EndsInSemi(x.rest);
    }
  }

  lemma GapSlice(source: string, x: Stream, pos: nat)
    requires x.Cons? && pos <= |source| && source[pos..] == Text(x)
    ensures pos + |x.gap| <= |source| && source[pos..pos + |x.gap|] == x.gap
  {
    SliceHead(source, x, pos);
  }

  lemma HeadMarker(m: Mode, x: Stream, source: string, index: nat, pos: nat)
    requires Closed(x) && StartsInstruction(m, x) && AfterInk(m, source, pos) && source[pos..] == Text(x)
    ensures var s := Span(pos + |x.gap|, pos + |x.gap| + |UpToSemi(x)|);
            && s.start < s.end <= |source|
            && Marker(source, index, s)
               == GapMarker(x.gap, Decimal(index), MarkLine(x, Newlines(source[..pos])), pos)
  {
    hide MarkerAt, GapMarker, MarkLine, LineNumber, LineStart, StartsInstruction, AfterInk, Closed, IsSpace, Newlines,
         Text, HasSemi, UpToSemi, AllSpace;
    StartFacts(m, x);
    ClosedHead(x);
    InkBefore(m, source, pos);
    LineOfSemi(source, x, pos);
    GapSlice(source, x, pos);
    MarkerInGap(source, index, pos, x.gap, MarkLine(x, Newlines(source[..pos])));
  }

  lemma NewlinesNext(source: string, x: Stream, pos: nat)
    requires x.Cons? && pos <= |source| && source[pos..] == Text(x)
    ensures var end := pos + |x.gap| + |x.tok|;
            end <= |source| && Newlines(source[..end]) == Newlines(source[..pos]) + Newlines(x.gap + x.tok)
  {
    var end := pos + |x.gap| + |x.tok|;
    SliceHead(source, x, pos);
    assert source[..end] == source[..pos] + (x.gap + x.tok);
    NewlinesConcat(source[..pos], x.gap + x.tok);
  }

  lemma AfterToken(m: Mode, x: Stream, source: string, pos: nat)
    requires x.Cons? && Closed(x) && pos <= |source| && source[pos..] == Text(x)
    ensures AfterInk(After(m, x), source, pos + |x.gap| + |x.tok|)
  {
    hide Step;
    var end := pos + |x.gap| + |x.tok|;
    SliceHead(source, x, pos);
    TokenEndsInk(x.tok);
    assert Slice(source, pos, end)[|x.gap| + |x.tok| - 1] == x.tok[|x.tok| - 1];
    assert Slice(source, pos, end)[|x.gap| + |x.tok| - 1] == source[end - 1];
  }

  lemma InsideFrom(source: string, m: Mode, x: Stream, pos: nat)
    requires pos <= |source| && source[pos..] == Text(x)
    ensures Inside(source, Spans(m, x, pos))
  {
    hide Spans, Text;
    SpansOrdered(m, x, pos);
    OrderedInside(source, Spans(m, x, pos), pos);
  }

  ghost predicate MarkersAgree(m: Mode, x: Stream, source: string, index: nat, pos: nat) {
    && pos <= |source|
    && Inside(source, Spans(m, x, pos))
    && MarkersOf(source, index, Spans(m, x, pos)) == Marks(m, x, Decimal(index), Newlines(source[..pos]), pos)
  }

  lemma MarkersAgreeTake(m: Mode, x: Stream, source: string, index: nat, pos: nat)
    requires Closed(x) && AfterInk(m, source, pos) && source[pos..] == Text(x) && StartsInstruction(m, x)
    requires MarkersAgree(After(m, x), x.rest, source, index, pos + |x.gap| + |x.tok|)
    ensures MarkersAgree(m, x, source, index, pos)
  {
    hide Step, StartsInstruction, Spans, MarkersOf, Marker, GapMarker, Text, Closed, MarkLine, Newlines, Inside, Marks,
         HasSemi, UpToSemi, AfterInk, AllSpace, Decimal;
    StartFacts(m, x);
    InkBefore(m, source, pos);
    var end := pos + |x.gap| + |x.tok|;
    NewlinesNext(source, x, pos);
    InsideFrom(source, m, x, pos);
    HeadMarker(m, x, source, index, pos);
    MarksTake(m, x, Decimal(index), Newlines(source[..pos]), pos);
    SpansTake(m, x, pos);
    MarkersFirst(source, index, Span(pos + |x.gap|, pos + |x.gap| + |UpToSemi(x)|), Spans(After(m, x), x.rest, end));
  }

  lemma MarkersAgreeSkip(m: Mode, x: Stream, source: string, index: nat, pos: nat)
    requires x.Cons? && pos <= |source| && source[pos..] == Text(x) && !StartsInstruction(m, x)
    requires MarkersAgree(After(m, x), x.rest, source, index, pos + |x.gap| + |x.tok|)
    ensures MarkersAgree(m, x, source, index, pos)
  {
    hide Step, StartsInstruction, Spans, MarkersOf, Text, Newlines, Inside, GapMarker, Marks, Decimal;
    NewlinesNext(source, x, pos);
    MarksSkip(m, x, Decimal(index), Newlines(source[..pos]), pos);
    SpansSkip(m, x, pos);
  }

  /** The markers computed from the source positions are those read off the stream. */
  lemma {:induction false} MarkersAreMarks(m: Mode, x: Stream, source: string, index: nat, pos: nat)
    requires Closed(x) && AfterInk(m, source, pos) && source[pos..] == Text(x)
    ensures MarkersAgree(m, x, source, index, pos)
    decreases x
  {
    hide Step, StartsInstruction, MarkersAgree, Text, AfterInk, Closed;
    InkBefore(m, source, pos);
    ClosedHead(x);
    if x.Cons? {
      var end := pos + |x.gap| + |x.tok|;
      Descend(source, x, pos);
      AfterToken(m, x, source, pos);
      MarkersAreMarks(After(m, x), x.rest, source, index, end);
      if StartsInstruction(m, x) {
        MarkersAgreeTake(m, x, source, index, pos);
      } else {
        MarkersAgreeSkip(m, x, source, index, pos);
      }
    } else {
      MarkersAgreeEnd(m, x, source, index, pos);
    }
  }

  lemma MarkersAgreeEnd(m: Mode, x: Stream, source: string, index: nat, pos: nat)
    requires x.End? && pos <= |source|
    ensures MarkersAgree(m, x, source, index, pos)
  {
  }

  // ----- weaving prints the marked stream -----

  /** The insertions still to come: the markers of `x`, and the `.file` directive if `a` is not 0. */
  function ToInsert(m: Mode, x: Stream, f: string, n: nat, pos: nat, a: nat, file: string): seq<Insertion> {
    if a == 0 then Marks(m, x, f, n, pos) else InsertSorted(Insertion(pos + a, file), Marks(m, x, f, n, pos))
  }

  ghost predicate AllFrom(ins: seq<Insertion>, lo: nat, hi: nat) {
    forall i | i in ins :: lo <= i.at <= hi
  }

  lemma {:induction false} MarksFrom(m: Mode, x: Stream, f: string, n: nat, pos: nat)
    requires Closed(x)
    ensures AllFrom(Marks(m, x, f, n, pos), pos, pos + |Text(x)|)
    ensures Sorted(Marks(m, x, f, n, pos))
    decreases x
  {
    hide Step, StartsInstruction, Marks, AllFrom, Sorted, GapMarker, Text, Closed, HasSemi, MarkLine;
    ClosedHead(x);
    if x.Cons? {
      var pos' := pos + |x.gap| + |x.tok|;
      var n' := n + Newlines(x.gap + x.tok);
      MarksFrom(After(m, x), x.rest, f, n', pos');
      TextLength(x);
      var later := Marks(After(m, x), x.rest, f, n', pos');
      if StartsInstruction(m, x) {
        StartFacts(m, x);
        MarksTake(m, x, f, n, pos);
        GapMarkerAt(x.gap, f, MarkLine(x, n), pos);
        FromCons(GapMarker(x.gap, f, MarkLine(x, n), pos), later, pos, pos', pos + |Text(x)|);
      } else {
        MarksSkip(m, x, f, n, pos);
        FromLess(later, pos, pos', pos + |Text(x)|);
      }
    } else {
      NoMarks(m, x, f, n, pos);
    }
  }

  lemma NoMarks(m: Mode, x: Stream, f: string, n: nat, pos: nat)
    requires x.End?
    ensures Marks(m, x, f, n, pos) == [] && AllFrom([], pos, pos + |Text(x)|) && Sorted([])
  {
  }

  lemma GapMarkerAt(g: string, f: string, line: nat, pos: nat)
    ensures pos <= GapMarker(g, f, line, pos).at <= pos + |g|
  {
  }

  lemma FromLess(ins: seq<Insertion>, lo: nat, mid: nat, hi: nat)
    requires lo <= mid && AllFrom(ins, mid, hi)
    ensures AllFrom(ins, lo, hi)
  {
  }

  lemma FromCons(i: Insertion, ins: seq<Insertion>, lo: nat, mid: nat, hi: nat)
    requires lo <= i.at < mid <= hi && AllFrom(ins, mid, hi) && Sorted(ins)
    ensures AllFrom([i] + ins, lo, hi) && Sorted([i] + ins)
  {
    SortedCons(i, ins);
  }

  lemma SortedCons(i: Insertion, ins: seq<Insertion>)
    requires Sorted(ins) && (forall j | j in ins :: i.at < j.at)
    ensures Sorted([i] + ins)
  {
    assert ([i] + ins)[1..] == ins;
    if ins != [] { assert ins[0] in ins; }
  }

  lemma {:induction false} InsertedFrom(i: Insertion, ins: seq<Insertion>, lo: nat, hi: nat)
    requires AllFrom(ins, lo, hi) && lo <= i.at <= hi
    ensures AllFrom(InsertSorted(i, ins), lo, hi)
  {
    hide Leq;
    if ins != [] && !Leq(i, ins[0]) {
      assert AllFrom(ins[1..], lo, hi);
      InsertedFrom(i, ins[1..], lo, hi);
      assert ins[0] in ins;
    }
  }

  lemma ToInsertFrom(m: Mode, x: Stream, f: string, n: nat, pos: nat, a: nat, file: string)
    requires Closed(x) && a <= |Text(x)|
    ensures AllFrom(ToInsert(m, x, f, n, pos, a, file), pos, pos + |Text(x)|)
  {
    hide Marks, InsertSorted;
    MarksFrom(m, x, f, n, pos);
    if a != 0 {
      InsertedFrom(Insertion(pos + a, file), Marks(m, x, f, n, pos), pos, pos + |Text(x)|);
    }
  }

  /** Where no instruction can start, no marker stands at the very start of the stream. */
  lemma LaterMarks(m: Mode, x: Stream, f: string, n: nat, pos: nat)
    requires Closed(x) && (m.Module? || m.stmt != Idle)
    ensures forall i | i in Marks(m, x, f, n, pos) :: pos < i.at
  {
    hide Marks, Step, Text, Newlines, Closed, IsToken;
    ClosedHead(x);
    if x.Cons? {
      MarksSkip(m, x, f, n, pos);
      MarksFrom(After(m, x), x.rest, f, n + Newlines(x.gap + x.tok), pos + |x.gap| + |x.tok|);
    } else {
      NoMarks(m, x, f, n, pos);
    }
  }

  lemma InsertFirst(i: Insertion, ins: seq<Insertion>)
    requires forall j | j in ins :: i.at < j.at
    ensures InsertSorted(i, ins) == [i] + ins
  {
    if ins != [] { assert ins[0] in ins; }
  }

  lemma InsertPast(i: Insertion, j: Insertion, ins: seq<Insertion>)
    requires j.at < i.at
    ensures InsertSorted(i, [j] + ins) == [j] + InsertSorted(i, ins)
  {
    assert ([j] + ins)[1..] == ins;
  }

  lemma {:induction false} PlaceFits(m: Mode, x: Stream, a: nat)
    requires Place(m, x, a)
    ensures a <= |Text(x)|
    decreases x
  {
    hide Step;
    if x.Cons? {
      TextLength(x);
      if a > |x.gap| + |x.tok| {
        PlaceFits(After(m, x), x.rest, a - |x.gap| - |x.tok|);
      }
    }
  }

  // How the insertions of `x` split at its first token.

  lemma GapMarkerBefore(x: Stream, f: string, line: nat, pos: nat)
    ensures GapMarker(x.gap, f, line, pos).at <= pos + |x.gap|
  {
  }

  lemma ToInsertTake(m: Mode, x: Stream, f: string, n: nat, pos: nat, a: nat, file: string)
    requires Closed(x) && StartsInstruction(m, x) && Place(m, x, a)
    ensures var k := |x.gap| + |x.tok|;
            && a != k
            && ToInsert(m, x, f, n, pos, a, file)
               == [GapMarker(x.gap, f, MarkLine(x, n), pos)]
                  + ToInsert(After(m, x), x.rest, f, n + Newlines(x.gap + x.tok), pos + k, Less(a, k), file)
  {
    hide Marks, InsertSorted, Step, StartsInstruction, Closed, Newlines, Place, GapMarker, MarkLine;
    ClosedHead(x);
    StartFacts(m, x);
    var k := |x.gap| + |x.tok|;
    GapMarkerBefore(x, f, MarkLine(x, n), pos);
    PlaceRest(m, x, a);
    PlaceInBody(m, x, a);
    MarksTake(m, x, f, n, pos);
    var first := GapMarker(x.gap, f, MarkLine(x, n), pos);
    if a != 0 {
      InsertPast(Insertion(pos + a, file), first,
                 Marks(After(m, x), x.rest, f, n + Newlines(x.gap + x.tok), pos + k));
    }
  }

  lemma ToInsertSkip(m: Mode, x: Stream, f: string, n: nat, pos: nat, a: nat, file: string)
    requires Closed(x) && x.Cons? && !StartsInstruction(m, x) && Place(m, x, a)
    ensures var k := |x.gap| + |x.tok|;
            var later := ToInsert(After(m, x), x.rest, f, n + Newlines(x.gap + x.tok), pos + k, Less(a, k), file);
            && ToInsert(m, x, f, n, pos, a, file)
               == if a == k then [Insertion(pos + k, file)] + later else later
  {
    hide Marks, InsertSorted, Step, StartsInstruction, Closed, Newlines, Place;
    var k := |x.gap| + |x.tok|;
    ClosedHead(x);
    PlaceRest(m, x, a);
    MarksSkip(m, x, f, n, pos);
    if a == k {
      LaterMarks(After(m, x), x.rest, f, n + Newlines(x.gap + x.tok), pos + k);
      InsertFirst(Insertion(pos + k, file), Marks(After(m, x), x.rest, f, n + Newlines(x.gap + x.tok), pos + k));
    }
  }

  /** Weaving into the source from `pos` on prints the marked stream. */
  ghost predicate WeaveAgrees(m: Mode, x: Stream, source: string, f: string, n: nat, pos: nat, a: nat, q: string)
    requires f != ""
  {
    Weave(source, pos, ToInsert(m, x, f, n, pos, a, FileTextOf(f, q))) == Text(Mark(m, x, f, n, a, q))
  }

  function FileTextOf(f: string, q: string): string {
    "\n.file " + f + " " + q + "\n"
  }

  lemma FilePrinted(f: string, q: string, y: Stream)
    requires f != ""
    ensures Text(FileStream(f, q, y)) == FileTextOf(f, q) + Text(y)
  {
    var z := Cons(" ", q, AddGap("\n", y));
    AddGapText(y);
    DigitsText(" ", f, z);
    var t := Text(y);
    assert Text(z) == " " + q + ("\n" + t);
    assert "\n" + ".file" + (" " + f + (" " + q + ("\n" + t))) == "\n.file " + f + " " + q + "\n" + t;
  }

  lemma AddGapText(y: Stream)
    ensures Text(AddGap("\n", y)) == "\n" + Text(y)
  {
    if y.Cons? {
      var n := "\n";
      assert n + y.gap + y.tok + Text(y.rest) == n + (y.gap + y.tok + Text(y.rest));
    }
  }

  lemma LocPrinted(g: string, f: string, l: string, t: string, y: Stream)
    requires f != "" && l != ""
    ensures Text(LocStream(MarkGap(g), f, l, Cons("\n" + RestGap(g), t, y)))
         == MarkGap(g) + (".loc " + f + " " + l + " 0\n") + (RestGap(g) + t + Text(y))
  {
    hide MarkGap, RestGap;
    var z := Cons("\n" + RestGap(g), t, y);
    var zero := Cons(" ", "0", z);
    DigitsText(" ", l, zero);
    DigitsText(" ", f, Digits(" ", l, zero));
    var u := RestGap(g) + t + Text(y);
    assert Text(z) == "\n" + u;
    assert Text(zero) == " 0\n" + u;
    assert ".loc" + (" " + f + (" " + l + (" 0\n" + u))) == (".loc " + f + " " + l + " 0\n") + u;
    var head := ".loc " + f + " " + l + " 0\n";
    assert MarkGap(g) + ".loc" + (" " + f + (" " + l + (" 0\n" + u)))
        == MarkGap(g) + (".loc" + (" " + f + (" " + l + (" 0\n" + u))));
    assert MarkGap(g) + (head + u) == MarkGap(g) + head + u;
  }

  /** The marker cuts the white space as the marked stream does. */
  lemma GapCut(source: string, pos: nat, g: string, t: string, f: string, line: nat)
    requires pos + |g| + |t| <= |source|
    requires Slice(source, pos, pos + |g|) == g && Slice(source, pos, pos + |g| + |t|) == g + t
    ensures var mk := GapMarker(g, f, line, pos);
            && pos <= mk.at <= pos + |g|
            && Slice(source, pos, mk.at) + mk.text == MarkGap(g) + (".loc " + f + " " + Decimal(line) + " 0\n")
            && Slice(source, mk.at, pos + |g| + |t|) == RestGap(g) + t
  {
    hide Decimal;
    var loc := ".loc " + f + " " + Decimal(line) + " 0\n";
    var mk := GapMarker(g, f, line, pos);
    var k := mk.at - pos;
    assert Slice(source, pos, mk.at) == g[..k] by {
      assert Slice(source, pos, mk.at) == Slice(source, pos, pos + |g|)[..k];
    }
    assert Slice(source, mk.at, pos + |g| + |t|) == (g + t)[k..] by {
      assert Slice(source, mk.at, pos + |g| + |t|) == Slice(source, pos, pos + |g| + |t|)[k..];
    }
    DropConcat(g, t, k);
    if '\n' !in g {
      assert g[..k] == g && g[k..] == "";
      assert g + ("\n" + loc) == (g + "\n") + loc;
      assert "" + t == t;
    }
  }

  lemma MarkUnfold(m: Mode, x: Stream, f: string, n: nat, a: nat, q: string)
    requires f != "" && x.Cons?
    ensures StartsInstruction(m, x) ==>
              HasSemi(x) &&
              Mark(m, x, f, n, a, q)
              == LocStream(MarkGap(x.gap), f, Decimal(MarkLine(x, n)),
                           Cons("\n" + RestGap(x.gap), x.tok, MarkRest(m, x, f, n, a, q)))
    ensures !StartsInstruction(m, x) ==>
              Mark(m, x, f, n, a, q) == Cons(x.gap, x.tok, MarkRest(m, x, f, n, a, q))
    ensures var k := |x.gap| + |x.tok|;
            var tail := Mark(After(m, x), x.rest, f, n + Newlines(x.gap + x.tok), Less(a, k), q);
            MarkRest(m, x, f, n, a, q) == if a == k then FileStream(f, q, tail) else tail
  {
    hide Step;
  }

  lemma FirstFrom(ins: seq<Insertion>, lo: nat, hi: nat)
    requires AllFrom(ins, lo, hi)
    ensures ins != [] ==> lo <= ins[0].at <= hi
  {
  }

  /** What is still to insert after the first token stands after it. */
  lemma LaterFrom(m: Mode, x: Stream, f: string, n: nat, pos: nat, a: nat, file: string, source: string)
    requires Closed(x) && x.Cons? && Place(m, x, a) && |source| == pos + |Text(x)|
    ensures var k := |x.gap| + |x.tok|;
            var ins := ToInsert(After(m, x), x.rest, f, n + Newlines(x.gap + x.tok), pos + k, Less(a, k), file);
            && Place(After(m, x), x.rest, Less(a, k))
            && (ins != [] ==> pos + k <= ins[0].at <= |source|)
  {
    hide Step, ToInsert, Text, Closed, AllFrom;
    ClosedHead(x);
    var k := |x.gap| + |x.tok|;
    TextLength(x);
    PlaceRest(m, x, a);
    PlaceFits(After(m, x), x.rest, Less(a, k));
    ToInsertFrom(After(m, x), x.rest, f, n + Newlines(x.gap + x.tok), pos + k, Less(a, k), file);
    FirstFrom(ToInsert(After(m, x), x.rest, f, n + Newlines(x.gap + x.tok), pos + k, Less(a, k), file),
              pos + k, |source|);
  }

  lemma WeaveTake(m: Mode, x: Stream, source: string, f: string, n: nat, pos: nat, a: nat, q: string)
    requires f != "" && Closed(x) && StartsInstruction(m, x) && Place(m, x, a)
    requires pos <= |source| && source[pos..] == Text(x)
    requires var k := |x.gap| + |x.tok|;
             WeaveAgrees(After(m, x), x.rest, source, f, n + Newlines(x.gap + x.tok), pos + k, Less(a, k), q)
    ensures WeaveAgrees(m, x, source, f, n, pos, a, q)
  {
    hide Step, StartsInstruction, ToInsert, Text, Closed, Weave, Mark, MarkRest, LocStream, Slice, GapMarker, Place,
         MarkGap, RestGap, MarkLine, Decimal, FileTextOf, HasSemi;
    StartFacts(m, x);
    var k, line := |x.gap| + |x.tok|, MarkLine(x, n);
    var file := FileTextOf(f, q);
    var later := ToInsert(After(m, x), x.rest, f, n + Newlines(x.gap + x.tok), pos + k, Less(a, k), file);
    var mk := GapMarker(x.gap, f, line, pos);
    ToInsertTake(m, x, f, n, pos, a, file);
    LaterFrom(m, x, f, n, pos, a, file, source);
    SliceHead(source, x, pos);
    GapCut(source, pos, x.gap, x.tok, f, line);
    WeaveFirst(source, pos, mk, later);
    WeaveSkip(source, mk.at, pos + k, later);
    MarkUnfold(m, x, f, n, a, q);
    LocPrinted(x.gap, f, Decimal(line), x.tok, MarkRest(m, x, f, n, a, q));
  }

  lemma Group3(a: string, b: string, c: string)
    ensures a + b + c == a + (b + c)
  {
  }

  lemma WeaveCopy(m: Mode, x: Stream, source: string, f: string, n: nat, pos: nat, a: nat, q: string)
    requires f != "" && Closed(x) && x.Cons? && !StartsInstruction(m, x) && Place(m, x, a)
    requires pos <= |source| && source[pos..] == Text(x)
    requires var k := |x.gap| + |x.tok|;
             WeaveAgrees(After(m, x), x.rest, source, f, n + Newlines(x.gap + x.tok), pos + k, Less(a, k), q)
    ensures WeaveAgrees(m, x, source, f, n, pos, a, q)
  {
    hide Step, StartsInstruction, ToInsert, Text, Closed, Weave, Mark, MarkRest, FileStream, Slice, Place, FileTextOf,
         Newlines;
    var k := |x.gap| + |x.tok|;
    var file := FileTextOf(f, q);
    var later := ToInsert(After(m, x), x.rest, f, n + Newlines(x.gap + x.tok), pos + k, Less(a, k), file);
    var tail := Mark(After(m, x), x.rest, f, n + Newlines(x.gap + x.tok), Less(a, k), q);
    ToInsertSkip(m, x, f, n, pos, a, file);
    LaterFrom(m, x, f, n, pos, a, file, source);
    SliceHead(source, x, pos);
    MarkUnfold(m, x, f, n, a, q);
    TextUnfold(Mark(m, x, f, n, a, q));
    if a == k {
      WeaveFirst(source, pos, Insertion(pos + k, file), later);
      FilePrinted(f, q, tail);
      Group3(x.gap + x.tok, file, Text(tail));
    } else {
      WeaveSkip(source, pos, pos + k, later);
    }
  }

  lemma TextUnfold(y: Stream)
    requires y.Cons?
    ensures Text(y) == y.gap + y.tok + Text(y.rest)
  {
  }

  lemma WeaveEnd(m: Mode, x: Stream, source: string, f: string, n: nat, pos: nat, q: string)
    requires f != "" && x.End? && pos <= |source| && source[pos..] == Text(x)
    ensures WeaveAgrees(m, x, source, f, n, pos, 0, q)
  {
  }

  lemma {:induction false} WeaveIsMark(m: Mode, x: Stream, source: string, f: string, n: nat, pos: nat, a: nat, q: string)
    requires f != "" && Closed(x) && Place(m, x, a)
    requires pos <= |source| && source[pos..] == Text(x)
    ensures WeaveAgrees(m, x, source, f, n, pos, a, q)
    decreases x
  {
    hide Step, StartsInstruction, Text, Closed, WeaveAgrees, Newlines;
    ClosedHead(x);
    if x.Cons? {
      var k := |x.gap| + |x.tok|;
      Descend(source, x, pos);
      PlaceRest(m, x, a);
      WeaveIsMark(After(m, x), x.rest, source, f, n + Newlines(x.gap + x.tok), pos + k, Less(a, k), q);
      if StartsInstruction(m, x) {
        WeaveTake(m, x, source, f, n, pos, a, q);
      } else {
        WeaveCopy(m, x, source, f, n, pos, a, q);
      }
    } else {
      WeaveEnd(m, x, source, f, n, pos, q);
    }
  }
}
