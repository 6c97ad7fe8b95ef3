/** What normalising does to the text of an instruction and to the text between instructions, exactly. */
module PtxOutside {
  import opened PtxText
  import opened PtxLex
  import opened PtxComments
  import opened PtxLoosen
  import opened PtxScan
  import opened PtxNormalize
  import opened PtxGuide

  // ----- instructions -----

  /** The tokens through the first semicolon, with one space wherever there is white space between two. */
  function Joined(x: Stream): string
    requires HasSemi(x)
  {
    if x.tok == ";" then ";" else x.tok + (if x.rest.gap == "" then "" else " ") + Joined(x.rest)
  }

  lemma {:induction false} FoldedIsJoined(x: Stream)
    requires Closed(x) && HasSemi(x)
    ensures FoldSpaces(UpToSemi(x)) == Joined(x)
  {
    if x.tok == ";" {
      FoldSemi();
    } else {
      FoldedIsJoined(x.rest);
      UpToSemiInk(x.rest);
      FoldStep(x.tok, x.rest.gap, UpToSemi(x.rest));
    }
  }

  function JoinedTexts(m: Mode, x: Stream): seq<string>
    decreases x
  {
    if x.End? then []
    else (if StartsInstruction(m, x) then [Joined(x)] else []) + JoinedTexts(After(m, x), x.rest)
  }

  lemma {:induction false} FoldedAreJoined(m: Mode, x: Stream)
    requires Closed(x)
    ensures Folded(InstructionTexts(m, x)) == JoinedTexts(m, x)
    decreases x
  {
    hide Step, Begins, FoldSpaces, UpToSemi, Joined, HasSemi;
    if x.Cons? {
      FoldedAreJoined(After(m, x), x.rest);
      if StartsInstruction(m, x) {
        StartFacts(m, x);
        FoldedIsJoined(x);
        SpansTake(m, x, 0);
        FoldedCons(UpToSemi(x), InstructionTexts(After(m, x), x.rest));
      } else {
        SpansSkip(m, x, 0);
      }
    }
  }

  lemma FoldedCons(t: string, texts: seq<string>)
    ensures Folded([t] + texts) == [FoldSpaces(t)] + Folded(texts)
  {
    assert ([t] + texts)[1..] == texts;
  }

  // ----- the text between instructions -----

  /** The pieces of the source before, between and after these spans. */
  function Between(source: string, from: nat, spans: seq<Span>): seq<string>
    decreases |spans|
  {
    if spans == [] then [Slice(source, from, |source|)]
    else [Slice(source, from, spans[0].start)] + Between(source, spans[0].end, spans[1..])
  }

  /** The pieces with a newline next to each instruction. */
  function Framing(pieces: seq<string>, before: string): seq<string>
    requires pieces != []
    decreases |pieces|
  {
    if |pieces| == 1 then [before + pieces[0]]
    else [before + pieces[0] + "\n"] + Framing(pieces[1..], "\n")
  }

  function Prepend(t: string, pieces: seq<string>): seq<string>
    requires pieces != []
  {
    [t + pieces[0]] + pieces[1..]
  }

  /** The pieces of a stream. */
  function Outside(m: Mode, x: Stream): (pieces: seq<string>)
    ensures pieces != []
    decreases Size(x)
  {
    if x.End? then [x.gap]
    else if StartsInstruction(m, x) then [x.gap] + Outside(m, PastSemi(x))
    else Prepend(x.gap + x.tok, Outside(After(m, x), x.rest))
  }

  lemma BetweenTake(source: string, from: nat, s: Span, spans: seq<Span>)
    ensures Between(source, from, [s] + spans) == [Slice(source, from, s.start)] + Between(source, s.end, spans)
  {
    assert ([s] + spans)[1..] == spans;
  }

  lemma BetweenSkip(source: string, from: nat, mid: nat, spans: seq<Span>)
    requires from <= mid <= |source| && (spans != [] ==> mid <= spans[0].start <= |source|)
    ensures Between(source, mid, spans) != []
    ensures Between(source, from, spans) == Prepend(Slice(source, from, mid), Between(source, mid, spans))
  {
    if spans == [] {
      SliceSplit(source, from, mid, |source|);
    } else {
      SliceSplit(source, from, mid, spans[0].start);
    }
  }

  lemma {:induction false} OutsideIsBetween(m: Mode, x: Stream, source: string, pos: nat)
    requires pos <= |source| && source[pos..] == Text(x)
    ensures Between(source, pos, Spans(m, x, pos)) == Outside(m, x)
    decreases Size(x)
  {
    hide Step, StartsInstruction, Spans, Text, Slice, UpToSemi, HasSemi, PastSemi, Between, Prepend;
    OutsideUnfold(m, x);
    if x.End? {
      OutsideEnd(m, x, source, pos);
    } else if StartsInstruction(m, x) {
      StartFacts(m, x);
      var end := pos + |x.gap| + |UpToSemi(x)|;
      CutInstruction(source, x, pos);
      SliceHead(source, x, pos);
      ShorterPastSemi(x);
      OutsideIsBetween(m, PastSemi(x), source, end);
      StartThenRest(m, x, pos);
      BetweenTake(source, pos, Span(pos + |x.gap|, end), Spans(m, PastSemi(x), end));
    } else {
      var end := pos + |x.gap| + |x.tok|;
      Descend(source, x, pos);
      SliceHead(source, x, pos);
      OutsideIsBetween(After(m, x), x.rest, source, end);
      SpansSkip(m, x, pos);
      FirstSpan(After(m, x), x.rest, source, end);
      BetweenSkip(source, pos, end, Spans(After(m, x), x.rest, end));
    }
  }

  lemma OutsideUnfold(m: Mode, x: Stream)
    ensures x.End? ==> Outside(m, x) == [x.gap]
    ensures StartsInstruction(m, x) ==> HasSemi(x) && Outside(m, x) == [x.gap] + Outside(m, PastSemi(x))
    ensures x.Cons? && !StartsInstruction(m, x) ==>
              Outside(m, x) == Prepend(x.gap + x.tok, Outside(After(m, x), x.rest))
  {
    hide Step, Begins;
  }

  lemma OutsideEnd(m: Mode, x: Stream, source: string, pos: nat)
    requires x.End? && pos <= |source| && source[pos..] == Text(x)
    ensures Between(source, pos, Spans(m, x, pos)) == [x.gap]
  {
    assert Slice(source, pos, |source|) == source[pos..];
  }

  lemma FirstSpan(m: Mode, x: Stream, source: string, pos: nat)
    requires pos <= |source| && source[pos..] == Text(x)
    ensures var spans := Spans(m, x, pos); spans != [] ==> pos <= spans[0].start <= |source|
  {
    hide Spans, Text;
    SpansOrdered(m, x, pos);
    var spans := Spans(m, x, pos);
    assert spans != [] ==> spans[0] in spans;
  }

  lemma PrependFraming(t: string, pieces: seq<string>, carry: string)
    requires pieces != []
    ensures Prepend(carry + t, Framing(pieces, "")) == Framing(Prepend(t, pieces), carry)
  {
    var p := pieces[0];
    assert Prepend(t, pieces)[0] == t + p && Prepend(t, pieces)[1..] == pieces[1..];
    assert (carry + t) + ("" + p) == carry + (t + p);
    if |pieces| > 1 {
      assert (carry + t) + ("" + p + "\n") == carry + (t + p) + "\n";
    }
  }

  lemma FramingCons(g: string, pieces: seq<string>, carry: string)
    requires pieces != []
    ensures Framing([g] + pieces, carry) == [carry + g + "\n"] + Framing(pieces, "\n")
  {
    assert ([g] + pieces)[1..] == pieces;
  }

  /** Normalising keeps the pieces, but for a newline at each side of an instruction. */
  lemma {:induction false} NormOutside(m: Mode, x: Stream, carry: string)
    requires Closed(x) && !Continues(m, x) && AllSpace(carry)
    ensures Outside(m, Norm(m, x, carry)) == Framing(Outside(m, x), carry)
    decreases Size(x)
  {
    hide Step, StartsInstruction, Norm, UpToSemi, HasSemi, PastSemi, Prepend, Framing, Closed, Continues, FoldSpaces, Carry,
         Outside;
    var y := Norm(m, x, carry);
    OutsideUnfold(m, x);
    OutsideUnfold(m, y);
    NormHead(m, x, carry);
    ClosedHead(x);
    if x.End? {
      FramingOne(x.gap, carry);
    } else {
      SameStep(m, x, carry);
      HeadOfNorm(m, x, carry);
      if StartsInstruction(m, x) {
        StartFacts(m, x);
        NormFolds(m, x, carry);
        ClosedPastSemi(x);
        ShorterPastSemi(x);
        NotPending(m, PastSemi(x));
        NewlineIsSpace();
        NormOutside(m, PastSemi(x), "\n");
        FramingCons(x.gap, Outside(m, PastSemi(x)), carry);
      } else {
        StillCopying(m, x);
        NormCopies(m, x);
        NormOutside(After(m, x), x.rest, "");
        PrependFraming(x.gap + x.tok, Outside(After(m, x), x.rest), carry);
        assert carry + x.gap + x.tok == carry + (x.gap + x.tok);
      }
    }
  }

  lemma NewlineIsSpace()
    ensures AllSpace("\n") && AllSpace("")
  {
  }

  lemma FramingOne(g: string, carry: string)
    ensures Framing([g], carry) == [carry + g]
  {
  }

  lemma NormHead(m: Mode, x: Stream, carry: string)
    requires !Continues(m, x)
    ensures x.End? ==> Norm(m, x, carry) == End(carry + x.gap)
    ensures x.Cons? ==>
              Norm(m, x, carry).gap == if StartsInstruction(m, x) then carry + x.gap + "\n" else carry + x.gap
  {
    hide Step;
  }

  /**
   The normalised text, piece by piece: what stands before, between and after the instructions is there verbatim,
   with one newline more on each side of an instruction; and each instruction is its tokens with one space for
   whatever white space stood between two.
   */
  lemma NormalizedExactly(source: string)
    requires QuotesClosed(source)
    ensures var c, n := WithoutComments(source), Normalized(source);
            && Between(c, 0, SourceSpans(c)) != []
            && Between(n, 0, SourceSpans(n)) == Framing(Between(c, 0, SourceSpans(c)), "")
            && Slices(n, SourceSpans(n)) == JoinedTexts(START, Lex(c))
  {
    hide Lex, Closed, Norm, Text, WithoutComments, Normalized, Outside, Between, Spans, InstructionTexts, Slices, Folded,
         WellFormed, Separated, CommentFree, Loosens, InstructionTokens, Tokens, Ordered, JoinedTexts, Continues, Framing;
    var c, n := WithoutComments(source), Normalized(source);
    var x := Lex(c);
    ClosedSource(source);
    NormalizedLexes(source);
    NothingContinues(x);
    NewlineIsSpace();
    NormOutside(START, x, "");
    assert c[0..] == c && n[0..] == n;
    OutsideIsBetween(START, x, c, 0);
    OutsideIsBetween(START, Norm(START, x, ""), n, 0);
    NormalizePreservesProgram(source);
    FoldedAreJoined(START, x);
    SourceTexts(n);
  }

  lemma NothingContinues(x: Stream)
    ensures !Continues(START, x)
  {
  }
}
