/** Putting each complete PTX instruction on a line of its own. */
module PtxNormalize {
  import opened PtxText
  import opened PtxLex
  import opened PtxComments
  import opened PtxLoosen
  import opened PtxScan

  /** Each run of white space outside string literals becomes one space. */
  function FoldSpaces(s: string): string
    decreases |s|
  {
    if s == "" then ""
    else if s[0] == '"' && StringTail(s[1..], false).Some? then
      var n := 1 + StringTail(s[1..], false).value;
      s[..n] + FoldSpaces(s[n..])
    else if IsSpace(s[0]) then " " + FoldSpaces(s[SpaceRun(s)..])
    else [s[0]] + FoldSpaces(s[1..])
  }

  /** A complete instruction on a line of its own. */
  function OwnLine(statement: string): string {
    "\n" + FoldSpaces(statement) + "\n"
  }

  /** The output for the source from position `cursor` on. */
  function Rebuild(source: string, cursor: nat, spans: seq<Span>): string
    decreases |spans|
  {
    if spans == [] then Slice(source, cursor, |source|)
    else
      Slice(source, cursor, spans[0].start) + OwnLine(Slice(source, spans[0].start, spans[0].end))
      + Rebuild(source, spans[0].end, spans[1..])
  }

  function Normalized(source: string): string {
    var c := WithoutComments(source);
    Rebuild(c, 0, SourceSpans(c))
  }

  function Join(parts: seq<string>): string {
    if parts == [] then "" else Join(parts[..|parts| - 1]) + parts[|parts| - 1]
  }

  lemma JoinMore(parts: seq<string>, p: string)
    ensures Join(parts + [p]) == Join(parts) + p
  {
    assert (parts + [p])[..|parts|] == parts;
  }

  lemma JoinLine(parts: seq<string>, p: string, q: string)
    ensures Join(parts + [p] + ["\n"] + [q] + ["\n"]) == Join(parts) + (p + ("\n" + q + "\n"))
  {
    JoinMore(parts, p);
    JoinMore(parts + [p], "\n");
    JoinMore(parts + [p] + ["\n"], q);
    JoinMore(parts + [p] + ["\n"] + [q], "\n");
  }

  lemma RebuildMore(a: string, b: string, c: string, d: string)
    ensures a + (b + c + d) == a + (b + c) + d
  {
  }

  method NormalizePtx(original: string) returns (r: string)
    ensures r == Normalized(original)
  {
    hide WithoutComments, SourceSpans, FoldSpaces;
    var source := WithoutComments(original);
    var parts: seq<string> := [];
    var cursor := 0;
    var spans := InstructionSpans(source);
    for k := 0 to |spans|
      invariant Normalized(original) == Join(parts) + Rebuild(source, cursor, spans[k..])
    {
      var start, end := spans[k].start, spans[k].end;
      assert spans[k..] == [spans[k]] + spans[k + 1..];
      RebuildFirst(source, cursor, spans[k], spans[k + 1..]);
      RebuildMore(Join(parts), Slice(source, cursor, start), OwnLine(Slice(source, start, end)),
                  Rebuild(source, end, spans[k + 1..]));
      var statement := FoldSpaces(Slice(source, start, end));
      JoinLine(parts, Slice(source, cursor, start), statement);
      parts := parts + [Slice(source, cursor, start)] + ["\n"] + [statement] + ["\n"];
      cursor := end;
    }
    JoinMore(parts, Slice(source, cursor, |source|));
    parts := parts + [Slice(source, cursor, |source|)];
    r := Join(parts);
  }

  // ----- the same transformation on token streams -----

  /** The token of `x` continues an instruction that will be completed. */
  predicate Continues(m: Mode, x: Stream) {
    m.Body? && m.stmt == Instruction && HasSemi(x)
  }

  function NewGap(m: Mode, x: Stream, carry: string): string
    requires x.Cons?
  {
    if StartsInstruction(m, x) then carry + x.gap + "\n"
    else if Continues(m, x) then (if x.gap == "" then "" else " ")
    else carry + x.gap
  }

  function Carry(m: Mode, x: Stream): string
    requires x.Cons?
  {
    if Current(m, x.tok, Head(x.rest)) == Instruction && x.tok == ";" then "\n" else ""
  }

  /** `x` with the white space changed; `carry` is the newline owed after an instruction just completed. */
  function Norm(m: Mode, x: Stream, carry: string): Stream
    decreases x
  {
    if x.End? then End(carry + x.gap)
    else Cons(NewGap(m, x, carry), x.tok, Norm(After(m, x), x.rest, Carry(m, x)))
  }

  lemma {:induction false} NormLoosens(m: Mode, x: Stream, carry: string)
    requires Closed(x) && AllSpace(carry)
    ensures Loosens(x, Norm(m, x, carry))
    decreases x
  {
    hide Step, StartsInstruction, Continues, IsToken;
    if x.Cons? {
      NormLoosens(After(m, x), x.rest, Carry(m, x));
    }
  }

  lemma {:induction false} SameSemi(x: Stream, y: Stream)
    requires Loosens(x, y)
    ensures HasSemi(y) <==> HasSemi(x)
    ensures HasSemi(x) ==> TokensToSemi(y) == TokensToSemi(x)
  {
    if x.Cons? {
      SameSemi(x.rest, y.rest);
    }
  }

  /** The scanner takes the same step on the changed stream. */
  lemma SameStep(m: Mode, x: Stream, carry: string)
    requires x.Cons? && Closed(x) && AllSpace(carry)
    ensures var y := Norm(m, x, carry);
            After(m, y) == After(m, x) && (StartsInstruction(m, y) <==> StartsInstruction(m, x))
  {
    NormLoosens(m, x, carry);
    SameSemi(x, Norm(m, x, carry));
  }

  lemma {:induction false} SameInstructions(m: Mode, x: Stream, carry: string)
    requires Closed(x) && AllSpace(carry)
    ensures InstructionTokens(m, Norm(m, x, carry)) == InstructionTokens(m, x)
    decreases x
  {
    if x.Cons? {
      SameStep(m, x, carry);
      NormLoosens(m, x, carry);
      SameSemi(x, Norm(m, x, carry));
      SameInstructions(After(m, x), x.rest, Carry(m, x));
    }
  }

  // ----- folding, read on streams -----

  lemma FoldOne(c: char, u: string)
    requires c != '"' && !IsSpace(c)
    ensures FoldSpaces([c] + u) == [c] + FoldSpaces(u)
  {
    assert ([c] + u)[1..] == u;
  }

  lemma {:induction false} FoldInk(t: string, u: string)
    requires forall i | 0 <= i < |t| :: t[i] != '"' && !IsSpace(t[i])
    ensures FoldSpaces(t + u) == t + FoldSpaces(u)
  {
    hide FoldSpaces, IsSpace;
    if t == "" {
      assert t + u == u;
    } else {
      HeadTail(t, u);
      FoldInk(t[1..], u);
      FoldOne(t[0], t[1..] + u);
      HeadTail(t, FoldSpaces(u));
    }
  }

  lemma FoldToken(t: string, u: string)
    requires IsToken(t)
    ensures FoldSpaces(t + u) == t + FoldSpaces(u)
  {
    if IsString(t) {
      StringTailConcat(t[1..], u, false);
      assert (t + u)[1..] == t[1..] + u;
      assert (t + u)[..|t|] == t && (t + u)[|t|..] == u;
    } else {
      if IsIdentifier(t) {
        IdTailInk(t[1..], |t| - 1);
      }
      FoldInk(t, u);
    }
  }

  lemma FoldGap(g: string, u: string)
    requires AllSpace(g) && u != "" && !IsSpace(u[0])
    ensures FoldSpaces(g + u) == (if g == "" then "" else " ") + FoldSpaces(u)
  {
    if g == "" {
      assert g + u == u;
    } else {
      SpaceRunOf(g, u);
      assert (g + u)[|g|..] == u;
    }
  }

  lemma UpToSemiInk(x: Stream)
    requires HasSemi(x) && Closed(x)
    ensures !IsSpace(UpToSemi(x)[0])
  {
  }

  lemma FoldStep(t: string, g: string, u: string)
    requires IsToken(t) && AllSpace(g) && u != "" && !IsSpace(u[0])
    ensures FoldSpaces(t + g + u) == t + (if g == "" then "" else " ") + FoldSpaces(u)
  {
    hide FoldSpaces, IsSpace, IsToken;
    FoldToken(t, g + u);
    FoldGap(g, u);
    assert t + g + u == t + (g + u);
    assert t + ((if g == "" then "" else " ") + FoldSpaces(u)) == t + (if g == "" then "" else " ") + FoldSpaces(u);
  }

  lemma FoldSemi()
    ensures FoldSpaces(";") == ";"
  {
    FoldInk(";", "");
    assert ";" + "" == ";";
  }

  /** The text of an instruction in the changed stream is its folded text. */
  lemma {:induction false} NormFolds(m: Mode, x: Stream, carry: string)
    requires Closed(x) && HasSemi(x)
    requires Continues(m, x) || StartsInstruction(m, x)
    ensures var y := Norm(m, x, carry);
            && HasSemi(y) && UpToSemi(y) == FoldSpaces(UpToSemi(x))
            && PastSemi(y) == Norm(m.(stmt := Idle), PastSemi(x), "\n")
    decreases x
  {
    if x.tok == ";" {
      FoldSemi();
    } else {
      NormFolds(After(m, x), x.rest, "");
      UpToSemiInk(x.rest);
      FoldStep(x.tok, x.rest.gap, UpToSemi(x.rest));
    }
  }

  lemma Associate(a: string, b: string, c: string, d: string)
    ensures (a + b) + c + d == a + (b + c + d)
  {
  }

  /** Source that no span reaches is copied. */
  lemma RebuildSkip(source: string, pos: nat, end: nat, spans: seq<Span>)
    requires pos <= end <= |source|
    requires spans != [] ==> end <= spans[0].start <= |source|
    ensures Rebuild(source, pos, spans) == Slice(source, pos, end) + Rebuild(source, end, spans)
  {
    if spans == [] {
      SliceSplit(source, pos, end, |source|);
    } else {
      SliceSplit(source, pos, end, spans[0].start);
      Associate(Slice(source, pos, end), Slice(source, end, spans[0].start),
                OwnLine(Slice(source, spans[0].start, spans[0].end)), Rebuild(source, spans[0].end, spans[1..]));
    }
  }

  lemma RebuildFirst(source: string, pos: nat, s: Span, spans: seq<Span>)
    ensures Rebuild(source, pos, [s] + spans)
         == Slice(source, pos, s.start) + OwnLine(Slice(source, s.start, s.end)) + Rebuild(source, s.end, spans)
  {
    assert ([s] + spans)[1..] == spans;
  }

  lemma Regroup(g: string, f: string, z: string)
    ensures g + ("\n" + f + "\n") + z == "" + g + "\n" + f + ("\n" + z)
  {
    var n := "\n";
    assert "" + g == g;
    assert g + (n + f + n) == (g + n + f) + n;
    assert ((g + n + f) + n) + z == (g + n + f) + (n + z);
  }

  /** The text of the changed stream, cut after its first instruction. */
  lemma NormStart(m: Mode, x: Stream)
    requires Closed(x) && StartsInstruction(m, x)
    ensures Text(Norm(m, x, ""))
         == x.gap + OwnLine(UpToSemi(x)) + Text(Norm(m, PastSemi(x), ""))
  {
    var y := Norm(m, x, "");
    NormFolds(m, x, "");
    CutAtSemi(y);
    NormCarry(m, PastSemi(x));
    Regroup(x.gap, FoldSpaces(UpToSemi(x)), Text(Norm(m, PastSemi(x), "")));
  }

  lemma NormCopies(m: Mode, x: Stream)
    requires x.Cons? && !StartsInstruction(m, x) && !Continues(m, x)
    ensures Carry(m, x) == ""
    ensures Text(Norm(m, x, "")) == x.gap + x.tok + Text(Norm(After(m, x), x.rest, ""))
  {
    assert "" + x.gap == x.gap;
  }

  /** Both ways of rewriting the source from `pos` on, where stream `x` starts, print the same text. */
  ghost predicate Agree(m: Mode, x: Stream, source: string, pos: nat) {
    Rebuild(source, pos, Spans(m, x, pos)) == Text(Norm(m, x, ""))
  }

  lemma AgreeStart(m: Mode, x: Stream, source: string, pos: nat, end: nat)
    requires Closed(x) && StartsInstruction(m, x) && end == pos + |x.gap| + |UpToSemi(x)|
    requires Slice(source, pos, pos + |x.gap|) == x.gap && Slice(source, pos + |x.gap|, end) == UpToSemi(x)
    requires Agree(m, PastSemi(x), source, end)
    ensures Agree(m, x, source, pos)
  {
    hide Step, Begins, Norm, Spans, Rebuild, Text, Closed, Slice, OwnLine;
    StartThenRest(m, x, pos);
    RebuildFirst(source, pos, Span(pos + |x.gap|, end), Spans(m, PastSemi(x), end));
    NormStart(m, x);
  }

  lemma AgreeCopy(m: Mode, x: Stream, source: string, pos: nat, end: nat)
    requires x.Cons? && !StartsInstruction(m, x) && !Continues(m, x) && end == pos + |x.gap| + |x.tok| <= |source|
    requires Slice(source, pos, end) == x.gap + x.tok && |Text(x.rest)| == |source| - end
    requires Agree(After(m, x), x.rest, source, end)
    ensures Agree(m, x, source, pos)
  {
    hide Step, Begins, Norm, Spans, Rebuild, Text, Slice, StartsInstruction, Continues;
    SpansSkip(m, x, pos);
    SpansOrdered(After(m, x), x.rest, end);
    RebuildSkip(source, pos, end, Spans(After(m, x), x.rest, end));
    NormCopies(m, x);
  }

  lemma AgreeEnd(m: Mode, x: Stream, source: string, pos: nat)
    requires pos <= |source| && source[pos..] == Text(x) && x.End?
    ensures Agree(m, x, source, pos)
  {
    assert "" + x.gap == x.gap;
  }

  lemma StillCopying(m: Mode, x: Stream)
    requires x.Cons? && !StartsInstruction(m, x) && !Continues(m, x)
    ensures !Continues(After(m, x), x.rest)
  {
  }

  /** The position-based rewriting and the stream-based one print the same text. */
  lemma {:induction false} RebuildIsNorm(m: Mode, x: Stream, source: string, pos: nat)
    requires pos <= |source| && source[pos..] == Text(x)
    requires Closed(x) && !Continues(m, x)
    ensures Agree(m, x, source, pos)
    decreases Size(x)
  {
    hide Step, StartsInstruction, Agree, Closed, Slice, Text, Continues, UpToSemi, HasSemi, PastSemi;
    ClosedHead(x);
    if x.End? {
      AgreeEnd(m, x, source, pos);
    } else if StartsInstruction(m, x) {
      StartFacts(m, x);
      var end := pos + |x.gap| + |UpToSemi(x)|;
      CutInstruction(source, x, pos);
      SliceHead(source, x, pos);
      ClosedPastSemi(x);
      ShorterPastSemi(x);
      NotPending(m, PastSemi(x));
      RebuildIsNorm(m, PastSemi(x), source, end);
      AgreeStart(m, x, source, pos, end);
    } else {
      var end := pos + |x.gap| + |x.tok|;
      Descend(source, x, pos);
      SliceHead(source, x, pos);
      StillCopying(m, x);
      RebuildIsNorm(After(m, x), x.rest, source, end);
      AgreeCopy(m, x, source, pos, end);
    }
  }

  lemma ShorterPastSemi(x: Stream)
    requires HasSemi(x)
    ensures Size(PastSemi(x)) < Size(x)
  {
  }

  lemma NotPending(m: Mode, y: Stream)
    requires m.Body? && m.stmt == Idle
    ensures !Continues(m, y)
  {
  }

  lemma {:induction false} ClosedPastSemi(x: Stream)
    requires HasSemi(x) && Closed(x)
    ensures Closed(PastSemi(x))
  {
    if x.tok != ";" {
      ClosedPastSemi(x.rest);
    }
  }

  lemma NormCarry(m: Mode, x: Stream)
    requires !Continues(m, x)
    ensures Text(Norm(m, x, "\n")) == "\n" + Text(Norm(m, x, ""))
  {
    if x.Cons? {
      var g := NewGap(m, x, "");
      assert NewGap(m, x, "\n") == "\n" + g by {
        assert "\n" + ("" + x.gap + "\n") == "\n" + x.gap + "\n";
        assert "\n" + ("" + x.gap) == "\n" + x.gap;
      }
      assert "\n" + g + x.tok == "\n" + (g + x.tok);
    } else {
      assert "\n" + ("" + x.gap) == "\n" + x.gap;
    }
  }

  // ----- main results -----

  /** Every quote of the comment-free source is closed by the token regex. */
  predicate QuotesClosed(source: string) {
    "\"" !in Tokens(Lex(WithoutComments(source)))
  }

  lemma ClosedSource(source: string)
    requires QuotesClosed(source)
    ensures var x := Lex(WithoutComments(source));
            WellFormed(x) && Closed(x) && Separated(x) && Text(x) == WithoutComments(source) && CommentFree(x)
  {
    var c := WithoutComments(source);
    LexIsWellFormed(c);
    LexClosed(Lex(c));
    BlankingIsIdempotent(source);
    CommentFreeMeans(Lex(c));
  }

  /** The token stream of the normalised text. */
  lemma NormalizedLexes(source: string)
    requires QuotesClosed(source)
    ensures var x := Lex(WithoutComments(source));
            var y := Norm(START, x, "");
            && Lex(Normalized(source)) == y && Text(y) == Normalized(source)
            && Loosens(x, y) && Closed(y) && Separated(y)
  {
    ClosedSource(source);
    var x := Lex(WithoutComments(source));
    var y := Norm(START, x, "");
    RebuildIsNorm(START, x, WithoutComments(source), 0);
    NormLoosens(START, x, "");
    LoosenedIsClosed(x, y);
    ClosedIsWellFormed(y);
    LexText(y);
  }

  /**
   Normalising keeps the program: the same tokens, the same instructions in the same order token for token,
   and each instruction text is the original one with white space outside strings folded.
   */
  lemma NormalizePreservesProgram(source: string)
    requires QuotesClosed(source)
    ensures var c, n := Lex(WithoutComments(source)), Lex(Normalized(source));
            && Tokens(n) == Tokens(c)
            && InstructionTokens(START, n) == InstructionTokens(START, c)
            && InstructionTexts(START, n) == Folded(InstructionTexts(START, c))
  {
    ClosedSource(source);
    NormalizedLexes(source);
    var x := Lex(WithoutComments(source));
    LoosenedIsClosed(x, Norm(START, x, ""));
    SameInstructions(START, x, "");
    TextsFold(START, x, "");
  }

  function Folded(texts: seq<string>): seq<string> {
    if texts == [] then [] else [FoldSpaces(texts[0])] + Folded(texts[1..])
  }

  lemma {:induction false} TextsFold(m: Mode, x: Stream, carry: string)
    requires Closed(x) && AllSpace(carry)
    ensures InstructionTexts(m, Norm(m, x, carry)) == Folded(InstructionTexts(m, x))
    decreases x
  {
    if x.Cons? {
      SameStep(m, x, carry);
      TextsFold(After(m, x), x.rest, Carry(m, x));
      var later := InstructionTexts(After(m, x), x.rest);
      if StartsInstruction(m, x) {
        NormFolds(m, x, carry);
        assert ([UpToSemi(x)] + later)[1..] == later;
        assert Folded([UpToSemi(x)] + later) == [FoldSpaces(UpToSemi(x))] + Folded(later);
      } else {
        assert InstructionTexts(m, x) == later;
      }
    }
  }

  /** The normalised text has no comment left to blank. */
  lemma NormalizedHasNoComments(source: string)
    requires QuotesClosed(source)
    ensures WithoutComments(Normalized(source)) == Normalized(source)
  {
    ClosedSource(source);
    NormalizedLexes(source);
    var x := Lex(WithoutComments(source));
    NoCommentAppears(x, Norm(START, x, ""));
    CommentFreeMeans(Norm(START, x, ""));
  }
}
