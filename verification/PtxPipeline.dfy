/** Normalising and then marking, as the guide does it, with conditions on the source alone. */
module PtxPipeline {
  import opened Wrappers
  import opened PtxText
  import opened PtxLex
  import opened PtxComments
  import opened PtxLoosen
  import opened PtxScan
  import opened PtxNormalize
  import opened PtxMarkers
  import opened PtxMark
  import opened PtxMarkComments
  import opened PtxMarkStream
  import opened PtxGuide

  // ----- the first `.address_size` directive depends only on the text through its number -----

  ghost predicate SharesPrefix(s: string, t: string, p: nat) {
    p <= |s| && p <= |t| && s[..p] == t[..p]
  }

  lemma SharedRest(s: string, t: string, p: nat, k: nat)
    requires SharesPrefix(s, t, p) && k <= p
    ensures SharesPrefix(s[k..], t[k..], p - k)
    ensures s[..k] == t[..k]
    ensures forall i | 0 <= i < p :: s[i] == t[i]
  {
    assert s[k..][..p - k] == s[..p][k..] && t[k..][..p - k] == t[..p][k..];
    assert s[..k] == s[..p][..k] && t[..k] == t[..p][..k];
    forall i | 0 <= i < p ensures s[i] == t[i] {
      assert s[i] == s[..p][i] && t[i] == t[..p][i];
    }
  }

  lemma SpaceRunShared(s: string, t: string, p: nat)
    requires SharesPrefix(s, t, p) && SpaceRun(s) < p
    ensures SpaceRun(t) == SpaceRun(s)
  {
    hide SpaceRun, IsSpace;
    var w := SpaceRun(s);
    SharedRest(s, t, p, w);
    Split(t, w);
    assert t[w..][0] == t[w] == s[w];
    SpaceRunOf(s[..w], t[w..]);
  }

  lemma {:induction false} DigitRunShared(s: string, t: string, p: nat)
    requires SharesPrefix(s, t, p) && DigitRun(s) < p
    ensures DigitRun(t) == DigitRun(s)
    decreases p
  {
    SharedRest(s, t, p, 1);
    if IsDigit(s[0]) {
      DigitRunShared(s[1..], t[1..], p - 1);
    }
  }

  lemma KeywordShared(s: string, t: string, p: nat, keyword: string)
    requires SharesPrefix(s, t, p) && KeywordNumber(s, keyword).Some? && KeywordNumber(s, keyword).value.0 < p
    ensures KeywordNumber(t, keyword) == KeywordNumber(s, keyword)
  {
    hide SpaceRun, DigitRun, DecimalValue, SharesPrefix;
    Bounded(s, t, p);
    var k := |keyword|;
    var u, u' := s[k..], t[k..];
    var w := SpaceRun(u);
    var d := DigitRun(u[w..]);
    SharedRest(s, t, p, k);
    SpaceRunShared(u, u', p - k);
    SharedRest(u, u', p - k, w);
    DigitRunShared(u[w..], u'[w..], p - k - w);
    SharedRest(u[w..], u'[w..], p - k - w, d);
  }

  lemma Bounded(s: string, t: string, p: nat)
    requires SharesPrefix(s, t, p)
    ensures p <= |s| && p <= |t|
  {
  }

  const ADDRESS := ".address_size"

  lemma {:induction false} AddressDot(s: string) returns (j: nat)
    requires AddressEnd(s).Some?
    ensures j < AddressEnd(s).value && s[j] == '.'
  {
    if KeywordNumber(s, ADDRESS).Some? {
      j := 0;
      assert s[..|ADDRESS|][0] == s[0];
    } else {
      var i := AddressDot(s[1..]);
      j := i + 1;
    }
  }

  lemma NoDotPart(s: string, a: nat, b: nat)
    requires a <= b <= |s| && (AllSpace(s[a..b]) || AllDigits(s[a..b]))
    ensures forall i | a <= i < b :: s[i] != '.'
  {
    forall i | a <= i < b ensures s[i] != '.' {
      assert s[a..b][i - a] == s[i];
    }
  }

  /** The white space and the digits of a match, as parts of the text. */
  lemma AddressParts(t: string) returns (w: nat, d: nat)
    requires KeywordNumber(t, ADDRESS).Some?
    ensures t[..13] == ADDRESS && 13 + w + d == KeywordNumber(t, ADDRESS).value.0 <= |t|
    ensures AllSpace(t[13..13 + w]) && AllDigits(t[13 + w..13 + w + d])
  {
    hide SpaceRun, DigitRun, DecimalValue, AllSpace, AllDigits;
    var u := t[13..];
    w := SpaceRun(u);
    d := DigitRun(u[w..]);
    DropThenTake(t, 13, 0, w);
    DropThenTake(t, 13, w, d);
    assert u[0..] == u;
  }

  lemma NoDotInside(t: string)
    requires KeywordNumber(t, ADDRESS).Some?
    ensures forall i | 0 < i < KeywordNumber(t, ADDRESS).value.0 :: t[i] != '.'
  {
    hide KeywordNumber, AllSpace, AllDigits;
    var w, d := AddressParts(t);
    NoDotPart(t, 13, 13 + w);
    NoDotPart(t, 13 + w, 13 + w + d);
    forall i | 0 < i < 13 ensures t[i] != '.' {
      assert t[..13][i] == ADDRESS[i];
    }
  }

  lemma AddressUnfold(s: string)
    requires s != ""
    ensures AddressEnd(s)
         == if KeywordNumber(s, ADDRESS).Some? then Some(KeywordNumber(s, ADDRESS).value.0)
            else if AddressEnd(s[1..]).Some? then Some(AddressEnd(s[1..]).value + 1) else None
  {
    hide KeywordNumber;
  }

  /** An earlier match of one text, within the shared part, is a match of the other. */
  lemma NoEarlierAddress(s: string, t: string, p: nat)
    requires SharesPrefix(s, t, p) && s != "" && KeywordNumber(s, ADDRESS).None?
    requires AddressEnd(s).Some? && AddressEnd(s).value < p
    ensures KeywordNumber(t, ADDRESS).None?
  {
    hide KeywordNumber, AddressEnd, SharesPrefix;
    AddressUnfold(s);
    var i := AddressDot(s[1..]);
    SharedRest(s, t, p, 0);
    Bounded(s, t, p);
    assert t[i + 1] == '.';
    if KeywordNumber(t, ADDRESS).Some? {
      NoDotInside(t);
      Symmetric(s, t, p);
      KeywordShared(t, s, p, ADDRESS);
    }
  }

  lemma Symmetric(s: string, t: string, p: nat)
    requires SharesPrefix(s, t, p)
    ensures SharesPrefix(t, s, p)
  {
  }

  lemma {:induction false} AddressShared(s: string, t: string, p: nat)
    requires SharesPrefix(s, t, p) && AddressEnd(s).Some? && AddressEnd(s).value < p
    ensures AddressEnd(t) == AddressEnd(s)
    decreases p
  {
    hide KeywordNumber, AddressEnd, SharesPrefix;
    Bounded(s, t, p);
    AddressUnfold(s);
    AddressUnfold(t);
    if KeywordNumber(s, ADDRESS).Some? {
      KeywordShared(s, t, p, ADDRESS);
    } else {
      NoEarlierAddress(s, t, p);
      SharedRest(s, t, p, 1);
      AddressShared(s[1..], t[1..], p - 1);
    }
  }

  // ----- normalising changes nothing before the first instruction -----

  lemma FirstPiece(c: string, spans: seq<Span>)
    requires spans != [] && spans[0].start <= |c|
    ensures SharesPrefix(c, Rebuild(c, 0, spans), spans[0].start)
  {
    hide OwnLine, Rebuild;
    var s := spans[0];
    assert spans == [s] + spans[1..];
    RebuildFirst(c, 0, s, spans[1..]);
    var front, rest := Slice(c, 0, s.start), OwnLine(Slice(c, s.start, s.end)) + Rebuild(c, s.end, spans[1..]);
    assert Rebuild(c, 0, spans) == front + rest;
    assert front == c[..s.start];
  }

  /** A module-level place before the first instruction is one in the normalised stream too. */
  lemma {:induction false} BoundaryStays(m: Mode, x: Stream, a: nat, pos: nat)
    requires Closed(x) && Boundary(m, x, a) && !Continues(m, x)
    requires Spans(m, x, pos) != [] ==> pos + a <= Spans(m, x, pos)[0].start
    ensures Boundary(m, Norm(m, x, ""), a)
    decreases x
  {
    hide Step, StartsInstruction, Norm, Closed, Spans, Carry, NewGap, Continues;
    if a != 0 {
      var k := |x.gap| + |x.tok|;
      if StartsInstruction(m, x) {
        StartFacts(m, x);
        StartThenRest(m, x, pos);
      } else {
        CopiesHead(m, x);
        HeadOfNorm(m, x, "");
        ClosedHead(x);
        SameStep(m, x, "");
        SpansSkip(m, x, pos);
        StillCopying(m, x);
        if a > k {
          BoundaryStays(After(m, x), x.rest, a - k, pos + k);
        }
      }
    }
  }

  lemma CopiesHead(m: Mode, x: Stream)
    requires x.Cons? && !StartsInstruction(m, x) && !Continues(m, x)
    ensures Norm(m, x, "").gap == x.gap && Carry(m, x) == ""
  {
    NormCopies(m, x);
    assert "" + x.gap == x.gap;
  }

  /** PTX as the guide expects it: the directive stands before the first instruction. */
  predicate AddressFirst(source: string) {
    var c := WithoutComments(source);
    AddressEnd(c).Some? && SourceSpans(c) != [] && AddressEnd(c).value < SourceSpans(c)[0].start
  }

  lemma {:induction false} FoldedCount(texts: seq<string>)
    ensures |Folded(texts)| == |texts|
  {
    if texts != [] {
      FoldedCount(texts[1..]);
    }
  }

  lemma SpansStay(source: string)
    requires QuotesClosed(source)
    ensures |SourceSpans(Normalized(source))| == |SourceSpans(WithoutComments(source))|
  {
    hide Normalized, SourceSpans, Slices, InstructionTexts, InstructionTokens, Folded, Lex, QuotesClosed, Tokens, Ordered,
         WithoutComments;
    var c, n := WithoutComments(source), Normalized(source);
    NormalizePreservesProgram(source);
    SourceTexts(c);
    SourceTexts(n);
    SliceCount(c, SourceSpans(c));
    SliceCount(n, SourceSpans(n));
    FoldedCount(Slices(c, SourceSpans(c)));
  }

  /** What can be marked can still be marked after normalising. */
  lemma NormalizedMarkable(source: string)
    requires Markable(source) && AddressFirst(source)
    ensures Markable(Normalized(source))
  {
    hide WithoutComments, AddressEnd, Lex, Closed, Text, Norm, Boundary, WellFormed, Separated, CommentFree, Loosens,
         SharesPrefix, Rebuild, QuotesClosed, Spans, Continues;
    var c, n := WithoutComments(source), Normalized(source);
    var x, a := Lex(c), AddressEnd(c).value;
    NormalizedHasNoComments(source);
    NormalizedLexes(source);
    NormalizedStaysClosed(source);
    ClosedSource(source);
    SpansStay(source);
    SourceTexts(c);
    assert SourceSpans(c)[0] in SourceSpans(c);
    FirstPiece(c, SourceSpans(c));
    AddressShared(c, n, SourceSpans(c)[0].start);
    NothingPending(x);
    BoundaryStays(START, x, a, 0);
  }

  lemma NothingPending(x: Stream)
    ensures !Continues(START, x)
  {
  }

  /**
   The whole pipeline: for PTX with closed quotes whose `.address_size` directive stands at module level before
   the first instruction, the marked, normalised text has the source's instructions in order, each with its
   white space folded and otherwise as written.
   */
  lemma PipelinePreservesProgram(source: string, name: string)
    requires Markable(source) && AddressFirst(source)
    ensures var c, r := WithoutComments(source), LineMarked(Normalized(source), name);
            && r.Marked?
            && Slices(r.text, SourceSpans(r.text)) == Folded(Slices(c, SourceSpans(c)))
  {
    hide AddressFirst, Boundary, AddressEnd, Normalized, SourceSpans, LineMarked, Slices, InstructionTexts, Folded, Lex,
         QuotesClosed, InstructionTokens, Tokens, Ordered, WithoutComments;
    var c, n := WithoutComments(source), Normalized(source);
    NormalizedMarkable(source);
    NormalizePreservesProgram(source);
    NormalizedHasNoComments(source);
    MarkingPreservesProgram(n, name);
    SourceTexts(c);
    SourceTexts(n);
  }

  // ----- what the assembler reads has no comments either -----

  /** The blanked source has a block comment, never closed, open where the `.file` directive goes. */
  predicate OpenAtFile(source: string) {
    var c := WithoutComments(source);
    AddressEnd(c).Some? && OpenBefore(Lex(c), AddressEnd(c).value)
  }

  lemma DigitAtAddress(c: string)
    requires AddressEnd(c).Some? && Text(Lex(c)) == c
    ensures DigitBefore(Lex(c), AddressEnd(c).value)
  {
    hide AddressEnd, Lex;
  }

  /**
   The marked text has no comment exactly when the file name does not close a block comment that the source
   leaves open; a name without a slash never does.
   */
  lemma MarkedHasNoComments(source: string, name: string)
    requires Markable(source)
    ensures LineMarked(source, name).Marked?
    ensures var r := LineMarked(source, name).text;
            WithoutComments(r) == r <==> !(OpenAtFile(source) && BlockTail(name).Some?)
    ensures '/' !in name ==> WithoutComments(LineMarked(source, name).text) == LineMarked(source, name).text
  {
    hide Lex, Closed, Mark, AddressEnd, NextFileIndex, Decimal, Quoted, WellFormed, Separated, WithoutComments, Boundary,
         LineMarked, SourceSpans, Text, BlockTail, OpenBefore, NoneOpens, CommentFree, DigitBefore;
    var c := WithoutComments(source);
    var x, f, q, a := Lex(c), Decimal(NextFileIndex(c)), Quoted(name), AddressEnd(c).value;
    MarkableIsPlaceable(source);
    MarkedLexes(source, name);
    ClosedSource(source);
    QuotedIsString(name);
    QuotedCloser(name);
    MarkClosed(START, x, f, 0, a, q);
    DigitAtAddress(c);
    NoneOpensMeans(x);
    MarkOpens(START, x, f, 0, a, q);
    NoneOpensMeans(MarkedStream(source, name));
    CommentFreeMeans(MarkedStream(source, name));
    LexIsWellFormed(LineMarked(source, name).text);
    if '/' !in name {
      NoBlockTail(name);
    }
  }
}
