/** Where an `.address_size` directive may stand: when marking keeps the program, exactly. */
module PtxAddress {
  import opened PtxText
  import opened PtxLex
  import opened PtxComments
  import opened PtxScan
  import opened PtxNormalize
  import opened PtxMarkers
  import opened PtxMarkStream
  import opened PtxMark
  import opened PtxGuide

  // ----- an inserted `.file` inside a statement -----

  /** A statement that is pending and that no newline ends. */
  predicate Pending(m: Mode) {
    m.Body? && m.stmt != Idle && m.stmt != Directive(true)
  }

  lemma PendingStep(m: Mode, x: Stream)
    requires Pending(m) && x.Cons? && x.tok != ";"
    ensures After(m, x) == m && !StartsInstruction(m, x)
  {
  }

  lemma {:induction false} DigitsPassed(m: Mode, gap: string, digits: string, y: Stream)
    requires Pending(m) && digits != "" && AllDigits(digits)
    ensures SameTexts(m, Digits(gap, digits, y), y)
    decreases |digits|
  {
    var x := Digits(gap, digits, y);
    assert x.tok[0] == digits[0];
    PendingStep(m, x);
    SpansSkip(m, x, 0);
    if |digits| > 1 {
      DigitsPassed(m, "", digits[1..], y);
    }
  }

  lemma FilePassed(m: Mode, f: string, q: string, y: Stream)
    requires Pending(m) && Parts(f, q)
    ensures SameTexts(m, FileStream(f, q, y), y)
  {
    hide InstructionTexts, Pending;
    var z := AddGap("\n", y);
    var name := Cons(" ", q, z);
    var index := Digits(" ", f, name);
    var x := Cons("\n", ".file", index);
    assert q[0] == '"';
    PendingStep(m, x);
    PendingStep(m, name);
    SpansSkip(m, x, 0);
    DigitsPassed(m, " ", f, name);
    SpansSkip(m, name, 0);
    GapUnseen(m, "\n", y);
  }

  /** How long the text through the first semicolon is, white space before it included. */
  function SemiReach(x: Stream): nat
    requires HasSemi(x)
  {
    |x.gap| + |UpToSemi(x)|
  }

  lemma ReachNext(gap: string, t: string, y: Stream)
    requires HasSemi(y) && t != ";"
    ensures HasSemi(Cons(gap, t, y)) && SemiReach(Cons(gap, t, y)) == |gap| + |t| + SemiReach(y)
  {
  }

  lemma {:induction false} DigitsReach(gap: string, digits: string, y: Stream)
    requires HasSemi(y) && digits != "" && AllDigits(digits)
    ensures HasSemi(Digits(gap, digits, y)) && SemiReach(Digits(gap, digits, y)) > SemiReach(y)
    decreases |digits|
  {
    assert digits[..1][0] == digits[0];
    if |digits| > 1 {
      DigitsReach("", digits[1..], y);
      ReachNext(gap, digits[..1], Digits("", digits[1..], y));
    } else {
      ReachNext(gap, digits[..1], y);
    }
  }

  /** The directive makes an instruction around it longer. */
  lemma FileReach(f: string, q: string, y: Stream)
    requires HasSemi(y) && Parts(f, q)
    ensures HasSemi(FileStream(f, q, y)) && SemiReach(FileStream(f, q, y)) > SemiReach(y)
  {
    hide UpToSemi;
    var z := AddGap("\n", y);
    GapReach("\n", y);
    assert q[0] == '"';
    ReachNext(" ", q, z);
    DigitsReach(" ", f, Cons(" ", q, z));
    ReachNext("\n", ".file", Digits(" ", f, Cons(" ", q, z)));
  }

  lemma GapReach(gap: string, y: Stream)
    requires HasSemi(y)
    ensures HasSemi(AddGap(gap, y)) && SemiReach(AddGap(gap, y)) == |gap| + SemiReach(y)
  {
  }

  // ----- the marked stream -----

  /** The instruction in progress is as long as it was, or longer when position `a` lies before its end. */
  ghost predicate Reaches(y: Stream, x: Stream, a: nat)
    requires HasSemi(x)
  {
    && HasSemi(y)
    && (if 0 < a < SemiReach(x) then SemiReach(y) > SemiReach(x) else y.gap == x.gap && UpToSemi(y) == UpToSemi(x))
  }

  lemma ReachRest(m: Mode, x: Stream, f: string, n: nat, a: nat, q: string)
    requires Parts(f, q) && x.Cons? && HasSemi(x.rest)
    requires var k := |x.gap| + |x.tok|;
             Reaches(Mark(After(m, x), x.rest, f, n + Newlines(x.gap + x.tok), Less(a, k), q), x.rest, Less(a, k))
    ensures var k := |x.gap| + |x.tok|;
            var r := MarkRest(m, x, f, n, a, q);
            && HasSemi(r)
            && (a == k || 0 < Less(a, k) < SemiReach(x.rest) ==> SemiReach(r) > SemiReach(x.rest))
            && (a != k && !(0 < Less(a, k) < SemiReach(x.rest)) ==> r.gap == x.rest.gap && UpToSemi(r) == UpToSemi(x.rest))
  {
    hide Step, Mark, Newlines, UpToSemi, FileStream;
    var k := |x.gap| + |x.tok|;
    if a == k {
      FileReach(f, q, Mark(After(m, x), x.rest, f, n + Newlines(x.gap + x.tok), Less(a, k), q));
    }
  }

  lemma {:induction false} PendingReach(m: Mode, x: Stream, f: string, n: nat, a: nat, q: string)
    requires Parts(f, q) && Closed(x) && Place(m, x, a) && HasSemi(x) && m.Body? && m.stmt == Instruction
    ensures Reaches(Mark(m, x, f, n, a, q), x, a)
    decreases x
  {
    hide Mark, MarkRest, Closed, Place, Newlines, UpToSemi, Reaches;
    ClosedHead(x);
    PlaceRest(m, x, a);
    PendingMark(m, x, f, n, a, q);
    var k := |x.gap| + |x.tok|;
    if x.tok == ";" {
      SemiHere(x, MarkRest(m, x, f, n, a, q), a);
    } else {
      PendingReach(After(m, x), x.rest, f, n + Newlines(x.gap + x.tok), Less(a, k), q);
      ReachRest(m, x, f, n, a, q);
      ReachHead(x.gap, x, MarkRest(m, x, f, n, a, q), a);
    }
  }

  lemma PendingMark(m: Mode, x: Stream, f: string, n: nat, a: nat, q: string)
    requires f != "" && x.Cons? && m.Body? && m.stmt == Instruction
    ensures Mark(m, x, f, n, a, q) == Cons(x.gap, x.tok, MarkRest(m, x, f, n, a, q))
    ensures x.tok != ";" ==> After(m, x) == m
    ensures HeadPlace(m, x, a) && x.tok == ";" ==> a != |x.gap| + |x.tok|
  {
  }

  lemma SemiHere(x: Stream, r: Stream, a: nat)
    requires x.Cons? && x.tok == ";" && (a == 0 || a > |x.gap| + |x.tok|)
    ensures Reaches(Cons(x.gap, x.tok, r), x, a)
  {
  }

  lemma ReachHead(gap: string, x: Stream, r: Stream, a: nat)
    requires x.Cons? && x.tok != "" && x.tok != ";" && HasSemi(x.rest) && HasSemi(r) && gap == x.gap
    requires a != 0 ==> a >= |x.gap| + |x.tok|
    requires var k := |x.gap| + |x.tok|;
             && (a == k || 0 < Less(a, k) < SemiReach(x.rest) ==> SemiReach(r) > SemiReach(x.rest))
             && (a != k && !(0 < Less(a, k) < SemiReach(x.rest)) ==> r.gap == x.rest.gap && UpToSemi(r) == UpToSemi(x.rest))
    ensures Reaches(Cons(gap, x.tok, r), x, a)
  {
    ReachNext(x.gap, x.tok, x.rest);
    ReachNext(gap, x.tok, r);
    assert x == Cons(x.gap, x.tok, x.rest);
  }

  /** Position `a` lies inside an instruction that `x` starts or that starts later. */
  predicate Swallowed(m: Mode, x: Stream, a: nat)
    decreases x
  {
    a != 0 && x.Cons? &&
    ((StartsInstruction(m, x) && a < SemiReach(x)) ||
     (a > |x.gap| + |x.tok| && Swallowed(After(m, x), x.rest, a - |x.gap| - |x.tok|)))
  }

  lemma SwallowedUnfold(m: Mode, x: Stream, a: nat)
    requires x.Cons?
    ensures Swallowed(m, x, a) <==>
            (StartsInstruction(m, x) && 0 < a < SemiReach(x)) || Swallowed(After(m, x), x.rest, Less(a, |x.gap| + |x.tok|))
  {
    hide Step, StartsInstruction, UpToSemi;
    assert !Swallowed(After(m, x), x.rest, 0);
  }

  lemma RestTexts(m: Mode, x: Stream, f: string, n: nat, a: nat, q: string)
    requires Parts(f, q) && Closed(x) && x.Cons? && Place(m, x, a)
    ensures var k := |x.gap| + |x.tok|;
            var tail := Mark(After(m, x), x.rest, f, n + Newlines(x.gap + x.tok), Less(a, k), q);
            SameTexts(After(m, x), MarkRest(m, x, f, n, a, q), tail)
  {
    hide Step, FileStream, Mark, Newlines, InstructionTexts;
    ClosedHead(x);
    PlaceRest(m, x, a);
    var k := |x.gap| + |x.tok|;
    var tail := Mark(After(m, x), x.rest, f, n + Newlines(x.gap + x.tok), Less(a, k), q);
    if a == k {
      if m.Module? {
        FileSkipped(After(m, x), f, q, tail);
      } else {
        FilePassed(After(m, x), f, q, tail);
      }
    }
  }

  /** What the first token adds: its instruction, when it starts one, as it was or longer. */
  lemma HeadTexts(m: Mode, x: Stream, f: string, n: nat, a: nat, q: string)
    requires Parts(f, q) && Closed(x) && x.Cons? && Place(m, x, a)
    ensures var r, later := MarkRest(m, x, f, n, a, q), InstructionTexts(After(m, x), MarkRest(m, x, f, n, a, q));
            && (!StartsInstruction(m, x) ==> InstructionTexts(m, Mark(m, x, f, n, a, q)) == later)
            && (StartsInstruction(m, x) ==>
                  var u := HeadText(m, x, f, n, a, q);
                  && InstructionTexts(m, Mark(m, x, f, n, a, q)) == [u] + later
                  && (u == UpToSemi(x) <==> !(0 < a < SemiReach(x))))
  {
    hide Step, StartsInstruction, InstructionTexts, Mark, MarkRest, Closed, Place, HeadPlace, UpToSemi, LocStream, Decimal,
         MarkLine, MarkGap, RestGap, Newlines, HasSemi;
    ClosedHead(x);
    PlaceRest(m, x, a);
    MarkHeads(m, x, f, n, a, q);
    if StartsInstruction(m, x) {
      StartFacts(m, x);
      var gap := "\n" + RestGap(x.gap);
      var y := Cons(gap, x.tok, MarkRest(m, x, f, n, a, q));
      HeadStep(m, x, gap, f, n, a, q);
      assert gap[0] == '\n';
      LocSkipped(m, MarkGap(x.gap), f, Decimal(MarkLine(x, n)), y);
      SpansTake(m, y, 0);
      StartFacts(m, y);
      StartReach(m, x, gap, f, n, a, q);
      HeadTextIs(m, x, f, n, a, q);
    } else {
      HeadStep(m, x, x.gap, f, n, a, q);
      SpansSkip(m, Cons(x.gap, x.tok, MarkRest(m, x, f, n, a, q)), 0);
    }
  }

  /** The text of the instruction that the first token starts in the marked stream. */
  function HeadText(m: Mode, x: Stream, f: string, n: nat, a: nat, q: string): string
    requires f != "" && x.Cons?
  {
    var y := Cons("\n" + RestGap(x.gap), x.tok, MarkRest(m, x, f, n, a, q));
    if HasSemi(y) then UpToSemi(y) else ""
  }

  lemma HeadTextIs(m: Mode, x: Stream, f: string, n: nat, a: nat, q: string)
    requires f != "" && x.Cons? && HasSemi(Cons("\n" + RestGap(x.gap), x.tok, MarkRest(m, x, f, n, a, q)))
    ensures HeadText(m, x, f, n, a, q) == UpToSemi(Cons("\n" + RestGap(x.gap), x.tok, MarkRest(m, x, f, n, a, q)))
  {
    hide MarkRest, UpToSemi, HasSemi;
  }

  lemma MarkHeads(m: Mode, x: Stream, f: string, n: nat, a: nat, q: string)
    requires f != "" && x.Cons?
    ensures StartsInstruction(m, x) ==>
              HasSemi(x) &&
              Mark(m, x, f, n, a, q)
              == LocStream(MarkGap(x.gap), f, Decimal(MarkLine(x, n)),
                           Cons("\n" + RestGap(x.gap), x.tok, MarkRest(m, x, f, n, a, q)))
    ensures !StartsInstruction(m, x) ==> Mark(m, x, f, n, a, q) == Cons(x.gap, x.tok, MarkRest(m, x, f, n, a, q))
  {
    hide Step;
  }

  lemma StartReach(m: Mode, x: Stream, gap: string, f: string, n: nat, a: nat, q: string)
    requires Parts(f, q) && Closed(x) && Place(m, x, a) && StartsInstruction(m, x)
    requires HasSemi(Cons(gap, x.tok, MarkRest(m, x, f, n, a, q)))
    ensures UpToSemi(Cons(gap, x.tok, MarkRest(m, x, f, n, a, q))) == UpToSemi(x) <==> !(0 < a < SemiReach(x))
  {
    hide Step, Mark, MarkRest, Closed, Place, Newlines, UpToSemi, HeadPlace, Reaches, StartsInstruction, HasSemi;
    StartFacts(m, x);
    ClosedHead(x);
    PlaceRest(m, x, a);
    PlaceInBody(m, x, a);
    var k := |x.gap| + |x.tok|;
    var r := MarkRest(m, x, f, n, a, q);
    if x.tok == ";" {
      SemiOnly(x, gap, r);
    } else {
      StartStep(m, x);
      PendingReach(After(m, x), x.rest, f, n + Newlines(x.gap + x.tok), Less(a, k), q);
      ReachRest(m, x, f, n, a, q);
      ReachTexts(gap, x, r, a);
    }
  }

  lemma SemiOnly(x: Stream, gap: string, r: Stream)
    requires x.Cons? && x.tok == ";"
    ensures HasSemi(x) && HasSemi(Cons(gap, x.tok, r)) && UpToSemi(Cons(gap, x.tok, r)) == UpToSemi(x) == ";"
    ensures SemiReach(x) == |x.gap| + |x.tok|
  {
  }

  lemma StartStep(m: Mode, x: Stream)
    requires StartsInstruction(m, x) && x.tok != ";"
    ensures After(m, x) == m.(stmt := Instruction) && HasSemi(x.rest)
  {
  }

  lemma ReachTexts(gap: string, x: Stream, r: Stream, a: nat)
    requires x.Cons? && x.tok != ";" && HasSemi(x.rest) && HasSemi(r)
    requires a != |x.gap| + |x.tok| && (a != 0 ==> a >= |x.gap| + |x.tok|)
    requires var k := |x.gap| + |x.tok|;
             && (0 < Less(a, k) < SemiReach(x.rest) ==> SemiReach(r) > SemiReach(x.rest))
             && (!(0 < Less(a, k) < SemiReach(x.rest)) ==> r.gap == x.rest.gap && UpToSemi(r) == UpToSemi(x.rest))
    ensures HasSemi(x) && HasSemi(Cons(gap, x.tok, r))
    ensures UpToSemi(Cons(gap, x.tok, r)) == UpToSemi(x) <==> !(0 < a < SemiReach(x))
  {
    ReachNext(x.gap, x.tok, x.rest);
    ReachNext(gap, x.tok, r);
    assert x == Cons(x.gap, x.tok, x.rest);
  }

  /** The marked stream has the same instruction texts exactly when the `.file` directive is inside none of them. */
  lemma {:induction false} MarkPreservesIff(m: Mode, x: Stream, f: string, n: nat, a: nat, q: string)
    requires Parts(f, q) && Closed(x) && Place(m, x, a)
    ensures SameTexts(m, Mark(m, x, f, n, a, q), x) <==> !Swallowed(m, x, a)
    decreases x
  {
    hide Step, StartsInstruction, InstructionTexts, Mark, MarkRest, Closed, Place, UpToSemi, Newlines, Swallowed, HeadText;
    if x.End? {
      NothingSwallowed(m, x, f, n, a, q);
    } else {
      var k := |x.gap| + |x.tok|;
      var n', a' := n + Newlines(x.gap + x.tok), Less(a, k);
      ClosedHead(x);
      PlaceRest(m, x, a);
      MarkPreservesIff(After(m, x), x.rest, f, n', a', q);
      RestTexts(m, x, f, n, a, q);
      HeadTexts(m, x, f, n, a, q);
      SwallowedUnfold(m, x, a);
      if StartsInstruction(m, x) {
        StartFacts(m, x);
        SpansTake(m, x, 0);
        SameCons(HeadText(m, x, f, n, a, q), InstructionTexts(After(m, x), MarkRest(m, x, f, n, a, q)),
                 UpToSemi(x), InstructionTexts(After(m, x), x.rest));
      } else {
        SpansSkip(m, x, 0);
      }
    }
  }

  lemma SameCons(u: string, us: seq<string>, v: string, vs: seq<string>)
    ensures [u] + us == [v] + vs <==> u == v && us == vs
  {
    assert ([u] + us)[0] == u && ([v] + vs)[0] == v;
    assert ([u] + us)[1..] == us && ([v] + vs)[1..] == vs;
  }

  lemma NothingSwallowed(m: Mode, x: Stream, f: string, n: nat, a: nat, q: string)
    requires x.End? && f != ""
    ensures SameTexts(m, Mark(m, x, f, n, a, q), x) && !Swallowed(m, x, a)
  {
  }

  // ----- the marked text -----

  /** Position `a` of the source lies inside an instruction. */
  ghost predicate InsideSome(spans: seq<Span>, a: nat) {
    exists s | s in spans :: s.start < a < s.end
  }

  lemma InsideCons(s: Span, spans: seq<Span>, a: nat)
    ensures InsideSome([s] + spans, a) <==> s.start < a < s.end || InsideSome(spans, a)
  {
    assert s in [s] + spans;
    assert forall t | t in spans :: t in [s] + spans;
  }

  lemma {:induction false} SwallowedMeans(m: Mode, x: Stream, a: nat, pos: nat)
    requires Closed(x) && Place(m, x, a)
    ensures Swallowed(m, x, a) <==> InsideSome(Spans(m, x, pos), pos + a)
    decreases x
  {
    hide Step, StartsInstruction, Spans, Closed, Place, UpToSemi, Swallowed, Text, InsideSome;
    if x.End? {
      NoneInside(m, x, a, pos);
    } else {
      var k := |x.gap| + |x.tok|;
      ClosedHead(x);
      PlaceRest(m, x, a);
      SwallowedUnfold(m, x, a);
      if a >= k {
        SwallowedMeans(After(m, x), x.rest, a - k, pos + k);
      } else {
        NotYet(After(m, x), x.rest, pos + k, pos + a);
      }
      if StartsInstruction(m, x) {
        StartFacts(m, x);
        SpansTake(m, x, pos);
        InsideCons(Span(pos + |x.gap|, pos + |x.gap| + |UpToSemi(x)|), Spans(After(m, x), x.rest, pos + k), pos + a);
      } else {
        SpansSkip(m, x, pos);
      }
    }
  }

  lemma NotYet(m: Mode, x: Stream, pos: nat, p: nat)
    requires p <= pos
    ensures !Swallowed(m, x, 0) && !InsideSome(Spans(m, x, pos), p)
  {
    hide Spans, Text, InsideSome, Ordered;
    SwallowedNone(m, x);
    SpansOrdered(m, x, pos);
    EarlierOutside(Spans(m, x, pos), pos, pos + |Text(x)|, p);
  }

  lemma SwallowedNone(m: Mode, x: Stream)
    ensures !Swallowed(m, x, 0)
  {
  }

  lemma EarlierOutside(spans: seq<Span>, lo: nat, hi: nat, p: nat)
    requires Ordered(spans, lo, hi)
    ensures p <= lo ==> !InsideSome(spans, p)
  {
  }

  lemma NoneInside(m: Mode, x: Stream, a: nat, pos: nat)
    requires x.End?
    ensures !Swallowed(m, x, a) && !InsideSome(Spans(m, x, pos), pos + a)
  {
  }

  /**
   For an `.address_size` number at module level or inside a statement, marking keeps the instruction texts exactly
   when the number does not end inside an instruction.
   */
  lemma MarkingPreservesIff(source: string, name: string)
    requires Placeable(source)
    ensures var c, r := WithoutComments(source), LineMarked(source, name);
            && r.Marked? && AddressEnd(c).Some?
            && (Slices(r.text, SourceSpans(r.text)) == Slices(c, SourceSpans(c))
                <==> !InsideSome(SourceSpans(c), AddressEnd(c).value))
  {
    hide Lex, Closed, Mark, AddressEnd, NextFileIndex, Decimal, Quoted, WellFormed, Separated, Slices,
         InstructionTexts, WithoutComments, Place, Spans, Ordered, LineMarked, InsideSome, Swallowed, Text;
    var c, r := WithoutComments(source), LineMarked(source, name);
    var a := AddressEnd(c).value;
    MarkedLexes(source, name);
    ClosedSource(source);
    QuotedIsString(name);
    MarkPreservesIff(START, Lex(c), Decimal(NextFileIndex(c)), 0, a, Quoted(name));
    SwallowedMeans(START, Lex(c), a, 0);
    SourceTexts(c);
    SourceTexts(r.text);
  }
}
