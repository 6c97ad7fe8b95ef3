/** The marked token stream: where the markers stand, and that the scanner finds the same instructions in it. */
module PtxMark {
  import opened PtxText
  import opened PtxLex
  import opened PtxScan
  import opened PtxMarkStream

  /** The white space before a marker, and between the marker's newline and its instruction. */
  function MarkGap(g: string): string {
    if '\n' in g then g[..LineStart(g)] else g + "\n"
  }

  function RestGap(g: string): string {
    if '\n' in g then g[LineStart(g)..] else ""
  }

  /** The number for the marker of the instruction that `x` starts with, `n` newlines into the source. */
  function MarkLine(x: Stream, n: nat): nat
    requires HasSemi(x)
  {
    1 + n + Newlines(x.gap + UpToSemi(x))
  }

  function Less(a: nat, k: nat): nat {
    if a > k then a - k else 0
  }

  /**
   The stream with a `.loc` marker for each completed instruction and, if `a` is not 0, the `.file` directive
   after the token that ends `a` characters into the text.
   */
  function Mark(m: Mode, x: Stream, f: string, n: nat, a: nat, q: string): Stream
    requires f != ""
    decreases x, 1
  {
    if x.End? then x
    else if StartsInstruction(m, x) then
      LocStream(MarkGap(x.gap), f, Decimal(MarkLine(x, n)),
                Cons("\n" + RestGap(x.gap), x.tok, MarkRest(m, x, f, n, a, q)))
    else Cons(x.gap, x.tok, MarkRest(m, x, f, n, a, q))
  }

  /** What follows the first token. */
  function MarkRest(m: Mode, x: Stream, f: string, n: nat, a: nat, q: string): Stream
    requires f != "" && x.Cons?
    decreases x, 0
  {
    var k := |x.gap| + |x.tok|;
    var tail := Mark(After(m, x), x.rest, f, n + Newlines(x.gap + x.tok), Less(a, k), q);
    if a == k then FileStream(f, q, tail) else tail
  }

  /** Position `a` of the text, if it is not 0, ends a token outside every function body. */
  predicate Boundary(m: Mode, x: Stream, a: nat)
    decreases x
  {
    a == 0 ||
    (x.Cons? &&
     var k := |x.gap| + |x.tok|;
     if a == k then m.Module? && After(m, x).Module?
     else a > k && Boundary(After(m, x), x.rest, a - k))
  }

  /** The token leaves a pending statement pending, one that no newline ends. */
  predicate Within(m: Mode, x: Stream)
    requires x.Cons?
  {
    m.Body? && m.stmt != Idle && m.stmt != Directive(true) && After(m, x) == m
  }

  /** Position `a` does not end the first token, or ends it outside every body or inside a statement. */
  predicate HeadPlace(m: Mode, x: Stream, a: nat)
    requires x.Cons?
  {
    a == |x.gap| + |x.tok| ==> (m.Module? && After(m, x).Module?) || Within(m, x)
  }

  /** Position `a` of the text, if it is not 0, ends a token outside every function body or inside a statement. */
  predicate Place(m: Mode, x: Stream, a: nat)
    decreases x
  {
    a == 0 ||
    (x.Cons? && HeadPlace(m, x, a) &&
     var k := |x.gap| + |x.tok|;
     a >= k && (a > k ==> Place(After(m, x), x.rest, a - k)))
  }

  lemma {:induction false} BoundaryIsPlace(m: Mode, x: Stream, a: nat)
    requires Boundary(m, x, a)
    ensures Place(m, x, a)
    decreases x
  {
    hide Step;
    if a != 0 && a > |x.gap| + |x.tok| {
      BoundaryIsPlace(After(m, x), x.rest, a - |x.gap| - |x.tok|);
    }
  }

  lemma PlaceRest(m: Mode, x: Stream, a: nat)
    requires x.Cons? && Place(m, x, a)
    ensures Place(After(m, x), x.rest, Less(a, |x.gap| + |x.tok|))
    ensures a != 0 ==> a >= |x.gap| + |x.tok|
    ensures x.tok != "" ==> HeadPlace(m, x, a)
  {
    hide Step;
  }

  /** An instruction does not start with a token that ends at such a place. */
  lemma PlaceInBody(m: Mode, x: Stream, a: nat)
    requires Closed(x) && StartsInstruction(m, x) && Place(m, x, a)
    ensures a != |x.gap| + |x.tok|
  {
    hide Step, IsToken;
    ClosedHead(x);
  }

  ghost predicate Parts(f: string, q: string) {
    f != "" && AllDigits(f) && IsString(q)
  }

  // ----- the marked stream is a token stream -----

  lemma MarkGapShape(g: string)
    requires AllSpace(g)
    ensures AllSpace(MarkGap(g)) && AllSpace(RestGap(g)) && '\n' in MarkGap(g)
  {
    if '\n' in g {
      var k := LineStart(g);
      Split(g, k);
      assert k > 0;
      assert MarkGap(g)[k - 1] == '\n';
    } else {
      assert MarkGap(g)[|g|] == '\n';
    }
  }

  lemma GapFirst(y: Stream)
    requires y.gap != ""
    ensures Text(y) != "" && Text(y)[0] == y.gap[0]
  {
  }

  /** If the marked text starts with ink, nothing was put before its first token. */
  lemma MarkInk(m: Mode, x: Stream, f: string, n: nat, a: nat, q: string)
    requires Parts(f, q) && Closed(x)
    requires var u := Text(Mark(m, x, f, n, a, q)); u != "" && !IsSpace(u[0])
    ensures x.Cons? && x.gap == ""
    ensures Text(Mark(m, x, f, n, a, q)) == x.tok + Text(MarkRest(m, x, f, n, a, q))
    ensures Text(x) == x.tok + Text(x.rest)
  {
    var y := Mark(m, x, f, n, a, q);
    MarkGapShape(x.gap);
    assert y.gap == "" by {
      if y.gap != "" { GapFirst(y); }
    }
    if x.Cons? {
      assert "" + x.tok == x.tok;
    }
  }

  lemma FileGap(f: string, q: string, y: Stream)
    requires f != ""
    ensures Text(FileStream(f, q, y)) != "" && IsSpace(Text(FileStream(f, q, y))[0])
  {
    GapFirst(FileStream(f, q, y));
  }

  /** What follows the first token starts with ink only if it did before. */
  lemma MarkRestInk(m: Mode, x: Stream, f: string, n: nat, a: nat, q: string)
    requires Parts(f, q) && Closed(x) && x.Cons?
    requires var u := Text(MarkRest(m, x, f, n, a, q)); u != "" && !IsSpace(u[0])
    ensures x.rest.Cons? && Text(x.rest) != "" && Text(x.rest)[0] == Text(MarkRest(m, x, f, n, a, q))[0]
  {
    var k := |x.gap| + |x.tok|;
    var n' := n + Newlines(x.gap + x.tok);
    var tail := Mark(After(m, x), x.rest, f, n', Less(a, k), q);
    if a == k {
      FileGap(f, q, tail);
    } else {
      MarkInk(After(m, x), x.rest, f, n', Less(a, k), q);
    }
  }

  lemma InkContinues(u: string)
    requires ContinuesId(u)
    ensures !IsSpace(u[0])
    ensures u[0] == ':' ==> !IsSpace(u[1])
  {
  }

  lemma ColonToken(t: string)
    requires IsToken(t) && t[0] == ':'
    ensures t == ":"
  {
  }

  lemma MarkContinues(m: Mode, x: Stream, f: string, n: nat, a: nat, q: string)
    requires Parts(f, q) && Closed(x)
    requires ContinuesId(Text(Mark(m, x, f, n, a, q)))
    ensures ContinuesId(Text(x))
  {
    hide Mark, MarkRest, Step, Closed, Text;
    var u := Text(Mark(m, x, f, n, a, q));
    InkContinues(u);
    MarkInk(m, x, f, n, a, q);
    ClosedHead(x);
    if u[0] == ':' {
      ColonToken(x.tok);
      assert u[1] == Text(MarkRest(m, x, f, n, a, q))[0];
      MarkRestInk(m, x, f, n, a, q);
    }
  }

  lemma RestContinues(m: Mode, x: Stream, f: string, n: nat, a: nat, q: string)
    requires Parts(f, q) && Closed(x) && x.Cons?
    requires ContinuesId(Text(MarkRest(m, x, f, n, a, q)))
    ensures ContinuesId(Text(x.rest))
  {
    var k := |x.gap| + |x.tok|;
    var n' := n + Newlines(x.gap + x.tok);
    if a == k {
      FileGap(f, q, Mark(After(m, x), x.rest, f, n', Less(a, k), q));
    } else {
      MarkContinues(After(m, x), x.rest, f, n', Less(a, k), q);
    }
  }

  lemma RestClosed(m: Mode, x: Stream, f: string, n: nat, a: nat, q: string)
    requires Parts(f, q) && x.Cons?
    requires var k := |x.gap| + |x.tok|;
             var tail := Mark(After(m, x), x.rest, f, n + Newlines(x.gap + x.tok), Less(a, k), q);
             Closed(tail) && Separated(tail)
    ensures var r := MarkRest(m, x, f, n, a, q); Closed(r) && Separated(r)
  {
    hide Mark, FileStream, Closed, Separated;
    FileClosed(f, q, Mark(After(m, x), x.rest, f, n + Newlines(x.gap + x.tok), Less(a, |x.gap| + |x.tok|), q));
  }

  lemma HeadClosed(m: Mode, x: Stream, gap: string, f: string, n: nat, a: nat, q: string)
    requires Parts(f, q) && Closed(x) && Separated(x) && x.Cons? && AllSpace(gap)
    requires var r := MarkRest(m, x, f, n, a, q); Closed(r) && Separated(r)
    ensures var y := Cons(gap, x.tok, MarkRest(m, x, f, n, a, q)); Closed(y) && Separated(y)
  {
    hide MarkRest, ContinuesId, IsToken, IsIdentifier, Step;
    if ContinuesId(Text(MarkRest(m, x, f, n, a, q))) {
      RestContinues(m, x, f, n, a, q);
    }
  }

  lemma {:induction false} MarkClosed(m: Mode, x: Stream, f: string, n: nat, a: nat, q: string)
    requires Parts(f, q) && Closed(x) && Separated(x)
    ensures var y := Mark(m, x, f, n, a, q); Closed(y) && Separated(y)
    decreases x
  {
    hide Step, StartsInstruction, IsToken, IsIdentifier, ContinuesId, LocStream, MarkRest, Newlines, Decimal, RestGap,
         MarkLine, Text;
    if x.Cons? {
      MarkClosed(After(m, x), x.rest, f, n + Newlines(x.gap + x.tok), Less(a, |x.gap| + |x.tok|), q);
      RestClosed(m, x, f, n, a, q);
      MarkGapShape(x.gap);
      if StartsInstruction(m, x) {
        var gap := "\n" + RestGap(x.gap);
        StartFacts(m, x);
        HeadClosed(m, x, gap, f, n, a, q);
        LocClosed(MarkGap(x.gap), f, Decimal(MarkLine(x, n)), Cons(gap, x.tok, MarkRest(m, x, f, n, a, q)));
      } else {
        HeadClosed(m, x, x.gap, f, n, a, q);
      }
    }
  }

  // ----- the scanner passes over the markers -----

  lemma {:induction false} DigitsSemi(gap: string, digits: string, y: Stream)
    requires digits != "" && AllDigits(digits)
    ensures HasSemi(Digits(gap, digits, y)) <==> HasSemi(y)
    decreases |digits|
  {
    assert digits[..1][0] == digits[0];
    if |digits| > 1 {
      DigitsSemi("", digits[1..], y);
    }
  }

  lemma LocSemi(gap: string, f: string, l: string, y: Stream)
    requires f != "" && AllDigits(f) && l != "" && AllDigits(l)
    ensures HasSemi(LocStream(gap, f, l, y)) <==> HasSemi(y)
  {
    DigitsSemi(" ", l, Cons(" ", "0", y));
    DigitsSemi(" ", f, Digits(" ", l, Cons(" ", "0", y)));
  }

  lemma FileSemi(f: string, q: string, y: Stream)
    requires Parts(f, q)
    ensures HasSemi(FileStream(f, q, y)) <==> HasSemi(y)
  {
    DigitsSemi(" ", f, Cons(" ", q, AddGap("\n", y)));
  }

  lemma {:induction false} MarkSemi(m: Mode, x: Stream, f: string, n: nat, a: nat, q: string)
    requires Parts(f, q)
    ensures HasSemi(Mark(m, x, f, n, a, q)) <==> HasSemi(x)
    ensures x.Cons? ==> (HasSemi(MarkRest(m, x, f, n, a, q)) <==> HasSemi(x.rest))
    decreases x
  {
    if x.Cons? {
      hide Step, Begins, LocStream, FileStream;
      var k := |x.gap| + |x.tok|;
      var n' := n + Newlines(x.gap + x.tok);
      var tail := Mark(After(m, x), x.rest, f, n', Less(a, k), q);
      MarkSemi(After(m, x), x.rest, f, n', Less(a, k), q);
      FileSemi(f, q, tail);
      if StartsInstruction(m, x) {
        LocSemi(MarkGap(x.gap), f, Decimal(MarkLine(x, n)),
                Cons("\n" + RestGap(x.gap), x.tok, MarkRest(m, x, f, n, a, q)));
      }
    }
  }

  /** Instructions are found in `y` in mode `m` as they are in `z`. */
  ghost predicate SameTexts(m: Mode, y: Stream, z: Stream) {
    InstructionTexts(m, y) == InstructionTexts(m, z)
  }

  lemma DigitsGap(gap: string, digits: string, y: Stream)
    requires digits != ""
    ensures Digits(gap, digits, y).gap == gap
  {
  }

  lemma {:induction false} DigitsSkipped(m: Mode, gap: string, digits: string, y: Stream)
    requires digits != "" && AllDigits(digits)
    requires m.Module? || (m.stmt == Directive(true) && '\n' !in y.gap)
    ensures SameTexts(m, Digits(gap, digits, y), y)
    decreases |digits|
  {
    var x := Digits(gap, digits, y);
    assert |x.tok| == 1 && x.tok[0] == digits[0] && IsDigit(x.tok[0]);
    if |digits| > 1 {
      DigitsGap("", digits[1..], y);
    }
    assert x.tok != ";" && !OpensFunction(x.tok) && !OpensScope(x.tok);
    assert m.Body? ==> Current(m, x.tok, Head(x.rest)) == Directive(true);
    assert After(m, x) == m;
    SpansSkip(m, x, 0);
    if |digits| > 1 {
      DigitsSkipped(m, "", digits[1..], y);
    }
  }

  lemma LocSkipped(m: Mode, gap: string, f: string, l: string, y: Stream)
    requires f != "" && AllDigits(f) && l != "" && AllDigits(l)
    requires m.Body? && m.stmt == Idle && '\n' in y.gap
    ensures SameTexts(m, LocStream(gap, f, l, y), y)
  {
    var zero := Cons(" ", "0", y);
    var line := Digits(" ", l, zero);
    var index := Digits(" ", f, line);
    var x := Cons(gap, ".loc", index);
    var d := m.(stmt := Directive(true));
    assert index.tok[0] == f[0];
    assert After(m, x) == d && !StartsInstruction(m, x);
    SpansSkip(m, x, 0);
    DigitsSkipped(d, " ", f, line);
    DigitsSkipped(d, " ", l, zero);
    assert After(d, zero) == m && !StartsInstruction(d, zero);
    SpansSkip(d, zero, 0);
  }

  lemma FileSkipped(m: Mode, f: string, q: string, y: Stream)
    requires Parts(f, q) && m.Module?
    ensures SameTexts(m, FileStream(f, q, y), y)
  {
    var y' := AddGap("\n", y);
    var name := Cons(" ", q, y');
    var index := Digits(" ", f, name);
    var x := Cons("\n", ".file", index);
    SpansSkip(m, x, 0);
    DigitsSkipped(m, " ", f, name);
    assert After(m, name) == m;
    SpansSkip(m, name, 0);
    GapUnseen(m, "\n", y);
  }

  /** The white space before a stream is no part of its instructions. */
  lemma GapUnseen(m: Mode, gap: string, y: Stream)
    ensures SameTexts(m, AddGap(gap, y), y)
  {
    if y.Cons? {
      var z := AddGap(gap, y);
      assert HasSemi(z) <==> HasSemi(y);
      if HasSemi(y) { assert UpToSemi(z) == UpToSemi(y); }
    }
  }

  /** The first token is taken as before, whatever white space is now before it. */
  lemma HeadStep(m: Mode, x: Stream, gap: string, f: string, n: nat, a: nat, q: string)
    requires Parts(f, q) && Closed(x) && x.Cons? && HeadPlace(m, x, a)
    ensures var y := Cons(gap, x.tok, MarkRest(m, x, f, n, a, q));
            After(m, y) == After(m, x) && (StartsInstruction(m, y) <==> StartsInstruction(m, x))
  {
    hide IsToken, IsString, Closed, Newlines;
    MarkSemi(m, x, f, n, a, q);
    if m.Body? {
      ClosedHead(x);
      var m', r := After(m, x), x.rest;
      ClosedHead(r);
      if r.Cons? && StartsInstruction(m', r) {
        MarkGapShape(r.gap);
      }
    }
  }

  lemma MarkStep(m: Mode, x: Stream, gap: string, f: string, n: nat, a: nat, q: string)
    requires Parts(f, q) && Closed(x) && x.Cons? && Boundary(m, x, a)
    ensures var y := Cons(gap, x.tok, MarkRest(m, x, f, n, a, q));
            After(m, y) == After(m, x) && (StartsInstruction(m, y) <==> StartsInstruction(m, x))
  {
    hide Step, StartsInstruction, Closed, Boundary, MarkRest, Place, HeadPlace, IsToken;
    ClosedHead(x);
    BoundaryIsPlace(m, x, a);
    PlaceRest(m, x, a);
    HeadStep(m, x, gap, f, n, a, q);
  }

  lemma BoundaryInBody(m: Mode, x: Stream, a: nat)
    requires Closed(x) && x.Cons? && m.Body? && Boundary(m, x, a)
    ensures a != |x.gap| + |x.tok| && Boundary(After(m, x), x.rest, Less(a, |x.gap| + |x.tok|))
  {
    hide Step;
  }

  /** Inside a pending instruction nothing is put in. */
  lemma {:induction false} MarkPending(m: Mode, x: Stream, f: string, n: nat, a: nat, q: string)
    requires Parts(f, q) && Closed(x) && Boundary(m, x, a) && HasSemi(x) && m.Body? && m.stmt == Instruction
    ensures var y := Mark(m, x, f, n, a, q); HasSemi(y) && y.gap == x.gap && UpToSemi(y) == UpToSemi(x)
    decreases x
  {
    hide IsToken, IsString, LocStream, FileStream, Boundary;
    var k := |x.gap| + |x.tok|;
    BoundaryInBody(m, x, a);
    if x.tok != ";" {
      MarkPending(After(m, x), x.rest, f, n + Newlines(x.gap + x.tok), Less(a, k), q);
    }
  }

  lemma MarkedUpToSemi(m: Mode, x: Stream, gap: string, f: string, n: nat, a: nat, q: string)
    requires Parts(f, q) && Closed(x) && Boundary(m, x, a) && StartsInstruction(m, x)
    ensures var y := Cons(gap, x.tok, MarkRest(m, x, f, n, a, q)); HasSemi(y) && UpToSemi(y) == UpToSemi(x)
  {
    hide IsToken, IsString, LocStream, FileStream, Boundary;
    var k := |x.gap| + |x.tok|;
    BoundaryInBody(m, x, a);
    if x.tok != ";" {
      MarkPending(After(m, x), x.rest, f, n + Newlines(x.gap + x.tok), Less(a, k), q);
    }
  }

  lemma MarkStart(m: Mode, x: Stream, f: string, n: nat, a: nat, q: string)
    requires Parts(f, q) && Closed(x) && Boundary(m, x, a) && StartsInstruction(m, x)
    requires SameTexts(After(m, x), MarkRest(m, x, f, n, a, q), x.rest)
    ensures SameTexts(m, Mark(m, x, f, n, a, q), x)
  {
    var gap := "\n" + RestGap(x.gap);
    var y := Cons(gap, x.tok, MarkRest(m, x, f, n, a, q));
    MarkStep(m, x, gap, f, n, a, q);
    MarkedUpToSemi(m, x, gap, f, n, a, q);
    assert m.Body? && m.stmt == Idle;
    assert gap[0] == '\n';
    LocSkipped(m, MarkGap(x.gap), f, Decimal(MarkLine(x, n)), y);
    SpansTake(m, x, 0);
    SpansTake(m, y, 0);
  }

  lemma MarkCopy(m: Mode, x: Stream, f: string, n: nat, a: nat, q: string)
    requires Parts(f, q) && Closed(x) && x.Cons? && Boundary(m, x, a) && !StartsInstruction(m, x)
    requires SameTexts(After(m, x), MarkRest(m, x, f, n, a, q), x.rest)
    ensures SameTexts(m, Mark(m, x, f, n, a, q), x)
  {
    MarkStep(m, x, x.gap, f, n, a, q);
    SpansSkip(m, x, 0);
    SpansSkip(m, Mark(m, x, f, n, a, q), 0);
  }

  /** The marked stream has the same instruction texts in the same order. */
  lemma {:induction false} MarkPreserves(m: Mode, x: Stream, f: string, n: nat, a: nat, q: string)
    requires Parts(f, q) && Closed(x) && Boundary(m, x, a)
    ensures SameTexts(m, Mark(m, x, f, n, a, q), x)
    decreases x
  {
    hide Step, StartsInstruction, LocStream, FileStream, IsToken, IsString, Newlines, InstructionTexts;
    ClosedHead(x);
    if x.Cons? {
      var k := |x.gap| + |x.tok|;
      var m', n' := After(m, x), n + Newlines(x.gap + x.tok);
      var tail := Mark(m', x.rest, f, n', Less(a, k), q);
      MarkPreserves(m', x.rest, f, n', Less(a, k), q);
      if a == k {
        FileSkipped(m', f, q, tail);
      }
      if StartsInstruction(m, x) {
        MarkStart(m, x, f, n, a, q);
      } else {
        MarkCopy(m, x, f, n, a, q);
      }
    }
  }
}
