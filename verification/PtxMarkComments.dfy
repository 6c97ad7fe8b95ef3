/** When the inserted markers make no comment appear. */
module PtxMarkComments {
  import opened PtxText
  import opened PtxLex
  import opened PtxComments
  import opened PtxLoosen
  import opened PtxScan
  import opened PtxMarkers
  import opened PtxMarkStream
  import opened PtxMark

  // ----- comments, read on streams -----

  predicate Follows(x: Stream, t: string, u: string) {
    x.Cons? && x.tok == t && x.rest.Cons? && x.rest.gap == "" && x.rest.tok == u
  }

  /** The tokens hold the end of a block comment. */
  predicate Closer(x: Stream) {
    x.Cons? && (BlockTail(x.tok).Some? || Follows(x, "*", "/") || Closer(x.rest))
  }

  /** A comment starts with the first token. */
  predicate OpensComment(x: Stream) {
    Follows(x, "/", "/") || (Follows(x, "/", "*") && Closer(x.rest.rest))
  }

  predicate NoneOpens(x: Stream) {
    x.End? || (!OpensComment(x) && NoneOpens(x.rest))
  }

  lemma EndsInStar(t: string)
    requires IsToken(t) && t[|t| - 1] == '*'
    ensures t == "*"
  {
    if IsIdentifier(t) {
      IdTailInk(t[1..], |t| - 1);
    }
  }

  lemma InkFirst(x: Stream)
    requires Closed(x) && Text(x) != "" && !IsSpace(Text(x)[0])
    ensures x.Cons? && x.gap == "" && x.tok != "" && x.tok[0] == Text(x)[0] && Text(x) == x.tok + Text(x.rest)
  {
    assert x.gap == "" by {
      if x.gap != "" { GapFirst(x); }
    }
    if x.Cons? {
      assert "" + x.tok == x.tok;
    }
  }

  /** A slash or a star at the front of the text is a token. */
  lemma SymbolFirst(x: Stream, c: char)
    requires Closed(x) && (c == '/' || c == '*')
    ensures Text(x) != "" && Text(x)[0] == c <==> x.Cons? && x.gap == "" && x.tok == [c]
  {
    if Text(x) != "" && Text(x)[0] == c {
      InkFirst(x);
      TokenAtColon(x.tok);
    }
    if x.Cons? && x.gap == "" && x.tok == [c] {
      assert "" + x.tok == x.tok;
      assert Text(x)[0] == x.tok[0];
    }
  }

  lemma {:induction false} CloserMeans(x: Stream)
    requires Closed(x)
    ensures BlockTail(Text(x)).Some? <==> Closer(x)
  {
    NoBlockTail(x.gap);
    if x.Cons? {
      var t, u := x.tok, Text(x.rest);
      CloserMeans(x.rest);
      SymbolFirst(x.rest, '/');
      BlockTailConcat(x.gap + t, u);
      BlockTailConcat(x.gap, t);
      assert (x.gap + t)[|x.gap + t| - 1] == t[|t| - 1];
      if t[|t| - 1] == '*' {
        EndsInStar(t);
      }
      NoCloserAcross(x.gap, t);
    }
  }

  lemma NoCloserAcross(g: string, t: string)
    requires AllSpace(g)
    ensures g != "" ==> g[|g| - 1] != '*'
  {
  }

  lemma OpensMeans(x: Stream)
    requires Closed(x) && x.Cons?
    ensures CommentLen(x.tok + Text(x.rest)).Some? <==> OpensComment(x)
  {
    var u := x.tok + Text(x.rest);
    if x.tok[0] == '/' {
      TokenAtColon(x.tok);
      assert u[1..] == Text(x.rest);
      SymbolFirst(x.rest, '/');
      SymbolFirst(x.rest, '*');
      if x.rest.Cons? && x.rest.gap == "" && x.rest.tok == "*" {
        var r := x.rest;
        assert Text(r) == "*" + Text(r.rest) by { assert "" + r.tok == r.tok; }
        assert u[2..] == Text(r)[1..] == Text(r.rest);
        CloserMeans(r.rest);
      }
    }
  }

  lemma {:induction false} NoneOpensMeans(x: Stream)
    requires Closed(x)
    ensures CommentFree(x) <==> NoneOpens(x)
  {
    if x.Cons? {
      OpensMeans(x);
      NoneOpensMeans(x.rest);
    }
  }

  // ----- the inserted tokens -----

  lemma DigitHasNoCloser(t: string)
    requires |t| <= 1 || '/' !in t
    ensures BlockTail(t).None?
  {
    if |t| > 1 {
      NoBlockTail(t);
    }
  }

  lemma {:induction false} DigitsComments(gap: string, digits: string, y: Stream)
    requires digits != "" && AllDigits(digits)
    ensures var z := Digits(gap, digits, y);
            && (Closer(z) <==> Closer(y)) && (NoneOpens(z) <==> NoneOpens(y))
            && z.Cons? && IsDigit(z.tok[0]) && |z.tok| == 1
    decreases |digits|
  {
    assert digits[..1][0] == digits[0];
    DigitHasNoCloser(digits[..1]);
    if |digits| > 1 {
      DigitsComments("", digits[1..], y);
    }
  }

  lemma LocComments(gap: string, f: string, l: string, y: Stream)
    requires f != "" && AllDigits(f) && l != "" && AllDigits(l)
    ensures var z := LocStream(gap, f, l, y);
            (Closer(z) <==> Closer(y)) && (NoneOpens(z) <==> NoneOpens(y))
  {
    hide Digits;
    var last := Cons(" ", "0", y);
    DigitHasNoCloser("0");
    DigitHasNoCloser(".loc");
    DigitsComments(" ", l, last);
    DigitsComments(" ", f, Digits(" ", l, last));
  }

  lemma AddGapComments(y: Stream)
    ensures var z := AddGap("\n", y); (Closer(z) <==> Closer(y)) && (NoneOpens(z) <==> NoneOpens(y))
  {
  }

  lemma FileComments(f: string, q: string, y: Stream)
    requires Parts(f, q)
    ensures var z := FileStream(f, q, y);
            (Closer(z) <==> BlockTail(q).Some? || Closer(y)) && (NoneOpens(z) <==> NoneOpens(y))
  {
    hide Digits, BlockTail, AddGap;
    var last := Cons(" ", q, AddGap("\n", y));
    assert q[0] == '"';
    AddGapComments(y);
    DigitHasNoCloser(".file");
    DigitsComments(" ", f, last);
  }

  // ----- the marked stream -----

  /** The character before position `a`, if that is not 0, is a digit. */
  ghost predicate DigitBefore(x: Stream, a: nat) {
    a > 0 ==> a <= |Text(x)| && IsDigit(Text(x)[a - 1])
  }

  lemma DigitRest(m: Mode, x: Stream, a: nat)
    requires x.Cons? && x.tok != "" && Boundary(m, x, a) && DigitBefore(x, a)
    ensures var k := |x.gap| + |x.tok|;
            && (a == k ==> IsDigit(x.tok[|x.tok| - 1]))
            && Boundary(After(m, x), x.rest, Less(a, k)) && DigitBefore(x.rest, Less(a, k))
            && (a > 0 ==> a >= k)
  {
    var k := |x.gap| + |x.tok|;
    assert Text(x)[k..] == Text(x.rest);
    if a == k {
      assert Text(x)[a - 1] == x.tok[|x.tok| - 1];
    } else if a > k {
      assert Text(x)[a - 1] == Text(x)[k..][a - k - 1];
    }
  }

  /** Right after a slash or a star no instruction starts. */
  lemma NoStartAfter(m: Mode, x: Stream)
    requires x.Cons? && (x.tok == "/" || x.tok == "*") && x.rest.gap == ""
    requires Head(x.rest) == "/" || Head(x.rest) == "*"
    ensures !StartsInstruction(After(m, x), x.rest)
  {
  }

  /** Two adjacent tokens of a comment delimiter stay adjacent, and no two become so. */
  lemma FollowsStays(m: Mode, x: Stream, f: string, n: nat, a: nat, q: string, u: string)
    requires Parts(f, q) && Closed(x) && x.Cons? && Boundary(m, x, a) && DigitBefore(x, a)
    requires (x.tok == "/" || x.tok == "*") && (u == "/" || u == "*")
    ensures var r := MarkRest(m, x, f, n, a, q);
            (r.Cons? && r.gap == "" && r.tok == u) <==> Follows(x, x.tok, u)
    ensures a != |x.gap| + |x.tok|
  {
    hide Step, Boundary, DigitBefore, Newlines;
    DigitRest(m, x, a);
    if x.rest.Cons? && x.rest.gap == "" && x.rest.tok == u {
      NoStartAfter(m, x);
    }
    MarkGapNotEmpty(x.rest);
  }

  lemma MarkGapNotEmpty(x: Stream)
    ensures MarkGap(x.gap) != ""
  {
    assert x.gap[0..] == x.gap;
  }

  /** Unfolds the marked stream's head. */
  lemma MarkHead(m: Mode, x: Stream, f: string, n: nat, a: nat, q: string) returns (gap: string)
    requires Parts(f, q) && Closed(x) && x.Cons?
    ensures var y := Cons(gap, x.tok, MarkRest(m, x, f, n, a, q));
            && (Closer(Mark(m, x, f, n, a, q)) <==> Closer(y))
            && (NoneOpens(Mark(m, x, f, n, a, q)) <==> NoneOpens(y))
  {
    hide MarkRest, Step, StartsInstruction, LocStream, Closer, NoneOpens, MarkLine, Decimal, MarkGap, RestGap;
    if StartsInstruction(m, x) {
      StartFacts(m, x);
      gap := "\n" + RestGap(x.gap);
      LocComments(MarkGap(x.gap), f, Decimal(MarkLine(x, n)), Cons(gap, x.tok, MarkRest(m, x, f, n, a, q)));
    } else {
      gap := x.gap;
    }
  }

  /** Unfolds what follows the first token. */
  lemma MarkTail(m: Mode, x: Stream, f: string, n: nat, a: nat, q: string)
    requires Parts(f, q) && x.Cons?
    ensures var k := |x.gap| + |x.tok|;
            var r := MarkRest(m, x, f, n, a, q);
            var tail := Mark(After(m, x), x.rest, f, n + Newlines(x.gap + x.tok), Less(a, k), q);
            && (Closer(r) <==> (a == k && BlockTail(q).Some?) || Closer(tail))
            && (NoneOpens(r) <==> NoneOpens(tail))
  {
    hide Mark, FileStream, Closer, NoneOpens, Step;
    var k := |x.gap| + |x.tok|;
    FileComments(f, q, Mark(After(m, x), x.rest, f, n + Newlines(x.gap + x.tok), Less(a, k), q));
  }

  lemma {:induction false} MarkCloser(m: Mode, x: Stream, f: string, n: nat, a: nat, q: string)
    requires Parts(f, q) && Closed(x) && Boundary(m, x, a) && DigitBefore(x, a)
    ensures Closer(Mark(m, x, f, n, a, q)) <==> Closer(x) || (a > 0 && BlockTail(q).Some?)
    decreases x
  {
    hide Step, MarkRest, Mark, Boundary, DigitBefore, Closed, BlockTail, Text, Newlines;
    if x.End? {
      BoundaryEnd(m, x, f, n, a, q);
    } else {
      var k := |x.gap| + |x.tok|;
      ClosedHead(x);
      DigitRest(m, x, a);
      var gap := MarkHead(m, x, f, n, a, q);
      MarkTail(m, x, f, n, a, q);
      MarkCloser(After(m, x), x.rest, f, n + Newlines(x.gap + x.tok), Less(a, k), q);
      if x.tok == "*" {
        FollowsStays(m, x, f, n, a, q, "/");
      }
    }
  }

  lemma BoundaryEnd(m: Mode, x: Stream, f: string, n: nat, a: nat, q: string)
    requires x.End? && Boundary(m, x, a) && f != ""
    ensures a == 0 && Mark(m, x, f, n, a, q) == x
  {
  }

  /** A block comment that nothing closes is open at position `a`. */
  predicate OpenBefore(x: Stream, a: nat) {
    x.Cons? && a > |x.gap| + |x.tok| && (Follows(x, "/", "*") || OpenBefore(x.rest, a - |x.gap| - |x.tok|))
  }

  lemma {:induction false} MarkOpens(m: Mode, x: Stream, f: string, n: nat, a: nat, q: string)
    requires Parts(f, q) && Closed(x) && Boundary(m, x, a) && DigitBefore(x, a) && NoneOpens(x)
    ensures NoneOpens(Mark(m, x, f, n, a, q)) <==> !(OpenBefore(x, a) && BlockTail(q).Some?)
    decreases x
  {
    hide Step, MarkRest, Mark, Boundary, DigitBefore, Closed, BlockTail, Text, Newlines, Closer;
    if x.End? {
      BoundaryEnd(m, x, f, n, a, q);
    } else {
      var k := |x.gap| + |x.tok|;
      ClosedHead(x);
      DigitRest(m, x, a);
      var gap := MarkHead(m, x, f, n, a, q);
      MarkTail(m, x, f, n, a, q);
      MarkOpens(After(m, x), x.rest, f, n + Newlines(x.gap + x.tok), Less(a, k), q);
      if x.tok == "/" {
        FollowsStays(m, x, f, n, a, q, "/");
        FollowsStays(m, x, f, n, a, q, "*");
        if Follows(x, "/", "*") {
          OpenedHere(m, x, f, n, a, q);
        }
      }
    }
  }

  /** The block comment opened by the first two tokens is closed in the marked stream only by the file name. */
  lemma OpenedHere(m: Mode, x: Stream, f: string, n: nat, a: nat, q: string)
    requires Parts(f, q) && Closed(x) && Boundary(m, x, a) && DigitBefore(x, a)
    requires Follows(x, "/", "*") && !Closer(x.rest.rest)
    ensures var r := MarkRest(m, x, f, n, a, q);
            && r.Cons? && r.gap == "" && r.tok == "*"
            && (Closer(r.rest) <==> a > 0 && BlockTail(q).Some?)
    ensures a > 0 ==> a > |x.gap| + |x.tok|
  {
    hide Step, Boundary, DigitBefore, BlockTail, Text, Newlines, Closer;
    var k := |x.gap| + |x.tok|;
    var m1, x1, n1, a1 := After(m, x), x.rest, n + Newlines(x.gap + x.tok), Less(a, k);
    ClosedHead(x);
    ClosedHead(x1);
    DigitRest(m, x, a);
    DigitRest(m1, x1, a1);
    FollowsStays(m, x, f, n, a, q, "*");
    NoStartAfter(m, x);
    var k1 := |x1.gap| + |x1.tok|;
    MarkTail(m1, x1, f, n1, a1, q);
    MarkCloser(After(m1, x1), x1.rest, f, n1 + Newlines(x1.gap + x1.tok), Less(a1, k1), q);
  }

  // ----- the file name -----

  lemma EscapeOneShape(c: char)
    ensures var e := EscapeOne(c);
            e != "" && e[|e| - 1] == c && BlockTail(e).None? && (e[0] == '/' <==> c == '/')
  {
  }

  lemma {:induction false} EscapedCloser(name: string)
    ensures BlockTail(Escaped(name)).Some? <==> BlockTail(name).Some?
    ensures (name != "" && name[0] == '/') <==> (Escaped(name) != "" && Escaped(name)[0] == '/')
  {
    hide Escaped, EscapeOne;
    if name == "" {
      EscapedNone();
    } else {
      var c, rest := name[0], name[1..];
      EscapedStep(name);
      EscapedCloser(rest);
      EscapeOneShape(c);
      BlockTailConcat(EscapeOne(c), Escaped(rest));
      BlockTailConcat([c], rest);
      assert name == [c] + rest;
    }
  }

  /** The literal holds the end of a block comment exactly when the name does. */
  lemma QuotedCloser(name: string)
    ensures BlockTail(Quoted(name)).Some? <==> BlockTail(name).Some?
  {
    hide Escaped;
    EscapedCloser(name);
    var e := Escaped(name);
    BlockTailConcat("\"" + e, "\"");
    BlockTailConcat("\"", e);
    assert Quoted(name) == "\"" + e + "\"";
  }
}
