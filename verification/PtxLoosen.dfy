/** Changing only the white space of a token stream: what stays true of its text. */
module PtxLoosen {
  import opened PtxText
  import opened PtxLex
  import opened PtxComments

  /** `y` has the tokens of `x`, and a gap wherever `x` has one. */
  predicate Loosens(x: Stream, y: Stream) {
    match (x, y)
    case (End(_), End(h)) => AllSpace(h)
    case (Cons(g, t, r), Cons(h, v, s)) => t == v && AllSpace(h) && (g != "" ==> h != "") && Loosens(r, s)
    case _ => false
  }

  lemma TokenAtColon(t: string)
    requires IsToken(t) && (t[0] == ':' || t[0] == '/' || t[0] == '*')
    ensures |t| == 1
  {
  }

  lemma FirstOf(y: Stream)
    requires Text(y) != ""
    ensures y.gap != "" ==> Text(y)[0] == y.gap[0]
  {
  }

  /** The first character of the looser text, when it is no white space, is the first of the other text too. */
  lemma SameFirst(x: Stream, y: Stream)
    requires Closed(x) && Loosens(x, y)
    requires Text(y) != "" && !IsSpace(Text(y)[0])
    ensures x.Cons? && x.gap == y.gap == "" && x.tok == y.tok && Text(x) != ""
    ensures Text(x) == x.tok + Text(x.rest) && Text(y) == x.tok + Text(y.rest)
    ensures Text(x)[0] == Text(y)[0] == x.tok[0]
  {
    assert y.gap == "" by {
      FirstOf(y);
    }
    if x.Cons? {
      assert "" + x.tok == x.tok;
    }
  }

  lemma ContinuesOnlyIfBefore(x: Stream, y: Stream)
    requires Closed(x) && Loosens(x, y)
    requires ContinuesId(Text(y))
    ensures ContinuesId(Text(x))
  {
    SameFirst(x, y);
    if Text(y)[0] == ':' {
      TokenAtColon(x.tok);
      assert Text(y)[1] == Text(y.rest)[0];
      SameFirst(x.rest, y.rest);
    }
  }

  lemma {:induction false} LoosenedIsClosed(x: Stream, y: Stream)
    requires Closed(x) && Separated(x) && Loosens(x, y)
    ensures Closed(y) && Separated(y) && Tokens(y) == Tokens(x)
  {
    if x.Cons? {
      LoosenedIsClosed(x.rest, y.rest);
      if ContinuesId(Text(y.rest)) {
        ContinuesOnlyIfBefore(x.rest, y.rest);
      }
    }
  }

  // ----- no comment appears -----

  lemma {:induction false} BlockTailConcat(a: string, b: string)
    ensures BlockTail(a + b).Some?
       <==> BlockTail(a).Some? || BlockTail(b).Some? || (a != "" && b != "" && a[|a| - 1] == '*' && b[0] == '/')
  {
    if a == "" {
      assert a + b == b;
    } else {
      assert (a + b)[1..] == a[1..] + b;
      BlockTailConcat(a[1..], b);
    }
  }

  lemma {:induction false} NoBlockTail(t: string)
    requires forall i | 0 <= i < |t| :: t[i] != '/'
    ensures BlockTail(t).None?
  {
    if |t| >= 2 {
      NoBlockTail(t[1..]);
    }
  }

  /** Where the end of a block comment can stand in a text that starts with white space and a token. */
  lemma BlockTailHead(g: string, t: string, u: string)
    requires AllSpace(g) && t != ""
    ensures BlockTail(g + t + u).Some?
       <==> BlockTail(t).Some? || BlockTail(u).Some? || (t[|t| - 1] == '*' && u != "" && u[0] == '/')
  {
    hide BlockTail;
    NoBlockTail(g);
    BlockTailConcat(g + t, u);
    BlockTailConcat(g, t);
    assert (g + t)[|g + t| - 1] == t[|t| - 1];
    assert g != "" ==> IsSpace(g[|g| - 1]);
  }

  lemma NoCloserInSpace(g: string)
    requires AllSpace(g)
    ensures BlockTail(g).None?
  {
    NoBlockTail(g);
  }

  lemma {:induction false} NoCloserAppears(x: Stream, y: Stream)
    requires Closed(x) && Loosens(x, y)
    requires BlockTail(Text(y)).Some?
    ensures BlockTail(Text(x)).Some?
  {
    hide BlockTail, IsToken, IsSpace;
    if x.End? {
      NoCloserInSpace(y.gap);
    } else {
      ClosedHead(x);
      BlockTailHead(x.gap, x.tok, Text(x.rest));
      BlockTailHead(y.gap, y.tok, Text(y.rest));
      if BlockTail(Text(y.rest)).Some? {
        NoCloserAppears(x.rest, y.rest);
      } else if BlockTail(y.tok).None? {
        SlashIsInk();
        SameFirst(x.rest, y.rest);
      }
    }
  }

  lemma SlashIsInk()
    ensures !IsSpace('/') && !IsSpace('*')
  {
  }

  /** No token of the stream opens a comment. */
  predicate CommentFree(x: Stream) {
    x.End? || (CommentLen(x.tok + Text(x.rest)).None? && CommentFree(x.rest))
  }

  /** What opens a comment: a slash token, and a slash or the start of a closed block right after it. */
  lemma CommentHead(t: string, u: string)
    requires IsToken(t)
    ensures CommentLen(t + u).Some?
       <==> t == "/" && u != "" && (u[0] == '/' || (u[0] == '*' && BlockTail(u[1..]).Some?))
  {
    var v := t + u;
    if t[0] == '/' {
      TokenAtColon(t);
      assert v[1..] == u;
      assert u != "" ==> v[2..] == u[1..];
    }
  }

  /** A star at the front of the text is a token, and the text goes on with the next one. */
  lemma StarFirst(x: Stream)
    requires Closed(x) && x.Cons? && x.gap == "" && x.tok[0] == '*'
    ensures Text(x) != "" && Text(x)[1..] == Text(x.rest)
  {
    TokenAtColon(x.tok);
    assert "" + x.tok == x.tok;
  }

  lemma NoCommentAtHead(x: Stream, y: Stream)
    requires Closed(x) && Loosens(x, y) && Closed(y) && x.Cons?
    requires CommentLen(x.tok + Text(x.rest)).None?
    ensures CommentLen(y.tok + Text(y.rest)).None?
  {
    hide CommentLen, BlockTail, Text, IsToken, IsSpace;
    ClosedHead(x);
    ClosedHead(y);
    CommentHead(x.tok, Text(x.rest));
    CommentHead(y.tok, Text(y.rest));
    SlashIsInk();
    var u := Text(y.rest);
    if u != "" && (u[0] == '/' || u[0] == '*') {
      SameFirst(x.rest, y.rest);
      ClosedHead(x.rest);
      if u[0] == '*' {
        StarFirst(x.rest);
        StarFirst(y.rest);
        if BlockTail(u[1..]).Some? {
          NoCloserAppears(x.rest.rest, y.rest.rest);
        }
      }
    }
  }

  lemma {:induction false} NoCommentAppears(x: Stream, y: Stream)
    requires Closed(x) && Loosens(x, y) && Closed(y) && CommentFree(x)
    ensures CommentFree(y)
  {
    hide CommentLen, Text, IsToken, IsSpace;
    if x.Cons? {
      NoCommentAppears(x.rest, y.rest);
      NoCommentAtHead(x, y);
    }
  }

  // ----- blanking, read on streams -----

  lemma BlankOne(c: char, u: string)
    requires c != '"' && c != '/'
    ensures WithoutComments([c] + u) == [c] + WithoutComments(u)
  {
    assert KindOf([c] + u) == Plain && ([c] + u)[..1] == [c] && ([c] + u)[1..] == u;
  }

  lemma {:induction false} BlankPlain(t: string, u: string)
    requires forall i | 0 <= i < |t| :: t[i] != '"' && t[i] != '/'
    ensures WithoutComments(t + u) == t + WithoutComments(u)
  {
    hide WithoutComments;
    if t == "" {
      assert t + u == u;
    } else {
      HeadTail(t, u);
      BlankPlain(t[1..], u);
      BlankOne(t[0], t[1..] + u);
      HeadTail(t, WithoutComments(u));
    }
  }

  lemma BlankToken(t: string, u: string)
    requires IsToken(t) && CommentLen(t + u).None?
    ensures WithoutComments(t + u) == t + WithoutComments(u)
  {
    assert (t + u)[1..] == t[1..] + u;
    if IsString(t) {
      StringTailDotAll(t[1..]);
      StringTailConcat(t[1..], u, true);
      assert (t + u)[..|t|] == t && (t + u)[|t|..] == u;
    } else if IsIdentifier(t) {
      IdTailInk(t[1..], |t| - 1);
      BlankPlain(t, u);
    } else {
      assert t[1..] + u == u;
    }
  }

  /** Nothing to blank means that no token opens a comment, and the other way round. */
  lemma {:induction false} CommentFreeMeans(x: Stream)
    requires Closed(x)
    ensures CommentFree(x) <==> WithoutComments(Text(x)) == Text(x)
  {
    match x
    case End(g) =>
      BlankPlain(g, "");
      assert g + "" == g;
    case Cons(g, t, r) =>
      var u := t + Text(r);
      BlankPlain(g, u);
      assert Text(x) == g + u;
      SamePrefix(g, WithoutComments(u), u);
      if CommentLen(u).None? {
        BlankToken(t, Text(r));
        SamePrefix(t, WithoutComments(Text(r)), Text(r));
        CommentFreeMeans(r);
      } else {
        assert KindOf(u) == Comment;
        assert WithoutComments(u)[0] == ' ';
      }
  }

  lemma SamePrefix(a: string, b: string, c: string)
    ensures a + b == a + c <==> b == c
  {
    if a + b == a + c {
      assert b == (a + b)[|a|..] == (a + c)[|a|..] == c;
    }
  }
}
