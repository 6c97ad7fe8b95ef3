/** What a comment and a string literal are, and that blanking touches comments only. */
module PtxCommentMeans {
  import opened Wrappers
  import opened PtxText
  import opened PtxLex
  import opened PtxComments

  // ----- the three forms the comment regex matches -----

  /** The text starts with a line comment of `n` characters. */
  ghost predicate LineComment(s: string, n: nat) {
    && 2 <= n <= |s| && s[0] == '/' && s[1] == '/'
    && (forall i | 2 <= i < n :: s[i] != '\r' && s[i] != '\n')
    && (n < |s| ==> s[n] == '\r' || s[n] == '\n')
  }

  /** The text starts with a block comment of `n` characters: it ends with the first star and slash after its opener. */
  ghost predicate BlockComment(s: string, n: nat) {
    && 4 <= n <= |s| && s[0] == '/' && s[1] == '*' && s[n - 2] == '*' && s[n - 1] == '/'
    && (forall j | 2 <= j < n - 2 :: !(s[j] == '*' && s[j + 1] == '/'))
  }

  /** What stands between the quotes: escapes, and characters other than a quote and a backslash. */
  predicate StringBody(b: string, dotAll: bool)
    decreases |b|
  {
    if b == "" then true
    else if b[0] == '\\' then |b| >= 2 && (dotAll || b[1] != '\n') && StringBody(b[2..], dotAll)
    else b[0] != '"' && StringBody(b[1..], dotAll)
  }

  predicate StringLiteral(t: string, dotAll: bool) {
    |t| >= 2 && t[0] == '"' && t[|t| - 1] == '"' && StringBody(t[1..|t| - 1], dotAll)
  }

  lemma {:induction false} LineTailMeans(u: string, n: nat)
    ensures LineTail(u) == n <==>
            && n <= |u| && (forall i | 0 <= i < n :: u[i] != '\r' && u[i] != '\n')
            && (n < |u| ==> u[n] == '\r' || u[n] == '\n')
  {
  }

  /** The first star and slash, or none. */
  lemma {:induction false} BlockTailMeans(u: string)
    ensures BlockTail(u).Some? ==>
              var n := BlockTail(u).value;
              u[n - 2] == '*' && u[n - 1] == '/' && forall j | 0 <= j < n - 2 :: !(u[j] == '*' && u[j + 1] == '/')
    ensures BlockTail(u).None? ==> forall j | 0 <= j < |u| - 1 :: !(u[j] == '*' && u[j + 1] == '/')
  {
    if |u| >= 2 {
      BlockTailMeans(u[1..]);
      var n := BlockTail(u);
      if !(u[0] == '*' && u[1] == '/') {
        forall j | 1 <= j < |u| - 1 && (n.Some? ==> j < n.value - 2)
          ensures !(u[j] == '*' && u[j + 1] == '/')
        {
          assert u[1..][j - 1] == u[j] && u[1..][j] == u[j + 1];
        }
      }
    }
  }

  lemma CommentMeans(s: string, n: nat)
    ensures CommentLen(s) == Some(n) <==> LineComment(s, n) || BlockComment(s, n)
  {
    if |s| >= 2 && s[0] == '/' {
      var u := s[2..];
      assert forall i | 0 <= i < |u| :: u[i] == s[i + 2];
      if s[1] == '/' && n >= 2 {
        LineTailMeans(u, n - 2);
        LineShift(s, n);
      } else if s[1] == '*' {
        BlockTailMeans(u);
        BlockShift(s, n);
      }
    }
  }

  lemma LineShift(s: string, n: nat)
    requires |s| >= 2 && s[0] == '/' && s[1] == '/' && n >= 2
    ensures var u := s[2..];
            LineComment(s, n) <==>
            && n - 2 <= |u| && (forall i | 0 <= i < n - 2 :: u[i] != '\r' && u[i] != '\n')
            && (n - 2 < |u| ==> u[n - 2] == '\r' || u[n - 2] == '\n')
  {
    var u := s[2..];
    if n <= |s| {
      assert forall i | 2 <= i < n :: s[i] == u[i - 2];
    }
  }

  lemma BlockShift(s: string, n: nat)
    requires |s| >= 2 && s[0] == '/' && s[1] == '*'
    requires BlockTail(s[2..]).Some? ==>
               var m, u := BlockTail(s[2..]).value, s[2..];
               u[m - 2] == '*' && u[m - 1] == '/' && forall j | 0 <= j < m - 2 :: !(u[j] == '*' && u[j + 1] == '/')
    requires BlockTail(s[2..]).None? ==>
               var u := s[2..]; forall j | 0 <= j < |u| - 1 :: !(u[j] == '*' && u[j + 1] == '/')
    ensures BlockComment(s, n) <==> BlockTail(s[2..]).Some? && n == BlockTail(s[2..]).value + 2
  {
    hide BlockTail;
    var u, tail := s[2..], BlockTail(s[2..]);
    assert forall i | 0 <= i < |u| :: u[i] == s[i + 2];
    if BlockComment(s, n) {
      assert u[n - 4] == '*' && u[n - 3] == '/';
      assert tail.Some?;
      var m := tail.value;
      assert s[m] == '*' && s[m + 1] == '/';
      assert m <= n - 2 && n - 2 <= m;
    }
    if tail.Some? && n == tail.value + 2 {
      forall j | 2 <= j < n - 2 ensures !(s[j] == '*' && s[j + 1] == '/') {
        assert u[j - 2] == s[j] && u[j - 1] == s[j + 1];
      }
    }
  }

  lemma {:induction false} StringTailMeans(u: string, dotAll: bool, n: nat)
    ensures StringTail(u, dotAll) == Some(n) <==>
            1 <= n <= |u| && u[n - 1] == '"' && StringBody(u[..n - 1], dotAll)
    decreases |u|
  {
    if u != "" && u[0] == '"' {
      if 1 < n <= |u| {
        assert u[..n - 1][0] == '"';
      }
    } else if u != "" {
      var k := if u[0] == '\\' then 2 else 1;
      if k <= |u| {
        if k < n <= |u| {
          assert u[..n - 1][k..] == u[k..][..n - k - 1] && u[..n - 1][0] == u[0];
          assert k == 2 ==> u[..n - 1][1] == u[1];
        }
        if n >= k {
          StringTailMeans(u[k..], dotAll, n - k);
        }
      }
      if n == 2 && k == 2 && |u| >= 2 {
        assert u[..1] == "\\";
      }
    }
  }

  lemma LiteralMeans(s: string, n: nat)
    ensures LiteralLen(s) == Some(n) <==> n <= |s| && StringLiteral(s[..n], true)
  {
    if s != "" && s[0] == '"' && n >= 2 {
      StringTailMeans(s[1..], true, n - 1);
      if n <= |s| {
        assert s[..n][1..n - 1] == s[1..][..n - 2];
      }
    }
  }

  // ----- the scan -----

  /** A literal or a comment starts the text, `n` characters long. */
  ghost predicate Starts(k: Kind, s: string, n: nat) {
    match k
    case Literal => n <= |s| && StringLiteral(s[..n], true)
    case Comment => LineComment(s, n) || BlockComment(s, n)
    case Plain => false
  }

  ghost predicate Covers(i: Item, p: nat) {
    i.at <= p < i.at + |i.text|
  }

  ghost predicate Found(s: string, at: nat, i: Item) {
    InPlace(s, at, i) && Starts(i.kind, s[i.at - at..], |i.text|)
  }

  /** The items are literals and comments in place, and end before later ones start. */
  ghost predicate Genuine(s: string, at: nat, items: seq<Item>) {
    && (forall i | i in items :: Found(s, at, i))
    && (forall j, k | 0 <= j < k < |items| :: items[j].at + |items[j].text| <= items[k].at)
  }

  /** Where no item stands, neither a literal nor a comment starts. */
  ghost predicate Complete(s: string, at: nat, items: seq<Item>) {
    forall p: nat :: at <= p < at + |s| && Uncovered(items, p) ==> NothingStarts(s[p - at..])
  }

  ghost predicate Uncovered(items: seq<Item>, p: nat) {
    forall i | i in items :: !Covers(i, p)
  }

  ghost predicate NothingStarts(s: string) {
    forall k, n :: !Starts(k, s, n)
  }

  lemma KindMeans(s: string)
    requires s != ""
    ensures KindOf(s) != Plain ==> Starts(KindOf(s), s, PieceLen(s))
    ensures KindOf(s) == Plain ==> NothingStarts(s)
  {
    hide StringLiteral, LineComment, BlockComment, LiteralLen, CommentLen;
    if KindOf(s).Literal? {
      LiteralMeans(s, PieceLen(s));
    } else if KindOf(s).Comment? {
      CommentMeans(s, PieceLen(s));
    } else {
      forall k, n ensures !Starts(k, s, n) {
        LiteralMeans(s, n);
        CommentMeans(s, n);
      }
    }
  }

  lemma FoundLater(s: string, at: nat, n: nat, i: Item)
    requires n <= |s| && Found(s[n..], at + n, i)
    ensures Found(s, at, i) && at + n <= i.at
  {
    hide Starts;
    InPlaceLater(s, at, n, i);
    assert s[n..][i.at - at - n..] == s[i.at - at..];
  }

  lemma GenuineStep(s: string, at: nat, n: nat, items: seq<Item>)
    requires s != "" && n == PieceLen(s) && Genuine(s[n..], at + n, items)
    ensures Genuine(s, at, ItemOf(s, at) + items)
  {
    hide PieceLen, KindOf, Found, ItemOf;
    var all := ItemOf(s, at) + items;
    FirstFound(s, at);
    forall i | i in all ensures Found(s, at, i) {
      if i in items {
        FoundLater(s, at, n, i);
      }
    }
    forall j, k | 0 <= j < k < |all| ensures all[j].at + |all[j].text| <= all[k].at {
      var first := |ItemOf(s, at)|;
      assert all[k] == items[k - first];
      FoundLater(s, at, n, all[k]);
      if j >= first {
        assert all[j] == items[j - first];
      } else {
        assert all[j] in ItemOf(s, at);
      }
    }
  }

  lemma FirstFound(s: string, at: nat)
    requires s != ""
    ensures |ItemOf(s, at)| == if KindOf(s) == Plain then 0 else 1
    ensures forall i | i in ItemOf(s, at) ::
              i.kind == KindOf(s) && i.at == at && |i.text| == PieceLen(s) && Found(s, at, i)
  {
    hide KindOf, PieceLen, Starts;
    KindMeans(s);
    assert s[0..] == s;
  }

  lemma CompleteStep(s: string, at: nat, n: nat, items: seq<Item>)
    requires s != "" && n == PieceLen(s) && Complete(s[n..], at + n, items)
    ensures Complete(s, at, ItemOf(s, at) + items)
  {
    hide PieceLen, KindOf, NothingStarts, ItemOf, Found;
    var all := ItemOf(s, at) + items;
    KindMeans(s);
    PlainLength(s);
    FirstFound(s, at);
    assert KindOf(s) != Plain ==> ItemOf(s, at)[0] in all;
    forall p: nat | at <= p < at + |s| && Uncovered(all, p)
      ensures NothingStarts(s[p - at..])
    {
      if p < at + n {
        assert KindOf(s) != Plain ==> Covers(ItemOf(s, at)[0], p);
        assert s[0..] == s;
      } else {
        assert forall i | i in items :: i in all;
        assert Uncovered(items, p);
        assert s[n..][p - at - n..] == s[p - at..];
      }
    }
  }

  lemma PlainLength(s: string)
    requires s != ""
    ensures KindOf(s) == Plain ==> PieceLen(s) == 1
  {
    hide KindOf;
  }

  /**
   The scan meets exactly the literals and comments of the text from the left: all it finds are in place, apart from
   each other and of their form, and where it finds none, none starts.
   */
  lemma {:induction false} ItemsMean(s: string, at: nat)
    ensures Genuine(s, at, Items(s, at)) && Complete(s, at, Items(s, at))
    decreases |s|
  {
    hide PieceLen, KindOf, Genuine, Complete;
    if s == "" {
      NothingScanned(at);
    } else {
      var n := PieceLen(s);
      ItemsMean(s[n..], at + n);
      GenuineStep(s, at, n, Items(s[n..], at + n));
      CompleteStep(s, at, n, Items(s[n..], at + n));
    }
  }

  lemma NothingScanned(at: nat)
    ensures Genuine("", at, Items("", at)) && Complete("", at, Items("", at))
  {
  }

  // ----- blanking -----

  ghost predicate InComment(items: seq<Item>, p: nat) {
    exists i | i in items :: i.kind == Comment && Covers(i, p)
  }

  /** Inside comments everything but the line ends is a space, and outside them every character is as it was. */
  ghost predicate CommentsBlanked(s: string, at: nat, items: seq<Item>, r: string) {
    && |r| == |s|
    && forall p | 0 <= p < |s| ::
         r[p] == if InComment(items, at + p) && s[p] != '\r' && s[p] != '\n' then ' ' else s[p]
  }

  lemma BlankStep(s: string, at: nat, n: nat, items: seq<Item>)
    requires s != "" && n == PieceLen(s) && Genuine(s[n..], at + n, items)
    requires CommentsBlanked(s[n..], at + n, items, WithoutComments(s[n..]))
    ensures CommentsBlanked(s, at, ItemOf(s, at) + items, WithoutComments(s))
  {
    hide PieceLen, KindOf, WithoutComments, Found, ItemOf;
    var all, r, rest := ItemOf(s, at) + items, WithoutComments(s), WithoutComments(s[n..]);
    BlankUnfold(s);
    FirstFound(s, at);
    forall p | 0 <= p < |s|
      ensures r[p] == if InComment(all, at + p) && s[p] != '\r' && s[p] != '\n' then ' ' else s[p]
    {
      if p < n {
        forall i | i in items ensures !Covers(i, at + p) {
          FoundLater(s, at, n, i);
        }
        assert r[p] == Replacement(KindOf(s), s[..n])[p];
        if KindOf(s).Comment? {
          assert ItemOf(s, at)[0] in all && Covers(ItemOf(s, at)[0], at + p);
        }
      } else {
        assert r[p] == rest[p - n] && s[p] == s[n..][p - n];
        forall i | i in ItemOf(s, at) ensures !Covers(i, at + p) {
        }
        assert InComment(all, at + p) <==> InComment(items, at + n + (p - n)) by {
          assert forall i | i in items :: i in all;
        }
      }
    }
  }

  lemma {:induction false} BlankedFrom(s: string, at: nat)
    ensures CommentsBlanked(s, at, Items(s, at), WithoutComments(s))
    decreases |s|
  {
    hide PieceLen, KindOf, Genuine, WithoutComments, CommentsBlanked, Complete;
    if s == "" {
      NothingBlanked(at);
    } else {
      var n := PieceLen(s);
      BlankedFrom(s[n..], at + n);
      ItemsMean(s[n..], at + n);
      BlankStep(s, at, n, Items(s[n..], at + n));
    }
  }

  lemma NothingBlanked(at: nat)
    ensures CommentsBlanked("", at, Items("", at), WithoutComments(""))
  {
  }

  /** Exactly the comments are blanked, and in them all but the line ends. */
  lemma OnlyCommentsBlanked(s: string)
    ensures Genuine(s, 0, Items(s, 0)) && Complete(s, 0, Items(s, 0))
    ensures CommentsBlanked(s, 0, Items(s, 0), WithoutComments(s))
  {
    hide *;
    ItemsMean(s, 0);
    BlankedFrom(s, 0);
  }
}
