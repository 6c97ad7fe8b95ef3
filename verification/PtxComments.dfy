/** Blanking the comments of PTX text while keeping every other character in place. */
module PtxComments {
  import opened Wrappers
  import opened PtxText
  import opened PtxLex

  predicate IsLineEnd(c: char) {
    c == '\r' || c == '\n'
  }

  /** Length of a `//` comment body: everything up to the end of the line. */
  function LineTail(u: string): (n: nat)
    ensures n <= |u|
    ensures n < |u| ==> IsLineEnd(u[n])
    ensures forall i | 0 <= i < n :: !IsLineEnd(u[i])
  {
    if u == "" || IsLineEnd(u[0]) then 0 else 1 + LineTail(u[1..])
  }

  /** Length of a block comment body through its first closing delimiter. */
  function BlockTail(u: string): (n: Option<nat>)
    ensures n.Some? ==> 2 <= n.value <= |u| && u[n.value - 1] == '/'
  {
    if |u| < 2 then None
    else if u[0] == '*' && u[1] == '/' then Some(2)
    else
      match BlockTail(u[1..])
      case None => None
      case Some(n) => Some(n + 1)
  }

  function LiteralLen(s: string): (n: Option<nat>)
    ensures n.Some? ==> 2 <= n.value <= |s|
  {
    if s == "" || s[0] != '"' then None
    else
      match StringTail(s[1..], true)
      case None => None
      case Some(n) => Some(n + 1)
  }

  function CommentLen(s: string): (n: Option<nat>)
    ensures n.Some? ==> 2 <= n.value <= |s|
  {
    if |s| < 2 || s[0] != '/' then None
    else if s[1] == '/' then Some(2 + LineTail(s[2..]))
    else if s[1] == '*' then
      match BlockTail(s[2..])
      case None => None
      case Some(n) => Some(n + 2)
    else None
  }

  function Spaces(t: string): (r: string)
    ensures |r| == |t|
    ensures forall i | 0 <= i < |t| :: r[i] == if IsLineEnd(t[i]) then t[i] else ' '
  {
    seq(|t|, i requires 0 <= i < |t| => if IsLineEnd(t[i]) then t[i] else ' ')
  }

  /** What the comment regex finds at the front of the text. */
  datatype Kind = Literal | Comment | Plain

  function KindOf(s: string): Kind {
    if LiteralLen(s).Some? then Literal else if CommentLen(s).Some? then Comment else Plain
  }

  /** The length of the literal or comment at the front of `s`, or of one plain character. */
  function PieceLen(s: string): (n: nat)
    requires s != ""
    ensures 1 <= n <= |s|
    ensures KindOf(s) != Plain ==> 2 <= n
  {
    match KindOf(s)
    case Literal => LiteralLen(s).value
    case Comment => CommentLen(s).value
    case Plain => 1
  }

  function Replacement(k: Kind, t: string): (r: string)
    ensures |r| == |t|
  {
    if k.Comment? then Spaces(t) else t
  }

  /** The text with every comment blanked. */
  function WithoutComments(s: string): string
    decreases |s|
  {
    if s == "" then ""
    else
      var n := PieceLen(s);
      Replacement(KindOf(s), s[..n]) + WithoutComments(s[n..])
  }

  lemma BlankUnfold(s: string)
    requires s != ""
    ensures WithoutComments(s) == Replacement(KindOf(s), s[..PieceLen(s)]) + WithoutComments(s[PieceLen(s)..])
  {
  }

  /** A string literal or a comment, and where it stands. */
  datatype Item = Item(kind: Kind, at: nat, text: string)

  function Items(s: string, at: nat): seq<Item>
    decreases |s|
  {
    if s == "" then []
    else
      var n := PieceLen(s);
      ItemOf(s, at) + Items(s[n..], at + n)
  }

  function ItemOf(s: string, at: nat): seq<Item>
    requires s != ""
  {
    if KindOf(s) == Plain then [] else [Item(KindOf(s), at, s[..PieceLen(s)])]
  }

  function Literals(items: seq<Item>): seq<Item> {
    if items == [] then []
    else (if items[0].kind.Literal? then [items[0]] else []) + Literals(items[1..])
  }

  /** Every character stays, or was part of a comment and becomes a space; line ends stay. */
  ghost predicate Blanked(s: string, r: string) {
    && |r| == |s|
    && forall i | 0 <= i < |s| :: r[i] == s[i] || (r[i] == ' ' && !IsLineEnd(s[i]))
  }

  lemma BlankedConcat(a: string, b: string, c: string, d: string)
    requires Blanked(a, c) && Blanked(b, d)
    ensures Blanked(a + b, c + d)
  {
  }

  lemma {:induction false} KeepsPlaces(s: string)
    ensures Blanked(s, WithoutComments(s))
    decreases |s|
  {
    if s != "" {
      hide PieceLen, KindOf, WithoutComments;
      var n := PieceLen(s);
      KeepsPlaces(s[n..]);
      BlankUnfold(s);
      Split(s, n);
      BlankedConcat(s[..n], s[n..], Replacement(KindOf(s), s[..n]), WithoutComments(s[n..]));
    }
  }

  /** Lines keep their numbers: as many newlines before each position as in the commented text. */
  lemma KeepsLines(s: string, k: nat)
    requires k <= |s|
    ensures |WithoutComments(s)| == |s|
    ensures Newlines(WithoutComments(s)[..k]) == Newlines(s[..k])
  {
    KeepsPlaces(s);
    SameNewlines(s[..k], WithoutComments(s)[..k]);
  }

  lemma {:induction false} SameNewlines(a: string, b: string)
    requires Blanked(a, b)
    ensures Newlines(a) == Newlines(b)
  {
    if a != "" {
      assert Blanked(a[1..], b[1..]);
      SameNewlines(a[1..], b[1..]);
    }
  }

  // ----- blanking opens and closes no string -----

  /** A string body that starts here, after a backslash if `escaped`, never closes. */
  predicate Unclosed(u: string, escaped: bool) {
    if u == "" then true
    else if escaped then Unclosed(u[1..], false)
    else u[0] != '"' && Unclosed(u[1..], u[0] == '\\')
  }

  lemma {:induction false} UnclosedMeans(u: string)
    ensures Unclosed(u, false) <==> StringTail(u, true).None?
    decreases |u|
  {
    if u != "" && u[0] != '"' {
      if u[0] != '\\' {
        UnclosedMeans(u[1..]);
      } else if |u| >= 2 {
        assert u[1..][1..] == u[2..];
        UnclosedMeans(u[2..]);
      }
    }
  }

  function EscapedAfter(t: string, escaped: bool): bool {
    if t == "" then escaped else EscapedAfter(t[1..], !escaped && t[0] == '\\')
  }

  lemma {:induction false} UnclosedRest(t: string, u: string, escaped: bool)
    requires Unclosed(t + u, escaped)
    ensures Unclosed(u, EscapedAfter(t, escaped))
  {
    if t == "" {
      assert t + u == u;
    } else {
      assert (t + u)[1..] == t[1..] + u;
      UnclosedRest(t[1..], u, !escaped && t[0] == '\\');
    }
  }

  lemma {:induction false} EscapedAfterLast(t: string, escaped: bool)
    requires t != "" && EscapedAfter(t, escaped)
    ensures t[|t| - 1] == '\\'
  {
    if |t| > 1 {
      EscapedAfterLast(t[1..], !escaped && t[0] == '\\');
    }
  }

  lemma {:induction false} UnclosedSpaces(t: string, u: string, escaped: bool)
    requires t != "" && forall i | 0 <= i < |t| :: t[i] == ' ' || IsLineEnd(t[i])
    requires Unclosed(u, false)
    ensures Unclosed(t + u, escaped)
  {
    assert (t + u)[1..] == t[1..] + u;
    if |t| == 1 {
      assert t[1..] + u == u;
    } else {
      UnclosedSpaces(t[1..], u, false);
    }
  }

  lemma {:induction false} StaysUnclosed(s: string, escaped: bool)
    requires Unclosed(s, escaped)
    ensures Unclosed(WithoutComments(s), escaped)
    decreases |s|
  {
    if s != "" {
      var n := PieceLen(s);
      var t, u := s[..n], s[n..];
      assert t + u == s;
      UnclosedRest(t, u, escaped);
      StaysUnclosed(u, EscapedAfter(t, escaped));
      UnclosedPiece(s, escaped);
    }
  }

  lemma UnclosedPiece(s: string, escaped: bool)
    requires s != "" && Unclosed(s, escaped)
    requires var n := PieceLen(s); Unclosed(WithoutComments(s[n..]), EscapedAfter(s[..n], escaped))
    ensures Unclosed(WithoutComments(s), escaped)
  {
    var n := PieceLen(s);
    var t, r := s[..n], WithoutComments(s[n..]);
    match KindOf(s)
    case Literal =>
      UnclosedMeans(s[1..]);
      assert false;
    case Comment =>
      if EscapedAfter(t, escaped) {
        EscapedAfterLast(t, escaped);
        UnescapeLineEnd(s);
      }
      UnclosedSpaces(Spaces(t), r, escaped);
    case Plain =>
      assert t == [s[0]] && t[1..] == "" && (t + r)[1..] == r;
      assert EscapedAfter(t, escaped) == (!escaped && s[0] == '\\');
  }

  /** A comment that ends in a backslash is a `//` comment, so a line end or nothing follows it. */
  lemma UnescapeLineEnd(s: string)
    requires CommentLen(s).Some? && s[CommentLen(s).value - 1] == '\\'
    requires Unclosed(WithoutComments(s[CommentLen(s).value..]), true)
    ensures Unclosed(WithoutComments(s[CommentLen(s).value..]), false)
  {
    hide WithoutComments;
    var n := CommentLen(s).value;
    KeepsPlaces(s[n..]);
    if s[1] == '/' && n < |s| {
      assert s[n] == s[2..][n - 2] && IsLineEnd(s[n..][0]);
    }
  }

  lemma {:induction false} BlockStaysOpen(u: string, r: string)
    requires Blanked(u, r) && BlockTail(u).None?
    ensures BlockTail(r).None?
  {
    if |u| >= 2 {
      assert Blanked(u[1..], r[1..]);
      BlockStaysOpen(u[1..], r[1..]);
    }
  }

  lemma ItemsUnfold(s: string, at: nat, t: string, r: string)
    requires t != "" && s == t + r && |t| == PieceLen(s)
    ensures Items(s, at) == (if KindOf(s) == Plain then [] else [Item(KindOf(s), at, t)]) + Items(r, at + |t|)
  {
    hide KindOf, PieceLen;
    assert s[..|t|] == t && s[|t|..] == r;
  }

  lemma {:induction false} ItemsAfterSpaces(t: string, u: string, at: nat)
    requires forall i | 0 <= i < |t| :: t[i] == ' ' || IsLineEnd(t[i])
    ensures Items(t + u, at) == Items(u, at + |t|)
  {
    if t == "" {
      assert t + u == u;
    } else {
      hide Items;
      ItemsAfterSpaces(t[1..], u, at + 1);
      assert KindOf(t + u) == Plain;
      HeadTail(t, u);
      ItemsUnfold(t + u, at, [t[0]], t[1..] + u);
    }
  }

  lemma LiteralsConcat(a: seq<Item>, items: seq<Item>)
    requires |a| <= 1
    ensures Literals(a + items) == (if a != [] && a[0].kind.Literal? then a else []) + Literals(items)
  {
    if a == [] {
      assert a + items == items;
    } else {
      assert (a + items)[1..] == items;
    }
  }

  /** A plain character starts neither a literal nor a comment after blanking either. */
  lemma StaysPlain(s: string)
    requires s != "" && KindOf(s) == Plain
    ensures KindOf(WithoutComments(s)) == Plain
  {
    var r := WithoutComments(s[1..]);
    assert s[..1] == [s[0]];
    var w := [s[0]] + r;
    assert WithoutComments(s) == w && w[1..] == r;
    KeepsPlaces(s[1..]);
    if s[0] == '"' {
      UnclosedMeans(s[1..]);
      StaysUnclosed(s[1..], false);
      UnclosedMeans(r);
    } else if s[0] == '/' && |s| >= 2 {
      assert s[1..][0] == s[1] && r[0] in {s[1], ' '};
      if s[1] == '*' {
        StarKept(s[1..]);
        assert s[1..][1..] == s[2..] && w[2..] == r[1..];
        KeepsPlaces(s[2..]);
        BlockStaysOpen(s[2..], WithoutComments(s[2..]));
      }
    }
  }

  lemma StarKept(s: string)
    requires s != "" && s[0] == '*'
    ensures WithoutComments(s)[0] == '*' && WithoutComments(s)[1..] == WithoutComments(s[1..])
  {
    assert KindOf(s) == Plain && s[..1] == ['*'];
  }

  lemma LiteralThen(t: string, r: string)
    requires LiteralLen(t) == Some(|t|)
    ensures LiteralLen(t + r) == Some(|t|)
  {
    StringTailConcat(t[1..], r, true);
    assert (t + r)[1..] == t[1..] + r;
  }

  lemma LiteralTaken(s: string)
    requires LiteralLen(s).Some?
    ensures var n := LiteralLen(s).value; LiteralLen(s[..n]) == Some(n)
  {
    var n := LiteralLen(s).value;
    StringTailTaken(s[1..], true);
    assert s[..n][1..] == s[1..][..n - 1];
  }

  ghost predicate OnlyLiterals(s: string, at: nat) {
    Items(WithoutComments(s), at) == Literals(Items(s, at))
  }

  lemma LiteralLeft(s: string, r: string, at: nat)
    requires s != "" && KindOf(s) == Literal
    ensures var t := s[..PieceLen(s)]; Items(t + r, at) == [Item(Literal, at, t)] + Items(r, at + |t|)
  {
    hide Items;
    var t := s[..PieceLen(s)];
    LiteralTaken(s);
    LiteralThen(t, r);
    ItemsUnfold(t + r, at, t, r);
  }

  lemma PlainLeft(s: string, at: nat)
    requires s != "" && KindOf(s) == Plain
    ensures Items(WithoutComments(s), at) == Items(WithoutComments(s[1..]), at + 1)
  {
    hide Items, WithoutComments, LiteralLen, CommentLen;
    StaysPlain(s);
    BlankUnfold(s);
    assert s[..1] == [s[0]];
    ItemsUnfold(WithoutComments(s), at, [s[0]], WithoutComments(s[1..]));
  }

  lemma OnlyLiteralsStep(s: string, at: nat)
    requires s != "" && OnlyLiterals(s[PieceLen(s)..], at + PieceLen(s))
    ensures OnlyLiterals(s, at)
  {
    hide Items, WithoutComments, LiteralLen, CommentLen, Literals;
    var n := PieceLen(s);
    var r := WithoutComments(s[n..]);
    LiteralsConcat(ItemOf(s, at), Items(s[n..], at + n));
    BlankUnfold(s);
    Split(s, n);
    ItemsUnfold(s, at, s[..n], s[n..]);
    match KindOf(s)
    case Literal => LiteralLeft(s, r, at);
    case Comment => ItemsAfterSpaces(Spaces(s[..n]), r, at);
    case Plain => PlainLeft(s, at);
  }

  /** What a scan of the blanked text meets: the same literals at the same places, and no comment. */
  lemma {:induction false} OnlyLiteralsLeft(s: string, at: nat)
    ensures OnlyLiterals(s, at)
    decreases |s|
  {
    if s == "" {
      assert Items("", at) == [];
    } else {
      hide OnlyLiterals;
      OnlyLiteralsLeft(s[PieceLen(s)..], at + PieceLen(s));
      OnlyLiteralsStep(s, at);
    }
  }

  lemma {:induction false} LiteralsAre(items: seq<Item>)
    ensures |Literals(items)| <= |items|
    ensures Literals(Literals(items)) == Literals(items)
  {
    if items != [] {
      LiteralsAre(items[1..]);
      var first := if items[0].kind.Literal? then [items[0]] else [];
      LiteralsConcat(first, Literals(items[1..]));
    }
  }

  lemma NoCommentFirst(s: string, at: nat)
    requires s != "" && Literals(Items(s, at)) == Items(s, at)
    ensures KindOf(s) != Comment
    ensures Literals(Items(s[PieceLen(s)..], at + PieceLen(s))) == Items(s[PieceLen(s)..], at + PieceLen(s))
  {
    hide PieceLen, KindOf;
    var later := Items(s[PieceLen(s)..], at + PieceLen(s));
    LiteralsConcat(ItemOf(s, at), later);
    LiteralsAre(later);
    if KindOf(s) == Plain {
      assert [] + later == later;
    } else {
      assert Items(s, at)[1..] == later;
    }
  }

  lemma NothingBlank()
    ensures WithoutComments("") == ""
  {
  }

  lemma {:induction false} NothingToBlank(s: string, at: nat)
    requires Literals(Items(s, at)) == Items(s, at)
    ensures WithoutComments(s) == s
    decreases |s|
  {
    hide PieceLen, KindOf, Items, Literals, WithoutComments;
    if s == "" {
      NothingBlank();
    } else {
      NoCommentFirst(s, at);
      NothingToBlank(s[PieceLen(s)..], at + PieceLen(s));
      BlankUnfold(s);
      Split(s, PieceLen(s));
    }
  }

  /** Blanking is done after one pass, on every text, closed or not. */
  lemma BlankingIsIdempotent(s: string)
    ensures WithoutComments(WithoutComments(s)) == WithoutComments(s)
  {
    OnlyLiteralsLeft(s, 0);
    LiteralsAre(Items(s, 0));
    NothingToBlank(WithoutComments(s), 0);
  }

  /** The item is the part of the text it says it is. */
  ghost predicate InPlace(s: string, at: nat, i: Item) {
    at <= i.at && i.at - at + |i.text| <= |s| && s[i.at - at..i.at - at + |i.text|] == i.text
  }

  lemma InPlaceLater(s: string, at: nat, n: nat, i: Item)
    requires n <= |s| && InPlace(s[n..], at + n, i)
    ensures InPlace(s, at, i)
  {
    var k := i.at - at - n;
    assert s[n..][k..k + |i.text|] == s[n + k..n + k + |i.text|];
  }

  lemma {:induction false} ItemInPlace(s: string, at: nat, i: Item)
    requires i in Items(s, at)
    ensures InPlace(s, at, i)
    decreases |s|
  {
    hide PieceLen, KindOf, Items;
    if s == "" {
      NoItems(at);
    } else {
      var n := PieceLen(s);
      Split(s, n);
      ItemsUnfold(s, at, s[..n], s[n..]);
      if i in Items(s[n..], at + n) {
        ItemInPlace(s[n..], at + n, i);
        InPlaceLater(s, at, n, i);
      }
    }
  }

  lemma NoItems(at: nat)
    ensures Items("", at) == []
  {
  }

  /** Every literal that the scan of the source meets stands verbatim in the blanked text. */
  lemma LiteralsVerbatim(s: string, i: Item)
    requires i in Items(s, 0) && i.kind == Literal
    ensures var r := WithoutComments(s); i.at + |i.text| <= |r| && r[i.at..i.at + |i.text|] == i.text
  {
    hide Items;
    OnlyLiteralsLeft(s, 0);
    LiteralStays(Items(s, 0), i);
    ItemInPlace(WithoutComments(s), 0, i);
  }

  lemma {:induction false} LiteralStays(items: seq<Item>, i: Item)
    requires i in items && i.kind == Literal
    ensures i in Literals(items)
  {
    if items[0] != i {
      LiteralStays(items[1..], i);
    }
  }
}
