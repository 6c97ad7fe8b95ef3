/** The token regex of the PTX rewriter, and token streams that remember the white space between tokens. */
module PtxLex {
  import opened Wrappers
  import opened PtxText

  predicate IsIdStart(c: char) {
    c == '.' || c == '$' || c == '%' || c == '_' || 'a' <= c <= 'z' || 'A' <= c <= 'Z'
  }

  predicate IsIdPart(c: char) {
    IsWord(c) || c == '.' || c == '$' || c == '%'
  }

  /** The text that makes an identifier before it longer: a part character, or a double colon. */
  predicate ContinuesId(u: string) {
    u != "" && (IsIdPart(u[0]) || (u[0] == ':' && |u| >= 2 && u[1] == ':'))
  }

  /** How much of `u` the repeated part of an identifier takes. */
  function IdTail(u: string): (n: nat)
    ensures n <= |u|
  {
    if !ContinuesId(u) then 0
    else if IsIdPart(u[0]) then 1 + IdTail(u[1..])
    else 2 + IdTail(u[2..])
  }

  /**
   The rest of a string literal after its opening quote, closing quote included; None if it never closes.
   Without `dotAll`, a backslash does not escape a newline.
   */
  function StringTail(u: string, dotAll: bool): (n: Option<nat>)
    ensures n.Some? ==> 1 <= n.value <= |u| && u[n.value - 1] == '"'
  {
    if u == "" then None
    else if u[0] == '"' then Some(1)
    else
      var k := if u[0] == '\\' then 2 else 1;
      if k > |u| || (k == 2 && u[1] == '\n' && !dotAll) then None
      else
        match StringTail(u[k..], dotAll)
        case None => None
        case Some(n) => Some(k + n)
  }

  /** Length of the token at the front of `u`. */
  function TokenLen(u: string): (n: nat)
    requires u != "" && !IsSpace(u[0])
    ensures 1 <= n <= |u|
  {
    if u[0] == '"' then
      match StringTail(u[1..], false)
      case None => 1
      case Some(n) => 1 + n
    else if IsIdStart(u[0]) then 1 + IdTail(u[1..])
    else 1
  }

  // ----- streams -----

  /** A text as white space, token, white space, token, ..., white space. */
  datatype Stream = End(gap: string) | Cons(gap: string, tok: string, rest: Stream)

  function Text(x: Stream): string {
    match x
    case End(g) => g
    case Cons(g, t, r) => g + t + Text(r)
  }

  function Tokens(x: Stream): seq<string> {
    match x
    case End(_) => []
    case Cons(_, t, r) => [t] + Tokens(r)
  }

  function Lex(s: string): Stream
    decreases |s|
  {
    var g := SpaceRun(s);
    if g == |s| then End(s)
    else
      var n := TokenLen(s[g..]);
      Cons(s[..g], s[g..g + n], Lex(s[g + n..]))
  }

  /** Each token of the stream is what the token regex finds at its place. */
  predicate WellFormed(x: Stream) {
    match x
    case End(g) => AllSpace(g)
    case Cons(g, t, r) =>
      AllSpace(g) && t != "" && !IsSpace(t[0]) && TokenLen(t + Text(r)) == |t| && WellFormed(r)
  }

  lemma {:induction false} LexIsWellFormed(s: string)
    ensures Text(Lex(s)) == s && WellFormed(Lex(s))
    decreases |s|
  {
    var g := SpaceRun(s);
    if g == |s| {
      assert s[..g] == s;
    } else {
      var n := TokenLen(s[g..]);
      var t, v := s[g..g + n], s[g + n..];
      LexIsWellFormed(v);
      CutInThree(s, g, g + n);
    }
  }

  /** A text has one token stream only: lexing undoes printing. */
  lemma {:induction false} LexText(x: Stream)
    requires WellFormed(x)
    ensures Lex(Text(x)) == x
  {
    match x
    case End(g) =>
      assert g + "" == g;
      SpaceRunOf(g, "");
    case Cons(g, t, r) =>
      var u := t + Text(r);
      assert Text(x) == g + u;
      SpaceRunOf(g, u);
      assert Text(x)[|g|..] == u;
      assert Text(x)[..|g|] == g;
      assert Text(x)[|g|..|g| + |t|] == t;
      assert Text(x)[|g| + |t|..] == Text(r);
      LexText(r);
  }

  // ----- what a token looks like, and what may follow it -----

  predicate IsString(t: string) {
    t != "" && t[0] == '"' && StringTail(t[1..], false) == Some(|t| - 1)
  }

  predicate IsIdentifier(t: string) {
    t != "" && IsIdStart(t[0]) && IdTail(t[1..]) == |t| - 1
  }

  predicate IsSymbol(t: string) {
    |t| == 1 && !IsSpace(t[0]) && t[0] != '"' && !IsIdStart(t[0])
  }

  /** A token other than a quote that no later quote closes. */
  predicate IsToken(t: string) {
    IsString(t) || IsIdentifier(t) || IsSymbol(t)
  }

  /** The white space is white space, the tokens are tokens, and every quote is closed. */
  predicate Closed(x: Stream) {
    match x
    case End(g) => AllSpace(g)
    case Cons(g, t, r) => AllSpace(g) && IsToken(t) && Closed(r)
  }

  lemma ClosedHead(x: Stream)
    requires Closed(x)
    ensures AllSpace(x.gap)
    ensures x.Cons? ==> IsToken(x.tok) && x.tok != "" && Closed(x.rest)
  {
  }

  /** No identifier of the stream runs into the text after it. */
  predicate Separated(x: Stream) {
    match x
    case End(_) => true
    case Cons(_, t, r) => (IsIdentifier(t) ==> !ContinuesId(Text(r))) && Separated(r)
  }

  lemma {:induction false} IdTailConcat(a: string, u: string)
    requires IdTail(a) == |a|
    ensures IdTail(a + u) == |a| + IdTail(u)
    decreases |a|
  {
    if a == "" {
      assert a + u == u;
    } else if IsIdPart(a[0]) {
      DropConcat(a, u, 1);
      IdTailConcat(a[1..], u);
    } else {
      DropConcat(a, u, 2);
      IdTailConcat(a[2..], u);
    }
  }

  lemma {:induction false} IdTailTaken(u: string)
    ensures IdTail(u[..IdTail(u)]) == IdTail(u) && !ContinuesId(u[IdTail(u)..])
    decreases |u|
  {
    var n := IdTail(u);
    if ContinuesId(u) {
      var k := if IsIdPart(u[0]) then 1 else 2;
      IdTailTaken(u[k..]);
      DropTake(u, k, n);
      var w := u[..n];
      assert w[0] == u[0] && w[k - 1] == u[k - 1] && IdTail(w[k..]) == n - k;
    } else {
      assert u[..0] == "" && u[0..] == u;
    }
  }

  lemma {:induction false} StringTailConcat(a: string, u: string, dotAll: bool)
    requires StringTail(a, dotAll) == Some(|a|)
    ensures StringTail(a + u, dotAll) == Some(|a|)
    decreases |a|
  {
    if a[0] != '"' {
      var k := if a[0] == '\\' then 2 else 1;
      DropConcat(a, u, k);
      StringTailConcat(a[k..], u, dotAll);
    }
  }

  lemma {:induction false} StringTailTaken(u: string, dotAll: bool)
    requires StringTail(u, dotAll).Some?
    ensures var n := StringTail(u, dotAll).value; StringTail(u[..n], dotAll) == Some(n)
    decreases |u|
  {
    var n := StringTail(u, dotAll).value;
    if u[0] != '"' {
      var k := if u[0] == '\\' then 2 else 1;
      assert StringTail(u[k..], dotAll) == Some(n - k);
      StringTailTaken(u[k..], dotAll);
      DropTake(u, k, n);
      var w := u[..n];
      assert w[0] == u[0] && w[k - 1] == u[k - 1] && StringTail(w[k..], dotAll) == Some(n - k);
    }
  }

  /** A string of the token regex is also a string of the comment regex. */
  lemma {:induction false} StringTailDotAll(u: string)
    requires StringTail(u, false).Some?
    ensures StringTail(u, true) == StringTail(u, false)
    decreases |u|
  {
    if u[0] != '"' {
      StringTailDotAll(u[if u[0] == '\\' then 2 else 1..]);
    }
  }

  lemma TokenThen(t: string, u: string)
    requires IsToken(t)
    requires IsIdentifier(t) ==> !ContinuesId(u)
    ensures !IsSpace(t[0]) && TokenLen(t + u) == |t|
  {
    assert (t + u)[1..] == t[1..] + u;
    if IsString(t) {
      StringTailConcat(t[1..], u, false);
    } else if IsIdentifier(t) {
      IdTailConcat(t[1..], u);
    }
  }

  lemma {:induction false} ClosedIsWellFormed(x: Stream)
    requires Closed(x) && Separated(x)
    ensures WellFormed(x)
  {
    if x.Cons? {
      TokenThen(x.tok, Text(x.rest));
      ClosedIsWellFormed(x.rest);
    }
  }

  /** A lone quote is the only token that is not a token by itself. */
  lemma TokenShape(t: string, u: string)
    requires t != "" && !IsSpace(t[0]) && TokenLen(t + u) == |t|
    ensures t == "\"" || IsToken(t)
    ensures IsIdentifier(t) ==> !ContinuesId(u)
  {
    assert (t + u)[1..] == t[1..] + u;
    var v := t[1..] + u;
    assert t[1..] == v[..|t| - 1] && u == v[|t| - 1..];
    if t[0] == '"' {
      if StringTail(v, false).Some? {
        StringTailTaken(v, false);
      }
    } else if IsIdStart(t[0]) {
      IdTailTaken(v);
    }
  }

  /** Closed quotes, said of the text: no token of the text is a lone quote. */
  lemma {:induction false} LexClosed(x: Stream)
    requires WellFormed(x)
    ensures Separated(x)
    ensures Closed(x) <==> "\"" !in Tokens(x)
  {
    if x.Cons? {
      TokenShape(x.tok, Text(x.rest));
      LexClosed(x.rest);
      assert !IsToken("\"");
    }
  }

  /** The text after its tokens: a token ends in a character that is not white space. */
  lemma TokenEndsInk(t: string)
    requires IsToken(t)
    ensures !IsSpace(t[|t| - 1])
  {
    if IsIdentifier(t) {
      IdTailInk(t[1..], |t| - 1);
    }
  }

  lemma {:induction false} IdTailInk(u: string, n: nat)
    requires n == IdTail(u)
    ensures forall i | 0 <= i < n :: IsIdPart(u[i]) || u[i] == ':'
    decreases |u|
  {
    if ContinuesId(u) {
      var k := if IsIdPart(u[0]) then 1 else 2;
      IdTailInk(u[k..], n - k);
      forall i | 0 <= i < n ensures IsIdPart(u[i]) || u[i] == ':' {
        if i >= k { assert u[i] == u[k..][i - k]; }
      }
    }
  }
}
