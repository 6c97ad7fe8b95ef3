/** Character classes and small text measures shared by the PTX rewriter. */
module PtxText {

  /** What Python's `\s` and `str.strip` treat as white space. */
  predicate IsSpace(c: char) {
    || '\t' <= c <= '\r'
    || '\U{1C}' <= c <= ' '
    || c == '\U{85}' || c == '\U{A0}' || c == '\U{1680}'
    || '\U{2000}' <= c <= '\U{200A}'
    || c == '\U{2028}' || c == '\U{2029}' || c == '\U{202F}'
    || c == '\U{205F}' || c == '\U{3000}'
  }

  predicate IsDigit(c: char) {
    '0' <= c <= '9'
  }

  /** `\w` on ASCII text. */
  predicate IsWord(c: char) {
    IsDigit(c) || 'a' <= c <= 'z' || 'A' <= c <= 'Z' || c == '_'
  }

  predicate AllSpace(s: string) {
    forall i | 0 <= i < |s| :: IsSpace(s[i])
  }

  predicate AllDigits(s: string) {
    forall i | 0 <= i < |s| :: IsDigit(s[i])
  }

  /** Length of the white space at the front of `s`. */
  function SpaceRun(s: string): (n: nat)
    ensures n <= |s|
    ensures AllSpace(s[..n])
    ensures n < |s| ==> !IsSpace(s[n])
  {
    if s != "" && IsSpace(s[0]) then 1 + SpaceRun(s[1..]) else 0
  }

  lemma {:induction false} SpaceRunOf(g: string, u: string)
    requires AllSpace(g)
    requires u == "" || !IsSpace(u[0])
    ensures SpaceRun(g + u) == |g|
  {
    if g == "" {
      assert g + u == u;
    } else {
      HeadTail(g, u);
      SpaceRunOf(g[1..], u);
    }
  }

  lemma Split(s: string, n: nat)
    requires n <= |s|
    ensures s[..n] + s[n..] == s
  {
  }

  lemma HeadTail(t: string, u: string)
    requires t != ""
    ensures t + u == [t[0]] + (t[1..] + u)
    ensures (t + u)[1..] == t[1..] + u
  {
  }

  lemma Appended(a: string, u: string)
    ensures (a + u)[|a|..] == u
  {
  }

  lemma DropConcat(a: string, u: string, k: nat)
    requires k <= |a|
    ensures (a + u)[k..] == a[k..] + u
  {
  }

  lemma DropTake(u: string, k: nat, n: nat)
    requires k <= n <= |u|
    ensures u[..n][k..] == u[k..][..n - k]
    ensures u[n..] == u[k..][n - k..]
  {
  }

  lemma DropThenTake(s: string, a: nat, b: nat, c: nat)
    requires a + b + c <= |s|
    ensures s[a..][b..][..c] == s[a + b..a + b + c]
  {
  }

  lemma SliceDrop(s: string, a: nat, b: nat, k: nat)
    requires a + k <= b <= |s|
    ensures s[a..b][k..] == s[a + k..b]
    ensures k > 0 ==> s[a..b][k - 1] == s[a + k - 1]
  {
  }

  lemma CutInThree(s: string, i: nat, j: nat)
    requires i <= j <= |s|
    ensures s[i..j] + s[j..] == s[i..]
    ensures s[..i] + s[i..j] + s[j..] == s
  {
    assert s[..i] + s[i..j] == s[..j];
  }

  // ----- lines -----

  /** The number of newline characters in `s`. */
  function Newlines(s: string): nat {
    if s == "" then 0 else (if s[0] == '\n' then 1 else 0) + Newlines(s[1..])
  }

  lemma {:induction false} NewlinesConcat(a: string, b: string)
    ensures Newlines(a + b) == Newlines(a) + Newlines(b)
  {
    if a == "" {
      assert a + b == b;
    } else {
      HeadTail(a, b);
      NewlinesConcat(a[1..], b);
    }
  }

  lemma {:induction false} NoNewlines(s: string)
    ensures Newlines(s) == 0 <==> '\n' !in s
  {
    if s != "" {
      NoNewlines(s[1..]);
      assert s == [s[0]] + s[1..];
    }
  }

  /** Where the line holding position |s| of a longer text begins: just after the last newline of `s`. */
  function LineStart(s: string): (k: nat)
    ensures k <= |s|
    ensures k > 0 ==> s[k - 1] == '\n'
    ensures '\n' !in s[k..]
  {
    if s == "" then 0
    else if s[|s| - 1] == '\n' then |s|
    else
      assert s == s[..|s| - 1] + [s[|s| - 1]];
      LineStart(s[..|s| - 1])
  }

  lemma LineStartUnique(s: string, k: nat)
    requires k <= |s|
    requires k > 0 ==> s[k - 1] == '\n'
    requires '\n' !in s[k..]
    ensures LineStart(s) == k
  {
    var j := LineStart(s);
    assert k <= j;
    assert j <= k;
  }

  // ----- decimal numbers -----

  function Digit(d: nat): (c: char)
    requires d < 10
    ensures IsDigit(c) && DigitValue(c) == d
  {
    "0123456789"[d]
  }

  function DigitValue(c: char): nat
    requires IsDigit(c)
  {
    c as int - '0' as int
  }

  /** The number as Python prints it. */
  function Decimal(n: nat): (s: string)
    ensures s != "" && AllDigits(s)
  {
    if n < 10 then [Digit(n)] else Decimal(n / 10) + [Digit(n % 10)]
  }

  /** The number Python's `int` reads from a string of digits. */
  function DecimalValue(s: string): nat
    requires AllDigits(s)
  {
    if s == "" then 0 else 10 * DecimalValue(s[..|s| - 1]) + DigitValue(s[|s| - 1])
  }

  lemma {:induction false} DecimalRoundTrip(n: nat)
    ensures DecimalValue(Decimal(n)) == n
  {
    if n >= 10 {
      DecimalRoundTrip(n / 10);
      assert Decimal(n)[..|Decimal(n)| - 1] == Decimal(n / 10);
    } else {
      assert Decimal(n)[..0] == "";
    }
  }
}
