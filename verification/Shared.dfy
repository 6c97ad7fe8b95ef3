/** Small definitions that several modules share. */
module Wrappers {

  datatype Option<+T> = None | Some(value: T)
}

/** Facts about multiples that the solver does not find by itself. */
module Multiples {

  lemma MulMono(a: nat, b: nat, c: nat)
    requires a <= b
    ensures a * c <= b * c
  {
    assert b * c == a * c + (b - a) * c;
  }

  lemma MulLess(a: nat, b: nat, c: nat)
    requires a * c < b * c
    ensures a < b
  {
    if b <= a {
      MulMono(b, a, c);
    }
  }

  /** A multiple plus a remainder determines both. */
  lemma QuotientUnique(q: nat, r: nat, c: nat)
    requires r < c
    ensures (q * c + r) / c == q && (q * c + r) % c == r
  {
    var n := q * c + r;
    var k := n / c;
    assert n == k * c + n % c;
    assert (q + 1) * c == q * c + c && (k + 1) * c == k * c + c;
    MulLess(k, q + 1, c);
    MulLess(q, k + 1, c);
  }
}

module Subsequences {

  /** `kept` is what is left of `all` after leaving some entries out. */
  ghost predicate Subsequence<T>(kept: seq<T>, all: seq<T>)
    decreases |all|
  {
    if all == [] then kept == []
    else
      || Subsequence(kept, all[..|all| - 1])
      || (kept != [] && kept[|kept| - 1] == all[|all| - 1] && Subsequence(kept[..|kept| - 1], all[..|all| - 1]))
  }
}

/** Machine words, and the three-dimensional sizes of launches. */
module Dimensions {

  const WORD: nat := 0x1_0000_0000
  const LONG: nat := 0x1_0000_0000_0000_0000

  type uint32 = n: nat | n < WORD
  type uint64 = n: nat | n < LONG

  datatype Dim3 = Dim3(x: uint32, y: uint32, z: uint32)
}
