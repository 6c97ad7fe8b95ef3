/** Applying insertions, given by position in the source, to a text. */
module PtxInsert {
  import opened PtxScan

  datatype Insertion = Insertion(at: nat, text: string)

  // ----- the order of Python tuples -----

  predicate StringLeq(s: string, t: string) {
    s == "" || (t != "" && (s[0] < t[0] || (s[0] == t[0] && StringLeq(s[1..], t[1..]))))
  }

  /** The texts agree up to `n`, where the first ends or has the smaller character. */
  ghost predicate Before(s: string, t: string, n: nat) {
    n <= |s| && n <= |t| && s[..n] == t[..n] && (n == |s| || (n < |t| && s[n] < t[n]))
  }

  lemma {:induction false} StringLeqMeans(s: string, t: string)
    ensures StringLeq(s, t) <==> exists n: nat :: Before(s, t, n)
  {
    if s == "" {
      assert Before(s, t, 0);
    } else if t != "" && s[0] == t[0] {
      StringLeqMeans(s[1..], t[1..]);
      forall n: nat ensures Before(s[1..], t[1..], n) <==> Before(s, t, n + 1) {
        BeforeNext(s, t, n);
      }
      assert !Before(s, t, 0);
      forall n: nat | Before(s, t, n) ensures n > 0 && Before(s[1..], t[1..], n - 1) {
        BeforeNext(s, t, n - 1);
      }
    } else if t != "" {
      assert s[0] < t[0] ==> Before(s, t, 0);
      forall n: nat | Before(s, t, n) ensures n == 0 {
        if n > 0 {
          SameHead(s, t, n);
        }
      }
    }
  }

  lemma SameHead(s: string, t: string, n: nat)
    requires 0 < n <= |s| && n <= |t| && s[..n] == t[..n]
    ensures s[0] == t[0]
  {
    assert s[..n][0] == s[0] && t[..n][0] == t[0];
  }

  lemma BeforeNext(s: string, t: string, n: nat)
    requires s != "" && t != "" && s[0] == t[0]
    ensures Before(s[1..], t[1..], n) <==> Before(s, t, n + 1)
  {
    if n + 1 <= |s| && n + 1 <= |t| {
      assert s[..n + 1] == [s[0]] + s[1..][..n] && t[..n + 1] == [t[0]] + t[1..][..n];
      assert s[..n + 1][1..] == s[1..][..n] && t[..n + 1][1..] == t[1..][..n];
    }
  }

  predicate Leq(a: Insertion, b: Insertion) {
    a.at < b.at || (a.at == b.at && StringLeq(a.text, b.text))
  }

  predicate Sorted(ins: seq<Insertion>) {
    |ins| <= 1 || (Leq(ins[0], ins[1]) && Sorted(ins[1..]))
  }

  function InsertSorted(i: Insertion, ins: seq<Insertion>): seq<Insertion> {
    if ins == [] || Leq(i, ins[0]) then [i] + ins
    else [ins[0]] + InsertSorted(i, ins[1..])
  }

  function Sort(ins: seq<Insertion>): seq<Insertion> {
    if ins == [] then [] else InsertSorted(ins[0], Sort(ins[1..]))
  }

  lemma {:induction false} StringLeqTotal(s: string, t: string)
    ensures StringLeq(s, t) || StringLeq(t, s)
  {
    if s != "" && t != "" && s[0] == t[0] {
      StringLeqTotal(s[1..], t[1..]);
    }
  }

  lemma {:induction false} InsertKeepsSorted(i: Insertion, ins: seq<Insertion>)
    requires Sorted(ins)
    ensures Sorted(InsertSorted(i, ins))
    ensures multiset(InsertSorted(i, ins)) == multiset{i} + multiset(ins)
  {
    hide StringLeq;
    if ins == [] || Leq(i, ins[0]) {
      assert ([i] + ins)[1..] == ins;
    } else {
      StringLeqTotal(i.text, ins[0].text);
      InsertKeepsSorted(i, ins[1..]);
      var r := InsertSorted(i, ins);
      assert r[1..] == InsertSorted(i, ins[1..]);
      assert ins == [ins[0]] + ins[1..];
    }
  }

  /** The sorting of the insertions is in order and loses or repeats none. */
  lemma {:induction false} SortSorts(ins: seq<Insertion>)
    ensures Sorted(Sort(ins)) && multiset(Sort(ins)) == multiset(ins)
  {
    if ins != [] {
      SortSorts(ins[1..]);
      InsertKeepsSorted(ins[0], Sort(ins[1..]));
      assert ins == [ins[0]] + ins[1..];
    }
  }

  lemma {:induction false} SortOfSorted(ins: seq<Insertion>)
    requires Sorted(ins)
    ensures Sort(ins) == ins
  {
    if ins != [] {
      SortOfSorted(ins[1..]);
      assert ins == [ins[0]] + ins[1..];
    }
  }

  // ----- weaving sorted insertions into the source -----

  function Weave(source: string, cursor: nat, ins: seq<Insertion>): string
    decreases |ins|
  {
    if ins == [] then Slice(source, cursor, |source|)
    else Slice(source, cursor, ins[0].at) + ins[0].text + Weave(source, ins[0].at, ins[1..])
  }

  function Apply(source: string, ins: seq<Insertion>): string {
    Weave(source, 0, Sort(ins))
  }

  lemma Concat4(a: string, b: string, c: string, d: string)
    ensures a + (b + c + d) == a + b + c + d
  {
  }

  lemma WeaveFirst(source: string, cursor: nat, i: Insertion, ins: seq<Insertion>)
    ensures Weave(source, cursor, [i] + ins) == Slice(source, cursor, i.at) + i.text + Weave(source, i.at, ins)
  {
    assert ([i] + ins)[1..] == ins;
  }

  lemma WeaveSkip(source: string, cursor: nat, end: nat, ins: seq<Insertion>)
    requires cursor <= end <= |source|
    requires ins != [] ==> end <= ins[0].at <= |source|
    ensures Weave(source, cursor, ins) == Slice(source, cursor, end) + Weave(source, end, ins)
  {
    if ins == [] {
      SliceSplit(source, cursor, end, |source|);
    } else {
      SliceSplit(source, cursor, end, ins[0].at);
      Concat4(Slice(source, cursor, end), Slice(source, end, ins[0].at), ins[0].text,
              Weave(source, ins[0].at, ins[1..]));
    }
  }

  method ApplyInsertions(source: string, insertions: seq<Insertion>) returns (r: string)
    ensures r == Apply(source, insertions)
  {
    hide Sort, Slice;
    var sorted := Sort(insertions);
    var parts := "";
    var cursor := 0;
    assert "" + Weave(source, 0, sorted) == Weave(source, 0, sorted);
    assert sorted[0..] == sorted;
    for k := 0 to |sorted|
      invariant Weave(source, 0, sorted) == parts + Weave(source, cursor, sorted[k..])
    {
      var position, text := sorted[k].at, sorted[k].text;
      assert sorted[k..] == [sorted[k]] + sorted[k + 1..];
      WeaveFirst(source, cursor, sorted[k], sorted[k + 1..]);
      Concat4(parts, Slice(source, cursor, position), text, Weave(source, position, sorted[k + 1..]));
      parts := parts + Slice(source, cursor, position);
      parts := parts + text;
      cursor := position;
    }
    r := parts + Slice(source, cursor, |source|);
  }

  // ----- what weaving means -----

  /** The positions lie in the source and do not go back. */
  ghost predicate Fits(ins: seq<Insertion>, lo: nat, hi: nat) {
    ins == [] || (lo <= ins[0].at <= hi && Fits(ins[1..], ins[0].at, hi))
  }

  function InsertAt(s: string, i: Insertion): string {
    Slice(s, 0, i.at) + i.text + Slice(s, i.at, |s|)
  }

  /** The insertions made one at a time, the last first, so that no position moves before it is used. */
  function FromTheBack(source: string, ins: seq<Insertion>): string {
    if ins == [] then source else InsertAt(FromTheBack(source, ins[1..]), ins[0])
  }

  /** The fragments taken out again, the first one first. */
  function Erase(s: string, ins: seq<Insertion>): string
    decreases |ins|
  {
    if ins == [] then s
    else Erase(Slice(s, 0, ins[0].at) + Slice(s, ins[0].at + |ins[0].text|, |s|), ins[1..])
  }

  function TotalLength(ins: seq<Insertion>): nat {
    if ins == [] then 0 else |ins[0].text| + TotalLength(ins[1..])
  }

  lemma WholeSlice(s: string)
    ensures Slice(s, 0, |s|) == s
  {
  }

  lemma Around(a: string, t: string, b: string)
    ensures InsertAt(a + b, Insertion(|a|, t)) == a + t + b
    ensures var s := a + t + b; Slice(s, 0, |a|) == a && Slice(s, |a| + |t|, |s|) == b
  {
    assert Slice(a + b, 0, |a|) == a;
    assert Slice(a + b, |a|, |a + b|) == b;
  }

  /** Weaving is inserting from the back; it adds the lengths; taking the fragments out gives the source back. */
  lemma {:induction false} WeaveInsertsAndErases(source: string, ins: seq<Insertion>, lo: nat)
    requires Fits(ins, lo, |source|)
    ensures Weave(source, 0, ins) == FromTheBack(source, ins)
    ensures |Weave(source, 0, ins)| == |source| + TotalLength(ins)
    ensures Erase(Weave(source, 0, ins), ins) == source
    decreases |ins|
  {
    hide Weave, InsertAt, Slice;
    if ins == [] {
      WeaveNone(source);
    } else {
      var i, rest := ins[0], ins[1..];
      WeaveInsertsAndErases(source, rest, i.at);
      assert [i] + rest == ins;
      WeaveFirst(source, 0, i, rest);
      WeaveSkip(source, 0, i.at, rest);
      var a, b := Slice(source, 0, i.at), Weave(source, i.at, rest);
      SliceLength(source, i.at);
      Around(a, i.text, b);
    }
  }

  lemma SliceLength(s: string, n: nat)
    requires n <= |s|
    ensures |Slice(s, 0, n)| == n
  {
  }

  lemma WeaveNone(source: string)
    ensures Weave(source, 0, []) == source
  {
    WholeSlice(source);
  }

  lemma {:induction false} SortedFits(ins: seq<Insertion>, lo: nat, hi: nat)
    requires Sorted(ins) && (forall i | i in ins :: lo <= i.at <= hi)
    ensures Fits(ins, lo, hi)
  {
    if |ins| >= 2 {
      SortedFits(ins[1..], lo, hi);
      FitsFrom(ins[1..], lo, hi, ins[0].at);
    }
  }

  lemma FitsFrom(ins: seq<Insertion>, lo: nat, hi: nat, at: nat)
    requires ins != [] && Fits(ins, lo, hi) && at <= ins[0].at
    ensures Fits(ins, at, hi)
  {
  }

  /** For any insertions with positions in the source, in any order of the list. */
  lemma InsertionsErase(source: string, ins: seq<Insertion>)
    requires forall i | i in ins :: i.at <= |source|
    ensures var sorted, r := Sort(ins), Apply(source, ins);
            && r == FromTheBack(source, sorted)
            && |r| == |source| + TotalLength(sorted)
            && Erase(r, sorted) == source
  {
    SortSorts(ins);
    forall i | i in Sort(ins) ensures 0 <= i.at <= |source| {
      assert i in multiset(Sort(ins)) && i in multiset(ins);
    }
    SortedFits(Sort(ins), 0, |source|);
    WeaveInsertsAndErases(source, Sort(ins), 0);
  }
}
