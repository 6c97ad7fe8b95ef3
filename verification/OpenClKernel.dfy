/** Binding OpenCL kernel arguments, and choosing the work-group size of a launch. */
module OpenClKernel {
  import opened Wrappers
  import opened Multiples
  import opened Dimensions

  datatype ArgInfo = ArgInfo(size: nat, value: nat)

  datatype Param = Param(value: nat, size: nat, offset: nat)

  /** An alignment of the parameter's type, or None to align to the argument's size. */
  type Alignments = seq<Option<nat>>

  datatype Bound = Bound(params: seq<Param>) | InvalidKernelArgs | Aborted

  function RoundUp(offset: nat, align: nat): nat
    requires align > 0
  {
    if offset % align != 0 then offset + (align - offset % align) else offset
  }

  /** The smallest multiple of the alignment that is not below the offset. */
  lemma RoundUpIsLeast(offset: nat, align: nat, m: nat)
    requires align > 0
    ensures RoundUp(offset, align) % align == 0 && offset <= RoundUp(offset, align) < offset + align
    ensures offset <= m && m % align == 0 ==> RoundUp(offset, align) <= m
  {
    var r := RoundUp(offset, align);
    var q := offset / align;
    assert offset == q * align + offset % align;
    if offset % align != 0 {
      assert (q + 1) * align == q * align + align;
      assert r == (q + 1) * align + 0;
      QuotientUnique(q + 1, 0, align);
      if offset <= m && m % align == 0 {
        var k := m / align;
        assert m == k * align;
        MulLess(q, k, align);
        MulMono(q + 1, k, align);
      }
    }
  }

  // ----- the layout -----

  function AlignOf(arg: ArgInfo, spec: Option<nat>): nat {
    if spec.Some? then spec.value else arg.size
  }

  /** The indices of the map are exactly 0 .. n-1. */
  ghost predicate Contiguous(args: map<nat, ArgInfo>) {
    forall i: nat :: i in args <==> i < |args|
  }

  /** Indices 0 .. n-1 are set. */
  ghost predicate HasUpTo(args: map<nat, ArgInfo>, n: nat) {
    forall i | 0 <= i < n :: i in args
  }

  /** Sizes and alignments are positive, as a valid kernel has them. */
  predicate Positive(args: map<nat, ArgInfo>, specs: Alignments) {
    && (forall i | i in args :: args[i].size > 0)
    && (forall i | 0 <= i < |specs| :: specs[i].Some? ==> specs[i].value > 0)
  }

  function ArgOffset(args: map<nat, ArgInfo>, specs: Alignments, i: nat): nat
    requires HasUpTo(args, i + 1) && i < |specs| && Positive(args, specs)
    decreases i, 1
  {
    RoundUp(ArgEnd(args, specs, i), AlignOf(args[i], specs[i]))
  }

  /** The end of the arguments before `i`. */
  function ArgEnd(args: map<nat, ArgInfo>, specs: Alignments, i: nat): nat
    requires HasUpTo(args, i) && i <= |specs| && Positive(args, specs)
    decreases i, 0
  {
    if i == 0 then 0 else ArgOffset(args, specs, i - 1) + args[i - 1].size
  }

  /** The parameter list: the last argument stands first. */
  function Layout(args: map<nat, ArgInfo>, specs: Alignments, n: nat): seq<Param>
    requires HasUpTo(args, n) && n <= |specs| && Positive(args, specs)
  {
    if n == 0 then []
    else [Param(args[n - 1].value, args[n - 1].size, ArgOffset(args, specs, n - 1))] + Layout(args, specs, n - 1)
  }

  lemma {:induction false} LayoutAt(args: map<nat, ArgInfo>, specs: Alignments, n: nat, i: nat)
    requires i < n <= |specs| && HasUpTo(args, n) && Positive(args, specs)
    ensures |Layout(args, specs, n)| == n
    ensures Layout(args, specs, n)[n - 1 - i] == Param(args[i].value, args[i].size, ArgOffset(args, specs, i))
  {
    if n > 1 {
      LayoutAt(args, specs, n - 1, if i < n - 1 then i else 0);
    }
  }

  /**
   Each argument lies at the smallest aligned offset after the one before: the ranges are aligned, follow each
   other without overlap, and the padding is less than the alignment.
   */
  lemma LayoutIsLeast(args: map<nat, ArgInfo>, specs: Alignments, n: nat, i: nat, m: nat)
    requires i < n <= |specs| && HasUpTo(args, n) && Positive(args, specs)
    ensures |Layout(args, specs, n)| == n
    ensures var p := Layout(args, specs, n);
            var align := if specs[i].Some? then specs[i].value else args[i].size;
            var before := if i == 0 then 0 else p[n - i].offset + p[n - i].size;
            && p[n - 1 - i].value == args[i].value && p[n - 1 - i].size == args[i].size
            && p[n - 1 - i].offset % align == 0
            && before <= p[n - 1 - i].offset < before + align
            && (before <= m && m % align == 0 ==> p[n - 1 - i].offset <= m)
  {
    hide RoundUp;
    LayoutAt(args, specs, n, i);
    if i > 0 {
      LayoutAt(args, specs, n, i - 1);
    }
    RoundUpIsLeast(ArgEnd(args, specs, i), AlignOf(args[i], specs[i]), m);
  }

  lemma {:induction false} SmallestExists(s: set<nat>)
    requires s != {}
    ensures exists i :: i in s && forall j | j in s :: i <= j
    decreases s
  {
    var x :| x in s;
    if exists j :: j in s && j < x {
      var y :| y in s && y < x;
      var t := set j | j in s && j < x;
      assert y in t && x !in t;
      SmallestExists(t);
      var i :| i in t && forall j | j in t :: i <= j;
      forall j | j in s ensures i <= j {
        if j < x { assert j in t; }
      }
      assert i in s;
    }
  }

  function Below(n: nat): (r: set<nat>)
    ensures |r| == n && forall i: nat :: i in r <==> i < n
  {
    if n == 0 then {} else Below(n - 1) + {n - 1}
  }

  lemma ContiguousIf(args: map<nat, ArgInfo>, n: nat)
    requires forall i: nat :: i in args <==> i < n
    ensures |args| == n && Contiguous(args)
  {
    assert args.Keys == Below(n);
  }

  class Kernel {
    var args: map<nat, ArgInfo>
    const specs: Alignments

    constructor (specs: Alignments)
      ensures args == map[] && this.specs == specs
    {
      args := map[];
      this.specs := specs;
    }

    method SetKernelArg(index: nat, size: nat, value: nat)
      modifies this
      ensures args == old(args)[index := ArgInfo(size, value)]
    {
      args := args[index := ArgInfo(size, value)];
    }

    /** The loop over the arguments in the order of their indices. */
    method BindArgs() returns (r: Bound)
      requires Positive(args, specs)
      ensures r.Bound? <==> Contiguous(args) && |args| <= |specs|
      ensures r.Bound? ==> HasUpTo(args, |args|) && r.params == Layout(args, specs, |args|)
      ensures r.InvalidKernelArgs? <==> !Contiguous(args) && !HasUpTo(args, |specs| + 1)
      ensures r.Aborted? <==> HasUpTo(args, |specs| + 1)
    {
      hide ArgEnd, ArgOffset, Layout;
      var offset := 0;
      var k := 0;
      var list: seq<Param> := [];
      LayoutNone(args, specs);
      var rest := args.Keys;
      while rest != {}
        invariant HasUpTo(args, k) && k <= |specs|
        invariant forall i: nat :: i in rest <==> i in args && i >= k
        invariant offset == ArgEnd(args, specs, k)
        invariant list == Layout(args, specs, k)
        decreases rest
      {
        SmallestExists(rest);
        var i :| i in rest && forall j | j in rest :: i <= j;
        if i != k {
          GapAt(args, k, i);
          return InvalidKernelArgs;
        }
        if i >= |specs| {
          TooMany(args, |specs|);
          return Aborted;
        }
        LayoutMore(args, specs, k);
        var arg := args[i];
        var align := AlignOf(arg, specs[i]);
        if offset % align != 0 {
          offset := offset + (align - offset % align);
        }
        list := [Param(arg.value, arg.size, offset)] + list;
        offset := offset + arg.size;
        rest := rest - {i};
        k := k + 1;
      }
      forall i: nat ensures i in args <==> i < k {
        assert i !in rest;
      }
      ContiguousIf(args, k);
      assert |specs| !in args;
      r := Bound(list);
    }
  }

  lemma LayoutNone(args: map<nat, ArgInfo>, specs: Alignments)
    requires Positive(args, specs)
    ensures ArgEnd(args, specs, 0) == 0 && Layout(args, specs, 0) == []
  {
  }

  lemma LayoutMore(args: map<nat, ArgInfo>, specs: Alignments, k: nat)
    requires HasUpTo(args, k + 1) && k < |specs| && Positive(args, specs)
    ensures var offset := RoundUp(ArgEnd(args, specs, k), AlignOf(args[k], specs[k]));
            && ArgEnd(args, specs, k + 1) == offset + args[k].size
            && Layout(args, specs, k + 1) == [Param(args[k].value, args[k].size, offset)] + Layout(args, specs, k)
  {
  }

  lemma GapAt(args: map<nat, ArgInfo>, k: nat, i: nat)
    requires i in args && k < i && k !in args
    ensures !Contiguous(args)
  {
  }

  lemma TooMany(args: map<nat, ArgInfo>, n: nat)
    requires HasUpTo(args, n + 1)
    ensures |args| > n
  {
    Within(Below(n + 1), args.Keys);
  }

  lemma Within(a: set<nat>, b: set<nat>)
    requires a <= b
    ensures |a| <= |b|
  {
    assert b == a + (b - a);
  }

  // ----- the work size -----

  datatype Enqueued =
    | Launched(grid: Dim3, block: Dim3)
    | InvalidWorkDimension
    | InvalidWorkGroupSize
    | OffsetUnsupported
    | DivisionByZero

  /** A local size the automatic selection may settle on. */
  predicate Suits(global: nat, attempt: nat) {
    attempt > 0 && attempt % 64 == 0 && global % attempt == 0
  }

  /** No size above `lo` up to `hi` suits. */
  ghost predicate NoneSuits(global: nat, lo: nat, hi: nat) {
    forall m | lo < m <= hi :: !Suits(global, m)
  }

  lemma NoneSuitsStep(global: nat, attempt: nat, hi: nat)
    requires 64 <= attempt <= hi && attempt % 64 == 0 && global % attempt != 0 && NoneSuits(global, attempt, hi)
    ensures (attempt - 64) % 64 == 0 && NoneSuits(global, attempt - 64, hi)
  {
    forall m | attempt - 64 < m <= hi ensures !Suits(global, m) {
      if m < attempt { BetweenMultiples(attempt, m); }
    }
  }

  lemma BetweenMultiples(a: nat, m: nat)
    requires a % 64 == 0 && m < a < m + 64
    ensures m % 64 != 0
  {
  }

  /**
   What the automatic selection yields for a global size above the threads of a core. For a core whose thread
   count is a multiple of 64, it is the largest multiple of 64 within that count that divides the global size,
   or 1.
   */
  ghost predicate BestAutomatic(global: nat, threadsPerCore: nat, local: nat) {
    if threadsPerCore % 64 != 0 then local == threadsPerCore
    else
      && (local == 1 || (Suits(global, local) && local <= threadsPerCore))
      && NoneSuits(global, local, threadsPerCore)
  }

  /** The automatic size of the first dimension. */
  method AutoLocalSize(global: nat, threadsPerCore: nat) returns (local: nat)
    requires global > threadsPerCore
    ensures BestAutomatic(global, threadsPerCore, local)
  {
    hide NoneSuits;
    NoneAbove(global, threadsPerCore);
    var attempt: nat := threadsPerCore;
    while attempt > 1 && threadsPerCore % 64 == 0
      invariant attempt <= threadsPerCore
      invariant if threadsPerCore % 64 == 0 then attempt % 64 == 0 else attempt == threadsPerCore
      invariant NoneSuits(global, attempt, threadsPerCore)
    {
      if global % attempt == 0 {
        break;
      }
      NoneSuitsStep(global, attempt, threadsPerCore);
      attempt := attempt - 64;
    }
    if attempt == 0 {
      NoneSuitsMore(global, threadsPerCore);
      attempt := 1;
    }
    local := attempt;
  }

  lemma NoneAbove(global: nat, hi: nat)
    ensures NoneSuits(global, hi, hi)
  {
  }

  lemma NoneSuitsMore(global: nat, hi: nat)
    requires NoneSuits(global, 0, hi)
    ensures NoneSuits(global, 1, hi)
  {
  }

  /** The local sizes the call works with: the caller's, or the automatic first one and 1 elsewhere. */
  ghost predicate Chosen(workDim: nat, global: seq<nat>, given: Option<seq<nat>>, threadsPerCore: nat, local: seq<nat>)
    requires 0 < workDim <= |global| && (given.Some? ==> workDim <= |given.value|)
  {
    && |local| == workDim
    && if given.Some? then local == given.value[..workDim]
       else
         && (if global[0] <= threadsPerCore then local[0] == global[0]
             else BestAutomatic(global[0], threadsPerCore, local[0]))
         && forall d | 0 < d < workDim :: local[d] == 1
  }

  method LocalSizes(workDim: nat, global: seq<nat>, given: Option<seq<nat>>, threadsPerCore: nat)
    returns (local: seq<nat>)
    requires 0 < workDim <= 3 && workDim <= |global| && (given.Some? ==> workDim <= |given.value|)
    ensures Chosen(workDim, global, given, threadsPerCore, local)
  {
    if given.Some? {
      return given.value[..workDim];
    }
    var first := global[0];
    if global[0] > threadsPerCore {
      first := AutoLocalSize(global[0], threadsPerCore);
    }
    local := [first];
    for d := 1 to workDim
      invariant |local| == d && local[0] == first
      invariant forall e | 0 < e < d :: local[e] == 1
    {
      local := local + [1];
    }
  }

  /** What is chosen, in numbers. */
  lemma ChosenMeans(workDim: nat, global: seq<nat>, threadsPerCore: nat, local: seq<nat>)
    requires 0 < workDim <= |global| && Chosen(workDim, global, None, threadsPerCore, local)
    ensures |local| == workDim && forall d | 0 < d < workDim :: local[d] == 1
    ensures global[0] <= threadsPerCore ==> local[0] == global[0]
    ensures global[0] > threadsPerCore && threadsPerCore % 64 != 0 ==> local[0] == threadsPerCore
    ensures global[0] > threadsPerCore && threadsPerCore % 64 == 0 ==>
              && (local[0] == 1 || (0 < local[0] <= threadsPerCore && local[0] % 64 == 0 && global[0] % local[0] == 0))
              && (forall m: nat | local[0] < m <= threadsPerCore && m % 64 == 0 :: global[0] % m != 0)
  {
    if global[0] > threadsPerCore && threadsPerCore % 64 == 0 {
      forall m: nat | local[0] < m <= threadsPerCore && m % 64 == 0 ensures global[0] % m != 0 {
        assert !Suits(global[0], m);
      }
    }
  }

  /** The local size divides the global size. */
  predicate Fine(global: nat, local: nat) {
    local > 0 && global % local == 0
  }

  /** The sizes divide the global sizes in every used dimension. */
  predicate Tiles(global: seq<nat>, local: seq<nat>)
    requires |local| <= |global|
  {
    forall d | 0 <= d < |local| :: Fine(global[d], local[d])
  }

  /** `d` is the first dimension whose size does not divide. */
  ghost predicate FirstBad(global: seq<nat>, local: seq<nat>, d: nat)
    requires |local| <= |global|
  {
    d < |local| && !Fine(global[d], local[d]) && forall e | 0 <= e < d :: Fine(global[e], local[e])
  }

  predicate NoOffset(workDim: nat, offsets: Option<seq<nat>>)
    requires offsets.Some? ==> workDim <= |offsets.value|
  {
    offsets.Some? ==> forall d | 0 <= d < workDim :: offsets.value[d] == 0
  }

  function Component(d: Dim3, k: nat): nat {
    if k == 0 then d.x else if k == 1 then d.y else d.z
  }

  /** Blocks and threads of a dimension multiply to its global size exactly when neither count is cut to 32 bits. */
  ghost predicate Covers(global: nat, local: nat, grid: nat, block: nat)
    requires local > 0
  {
    grid * block == global <==> global == 0 || (global / local < WORD && local < WORD)
  }

  /**
   The checks and the geometry of the launch; dimensions are stored in 32 bits. The first size that does not
   divide decides the error: a size of 0 is a division by zero.
   */
  method Geometry(workDim: nat, global: seq<nat>, given: Option<seq<nat>>, offsets: Option<seq<nat>>, threadsPerCore: nat)
    returns (r: Enqueued, ghost local: seq<nat>)
    requires workDim <= |global| && (given.Some? ==> workDim <= |given.value|)
    requires offsets.Some? ==> workDim <= |offsets.value|
    ensures r.InvalidWorkDimension? <==> workDim == 0 || workDim > 3
    ensures !r.InvalidWorkDimension? ==> Chosen(workDim, global, given, threadsPerCore, local)
    ensures !r.InvalidWorkDimension? ==>
              && (r.DivisionByZero? <==> exists d: nat :: FirstBad(global, local, d) && local[d] == 0)
              && (r.InvalidWorkGroupSize? <==> exists d: nat :: FirstBad(global, local, d) && local[d] != 0)
              && (r.OffsetUnsupported? <==> Tiles(global, local) && !NoOffset(workDim, offsets))
              && (r.Launched? <==> Tiles(global, local) && NoOffset(workDim, offsets))
    ensures r.Launched? ==>
              && (forall d | 0 <= d < workDim ::
                    && Component(r.grid, d) == (global[d] / local[d]) % WORD
                    && Component(r.block, d) == local[d] % WORD
                    && Covers(global[d], local[d], Component(r.grid, d), Component(r.block, d)))
              && (forall d | workDim <= d < 3 :: Component(r.grid, d) == 1 && Component(r.block, d) == 1)
  {
    hide Chosen, Covers;
    local := [];
    if workDim == 0 || workDim > 3 {
      return InvalidWorkDimension, local;
    }
    var sizes := LocalSizes(workDim, global, given, threadsPerCore);
    ChosenCount(workDim, global, given, threadsPerCore, sizes);
    local := sizes;
    for d := 0 to workDim
      invariant forall e | 0 <= e < d :: Fine(global[e], sizes[e])
    {
      if sizes[d] == 0 {
        assert FirstBad(global, sizes, d);
        return DivisionByZero, local;
      }
      if global[d] % sizes[d] != 0 {
        assert FirstBad(global, sizes, d);
        return InvalidWorkGroupSize, local;
      }
    }
    if offsets.Some? {
      for d := 0 to workDim
        invariant forall e | 0 <= e < d :: offsets.value[e] == 0
      {
        if offsets.value[d] != 0 {
          return OffsetUnsupported, local;
        }
      }
    }
    var grid := Dim3((global[0] / sizes[0]) % WORD,
                     if workDim < 2 then 1 else (global[1] / sizes[1]) % WORD,
                     if workDim < 3 then 1 else (global[2] / sizes[2]) % WORD);
    var block := Dim3(sizes[0] % WORD,
                      if workDim < 2 then 1 else sizes[1] % WORD,
                      if workDim < 3 then 1 else sizes[2] % WORD);
    forall d | 0 <= d < workDim
      ensures Covers(global[d], sizes[d], (global[d] / sizes[d]) % WORD, sizes[d] % WORD)
    {
      GeometryCovers(global[d], sizes[d]);
    }
    r := Launched(grid, block);
  }

  lemma ChosenCount(workDim: nat, global: seq<nat>, given: Option<seq<nat>>, threadsPerCore: nat, local: seq<nat>)
    requires 0 < workDim <= |global| && (given.Some? ==> workDim <= |given.value|)
    requires Chosen(workDim, global, given, threadsPerCore, local)
    ensures |local| == workDim
  {
  }

  /** Automatic sizes are always accepted for a core whose thread count is a multiple of 64, unless a size is 0. */
  lemma AutomaticTiles(workDim: nat, global: seq<nat>, threadsPerCore: nat, local: seq<nat>)
    requires 0 < workDim <= |global| && threadsPerCore % 64 == 0
    requires Chosen(workDim, global, None, threadsPerCore, local)
    ensures Tiles(global, local) <==> global[0] > 0
  {
    if global[0] > 0 {
      SelfDivides(global[0]);
      forall d | 0 < d < workDim ensures Fine(global[d], local[d]) {
      }
    }
  }

  lemma SelfDivides(n: nat)
    requires n > 0
    ensures n % n == 0
  {
  }

  lemma GeometryCovers(global: nat, local: nat)
    requires Fine(global, local)
    ensures Covers(global, local, (global / local) % WORD, local % WORD)
  {
    var q := global / local;
    Exactly(global, local, q);
    CutProduct(q, local);
  }

  lemma Exactly(global: nat, local: nat, q: nat)
    requires Fine(global, local) && q == global / local
    ensures global == q * local && (q == 0 <==> global == 0)
  {
  }

  lemma CutProduct(q: nat, l: nat)
    requires l > 0
    ensures (q % WORD) * (l % WORD) == q * l <==> q == 0 || (q < WORD && l < WORD)
  {
    CutIsLess(q);
    CutIsLess(l);
    if q > 0 && !(q < WORD && l < WORD) {
      SmallerProduct(q % WORD, l % WORD, q, l);
    }
  }

  lemma CutIsLess(n: nat)
    ensures n % WORD <= n && (n % WORD < n <==> n >= WORD)
  {
  }

  lemma SmallerProduct(a: nat, b: nat, q: nat, l: nat)
    requires a <= q && b <= l && q > 0 && l > 0 && (a < q || b < l)
    ensures a * b < q * l
  {
    if a < q {
      assert a * l == l * a && a * b == b * a;
      MulMono(b, l, a);
      MulMono(a + 1, q, l);
      assert (a + 1) * l == a * l + l;
    } else {
      assert q * l == l * q && q * b == b * q;
      MulMono(b + 1, l, q);
      assert (b + 1) * q == b * q + q;
    }
  }

  /** 2^38 work items in groups of 64 are 2^32 groups: they are accepted, and a grid of 0 blocks is launched. */
  method GridIsCut(threadsPerCore: nat) returns (r: Enqueued)
    ensures r == Launched(Dim3(0, 1, 1), Dim3(64, 1, 1))
  {
    var global, given := [64 * WORD], [64];
    ghost var local;
    r, local := Geometry(1, global, Some(given), None, threadsPerCore);
    assert given[..1] == given;
    assert Fine(global[0], local[0]);
    assert Component(r.grid, 0) == 0 && Component(r.grid, 1) == 1 && Component(r.grid, 2) == 1;
    assert Component(r.block, 0) == 64 && Component(r.block, 1) == 1 && Component(r.block, 2) == 1;
  }
}
