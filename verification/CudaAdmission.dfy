/** What launch admission guarantees: shared-memory opt-ins and cluster tilings. */
module CudaAdmission {
  import opened Wrappers
  import opened Multiples
  import opened Dimensions
  import opened CudaLaunch
  import opened CudaLaunchLaws

  // ----- shared memory -----

  /** Every recorded opt-in fits beside the kernel's static shared memory. */
  ghost predicate OptInsFit(dev: Device, s: State) {
    forall name | name in s.optIn ::
      name in s.functions && s.functions[name].staticSmem + s.optIn[name] <= dev.sharedPerBlockOptin
  }

  /** The static sizes are those of `s`. */
  ghost predicate SameStatics(s: State, t: State) {
    forall name | name in s.functions ::
      name in t.functions && t.functions[name].staticSmem == s.functions[name].staticSmem
  }

  lemma {:induction false} PolicyKeepsStatic(f: Function, attributes: seq<Attribute>)
    ensures WithPolicy(f, attributes).staticSmem == f.staticSmem
  {
    if attributes != [] {
      PolicyKeepsStatic(f, attributes[..|attributes| - 1]);
    }
  }

  lemma LaunchKeepsTables(dev: Device, s: State, fun: HostFunction)
    ensures var t := Launch(dev, s, fun).0;
            t.functions == s.functions && t.optIn == s.optIn && t.kernels == s.kernels
  {
    hide Rejection, Volume32, BindParams, ClusterOf, Skipped;
  }

  lemma SetupTables(s: State, args: seq<Argument>)
    requires s.stack != []
    ensures var t := SetupArguments(s, args);
            t.functions == s.functions && t.optIn == s.optIn && t.operations == s.operations && t.kernels == s.kernels
  {
    hide SetArgs;
  }

  lemma SetClusterKeepsStatic(f: Function, attr: FunctionAttribute, value: int)
    ensures SetCluster(f, attr, value).staticSmem == f.staticSmem
  {
  }

  lemma AttributeTables(dev: Device, s: State, c: Call)
    requires c.AttributeCall? && Legal(s, c) && OptInsFit(dev, s)
    ensures SameStatics(s, Do(dev, s, c).0) && OptInsFit(dev, Do(dev, s, c).0)
  {
    hide SetCluster, SetCarveout, CuFuncSetAttribute;
    if Known(s, c.fun) {
      SetClusterKeepsStatic(s.functions[KernelName(s, c.fun)], c.attr, c.value);
      CarveoutTables(s, KernelName(s, c.fun), c.value);
    }
  }

  lemma DriverAttributeTables(dev: Device, s: State, c: Call)
    requires c.DriverAttributeCall? && Legal(s, c) && OptInsFit(dev, s)
    ensures SameStatics(s, Do(dev, s, c).0) && OptInsFit(dev, Do(dev, s, c).0)
  {
    hide SetCarveout, FuncSetAttribute;
    if Known(s, c.fun) {
      CarveoutTables(s, KernelName(s, c.fun), c.value);
    }
  }

  lemma CarveoutTables(s: State, name: Name, value: int)
    ensures SetCarveout(s, name, value).0.functions == s.functions && SetCarveout(s, name, value).0.optIn == s.optIn
  {
  }

  // ----- operations that reach the stream manager -----

  /** What admission has established about an operation. */
  ghost predicate Admitted(dev: Device, op: Operation) {
    && (op.cluster.Some? ==> ClusterFits(dev, op.cluster.value, op.grid))
    && Volume32(op.grid) != 0 && Volume32(op.block) != 0
  }

  ghost predicate AllAdmitted(dev: Device, s: State) {
    forall k | 0 <= k < |s.operations| :: Admitted(dev, s.operations[k])
  }

  lemma LaunchAdmits(dev: Device, s: State, fun: HostFunction)
    requires AllAdmitted(dev, s)
    ensures AllAdmitted(dev, Launch(dev, s, fun).0)
  {
    hide SharedMemoryFits, Volume32, BindParams, ClusterFits, Skipped;
  }

  /** The one operation a launch may add, and what it carries. */
  lemma LaunchAdds(dev: Device, s: State, fun: HostFunction)
    requires Launch(dev, s, fun).1 == Returned(Success) && !Skipped(dev, s.nextUid)
    ensures s.stack != [] && Known(s, fun)
    ensures var config, f, t := Top(s), FunctionOf(s, fun), Launch(dev, s, fun).0;
            && |t.operations| == |s.operations| + 1
            && t.operations[..|s.operations|] == s.operations
            && var op := t.operations[|s.operations|];
               && op.kernel == KernelName(s, fun) && op.uid == s.nextUid
               && op.params == BindParams(config.args)
               && op.grid == config.grid && op.block == config.block && op.stream == config.stream
               && op.cluster == ClusterOf(config, f)
               && (f.clusterMustBeSet ==> op.cluster.Some?)
               && op.dynamicSmem == config.sharedMem
  {
    hide Volume32, BindParams, ClusterFits, Skipped;
  }

  // ----- what one call keeps -----

  /** The invariants of admission carry over from `s` to `t`. */
  ghost predicate Keeps(dev: Device, s: State, t: State) {
    && (OptInsFit(dev, s) ==> SameStatics(s, t) && OptInsFit(dev, t))
    && (AllAdmitted(dev, s) ==> AllAdmitted(dev, t))
  }

  /** Nothing changes but the stack, and operations as a launch adds them. */
  lemma KeepsLaunch(dev: Device, s: State, s1: State, fun: HostFunction)
    requires s1.optIn == s.optIn && SameStatics(s, s1) && s1.operations == s.operations
    ensures Keeps(dev, s, Launch(dev, s1, fun).0)
  {
    hide Launch, Admitted;
    LaunchKeepsTables(dev, s1, fun);
    if AllAdmitted(dev, s1) {
      LaunchAdmits(dev, s1, fun);
    }
  }

  lemma CallKeeps(dev: Device, s: State, c: Call)
    requires Legal(s, c)
    ensures Keeps(dev, s, Do(dev, s, c).0)
  {
    hide Launch, SetupArguments, Arguments, WithPolicy, ClusterAttribute, OptInsFit, Admitted, FuncSetAttribute,
         CuFuncSetAttribute;
    match c
    case LaunchCall(fun) =>
      KeepsLaunch(dev, s, s, fun);
    case KernelCall(fun, grid, block, values, sharedMem, stream) =>
      if Known(s, fun) {
        var s1 := if s.stack == [] then Configure(s, grid, block, sharedMem, stream) else s;
        var args := Arguments(FunctionOf(s, fun).params, Present(values));
        SetupTables(s1, args);
        KeepsLaunch(dev, s, SetupArguments(s1, args), fun);
      }
    case ExCall(config, entry, options) =>
      if config.Some? && entry.Some? && Known(s, entry.value) {
        var f := FunctionOf(s, entry.value);
        var s1 := ExFrame(s, config.value, KernelName(s, entry.value));
        PolicyKeepsStatic(f, config.value.attributes);
        SetupTables(s1, Arguments(f.params, options));
        KeepsLaunch(dev, s, SetupArguments(s1, Arguments(f.params, options)), entry.value);
      }
    case AttributeCall(_, _, _) => AttributeKeeps(dev, s, c);
    case DriverAttributeCall(_, _, _) => AttributeKeeps(dev, s, c);
    case _ => SameKeeps(dev, s, Do(dev, s, c).0);
  }

  lemma SameKeeps(dev: Device, s: State, t: State)
    requires t.optIn == s.optIn && t.functions == s.functions && t.operations == s.operations
    ensures Keeps(dev, s, t)
  {
  }

  lemma AttributeKeeps(dev: Device, s: State, c: Call)
    requires (c.AttributeCall? || c.DriverAttributeCall?) && Legal(s, c)
    ensures Keeps(dev, s, Do(dev, s, c).0)
  {
    hide FuncSetAttribute, CuFuncSetAttribute, OptInsFit, Admitted;
    AttributeOperations(dev, s, c);
    if OptInsFit(dev, s) {
      if c.AttributeCall? {
        AttributeTables(dev, s, c);
      } else {
        DriverAttributeTables(dev, s, c);
      }
    }
  }

  lemma AttributeOperations(dev: Device, s: State, c: Call)
    requires (c.AttributeCall? || c.DriverAttributeCall?) && Legal(s, c)
    ensures Do(dev, s, c).0.operations == s.operations
  {
    hide SetCluster;
  }

  /** Every run keeps the static sizes and the fit of all recorded opt-ins. */
  lemma {:induction false} OptInsOverRuns(dev: Device, s: State, calls: seq<Call>)
    requires OptInsFit(dev, s) && Run(dev, s, calls).Some?
    ensures SameStatics(s, Run(dev, s, calls).value) && OptInsFit(dev, Run(dev, s, calls).value)
    decreases |calls|
  {
    if calls != [] {
      hide Do, Legal;
      CallKeeps(dev, s, calls[0]);
      OptInsOverRuns(dev, Do(dev, s, calls[0]).0, calls[1..]);
    }
  }

  /**
   After any run: an opted-in kernel passes the shared-memory check exactly when the dynamic size is within the
   recorded one; any other kernel exactly when static and dynamic size together fit the per-block limit.
   */
  lemma SharedMemoryRule(dev: Device, s: State, calls: seq<Call>, name: Name, dynamic: uint64)
    requires OptInsFit(dev, s) && Run(dev, s, calls).Some?
    requires name in Run(dev, s, calls).value.functions
    ensures var t := Run(dev, s, calls).value;
            var f := t.functions[name];
            && (name in t.optIn ==>
                  (SharedMemoryFits(dev, t.optIn, name, f.staticSmem, dynamic) <==> dynamic <= t.optIn[name]))
            && (name !in t.optIn ==>
                  (SharedMemoryFits(dev, t.optIn, name, f.staticSmem, dynamic)
                   <==> f.staticSmem + dynamic <= dev.sharedPerBlock))
  {
    hide Run, SameStatics;
    OptInsOverRuns(dev, s, calls);
    var t := Run(dev, s, calls).value;
    NoWrap(t.functions[name].staticSmem, dynamic);
  }

  /** The 64-bit sum wraps only for sizes the limit on the dynamic part refuses anyway. */
  lemma NoWrap(staticSmem: uint32, dynamic: uint64)
    ensures staticSmem + dynamic < LONG ==> (staticSmem + dynamic) % LONG == staticSmem + dynamic
  {
  }

  lemma {:induction false} AdmittedOverRuns(dev: Device, s: State, calls: seq<Call>)
    requires AllAdmitted(dev, s) && Run(dev, s, calls).Some?
    ensures AllAdmitted(dev, Run(dev, s, calls).value)
    decreases |calls|
  {
    if calls != [] {
      hide Do, Legal, AllAdmitted;
      CallKeeps(dev, s, calls[0]);
      AdmittedOverRuns(dev, Do(dev, s, calls[0]).0, calls[1..]);
    }
  }

  // ----- a cluster tiles its grid -----

  /** The position of a CTA, of a cluster, or of a CTA within its cluster. */
  datatype Coord = Coord(x: nat, y: nat, z: nat)

  predicate Within(p: Coord, d: Coord) {
    p.x < d.x && p.y < d.y && p.z < d.z
  }

  function Extent(d: Dim3): Coord {
    Coord(d.x, d.y, d.z)
  }

  function ClusterCount(g: Dim3, c: Dim3): Coord
    requires Divides(c, g)
  {
    Coord(g.x / c.x, g.y / c.y, g.z / c.z)
  }

  /** CTA `r` of cluster `q`. */
  function CtaAt(q: Coord, r: Coord, c: Dim3): Coord {
    Coord(q.x * c.x + r.x, q.y * c.y + r.y, q.z * c.z + r.z)
  }

  /** The cluster a CTA is in, and its place there. */
  function ClusterOfCta(p: Coord, c: Dim3): Coord
    requires c.x != 0 && c.y != 0 && c.z != 0
  {
    Coord(p.x / c.x, p.y / c.y, p.z / c.z)
  }

  function PlaceInCluster(p: Coord, c: Dim3): Coord
    requires c.x != 0 && c.y != 0 && c.z != 0
  {
    Coord(p.x % c.x, p.y % c.y, p.z % c.z)
  }

  lemma Quotient(p: nat, c: nat, g: nat)
    requires c != 0 && g % c == 0 && p < g
    ensures p / c < g / c && (p / c) * c + p % c == p && p % c < c
  {
    MulLess(p / c, g / c, c);
  }

  lemma CtaFits(q: nat, r: nat, c: nat, g: nat)
    requires c != 0 && g % c == 0 && q < g / c && r < c
    ensures q * c + r < g
  {
    MulMono(q + 1, g / c, c);
    assert (q + 1) * c == q * c + c;
  }

  /** Every CTA of the grid is at one place of one cluster. */
  lemma EveryCtaHasItsCluster(g: Dim3, c: Dim3, p: Coord)
    requires Divides(c, g) && Within(p, Extent(g))
    ensures Within(ClusterOfCta(p, c), ClusterCount(g, c)) && Within(PlaceInCluster(p, c), Extent(c))
    ensures CtaAt(ClusterOfCta(p, c), PlaceInCluster(p, c), c) == p
  {
    Quotient(p.x, c.x, g.x);
    Quotient(p.y, c.y, g.y);
    Quotient(p.z, c.z, g.z);
  }

  /** Every place of every cluster is a CTA of the grid, which is in no other cluster and at no other place. */
  lemma EveryPlaceIsOneCta(g: Dim3, c: Dim3, q: Coord, r: Coord)
    requires Divides(c, g) && Within(q, ClusterCount(g, c)) && Within(r, Extent(c))
    ensures Within(CtaAt(q, r, c), Extent(g))
    ensures ClusterOfCta(CtaAt(q, r, c), c) == q && PlaceInCluster(CtaAt(q, r, c), c) == r
  {
    CtaFits(q.x, r.x, c.x, g.x);
    CtaFits(q.y, r.y, c.y, g.y);
    CtaFits(q.z, r.z, c.z, g.z);
    QuotientUnique(q.x, r.x, c.x);
    QuotientUnique(q.y, r.y, c.y);
    QuotientUnique(q.z, r.z, c.z);
  }

  function Product(d: Coord): nat {
    d.x * d.y * d.z
  }

  lemma Interchange(a: nat, b: nat, e: nat, x: nat, y: nat, z: nat)
    ensures (a * x) * (b * y) * (e * z) == (a * b * e) * (x * y * z)
  {
    assert (a * x) * (b * y) == (a * b) * (x * y);
    assert ((a * b) * (x * y)) * (e * z) == ((a * b) * e) * ((x * y) * z);
  }

  /** The grid's CTAs are the clusters times the CTAs of one cluster. */
  lemma ClusterTotals(g: Dim3, c: Dim3)
    requires Divides(c, g)
    ensures Volume(g) == Product(ClusterCount(g, c)) * Volume(c)
  {
    var n := ClusterCount(g, c);
    assert g.x == n.x * c.x && g.y == n.y * c.y && g.z == n.z * c.z;
    Interchange(n.x, n.y, n.z, c.x, c.y, c.z);
  }

  /**
   Any cluster operation that is in the stream manager after a run tiles its grid with clusters of equal size,
   and the size is within the capacity exactly when the 32-bit product of the dimensions does not wrap.
   */
  lemma ClusterOperationsTile(dev: Device, s: State, calls: seq<Call>, k: nat)
    requires AllAdmitted(dev, s) && Run(dev, s, calls).Some?
    requires k < |Run(dev, s, calls).value.operations|
    requires Run(dev, s, calls).value.operations[k].cluster.Some?
    ensures var op := Run(dev, s, calls).value.operations[k];
            var c := op.cluster.value;
            && Divides(c, op.grid)
            && Volume(op.grid) == Product(ClusterCount(op.grid, c)) * Volume(c)
            && (Volume(c) <= ClusterCores(dev) <==> Volume(c) < WORD)
  {
    hide Run, Volume32, Volume;
    AdmittedOverRuns(dev, s, calls);
    var op := Run(dev, s, calls).value.operations[k];
    ClusterTotals(op.grid, op.cluster.value);
    assert Admitted(dev, op);
    WrapOnly(op.cluster.value);
  }

  lemma WrapOnly(c: Dim3)
    ensures Volume(c) < WORD ==> Volume32(c) == Volume(c)
  {
  }

  /** The runtime before any call, with one kernel that takes no parameters and no shared memory. */
  function FreshState(): State {
    var f := Function(0, [], false, Dim3(0, 0, 0), false, false, 0);
    State([], map[0 := Some("k")], map["k" := f], map[], map[], [], 1)
  }

  /** 3 * 0xAAAA_AAAB is 2 * 2^32 + 1. */
  const WRAPPING := Dim3(3, 0xAAAA_AAAB, 1)

  /** A launch of one cluster of that size. */
  function WrappingCall(): Call {
    ExCall(Some(LaunchConfig(WRAPPING, Dim3(1, 1, 1), 0, 0, [ClusterDimension(WRAPPING)])), Some(0), [])
  }

  lemma WrappingVolume()
    ensures Volume(WRAPPING) == 2 * WORD + 1 && Volume32(WRAPPING) == 1
  {
  }

  lemma WrappingFits(dev: Device)
    ensures ClusterFits(dev, WRAPPING, WRAPPING)
  {
    hide Volume32;
    WrappingVolume();
  }

  lemma WrappingLaunch(dev: Device, s: State)
    requires !Skipped(dev, 1)
    requires s.(stack := []) == FreshState()
    requires s.stack == [KernelConfig(WRAPPING, Dim3(1, 1, 1), 0, 0, [], Some(WRAPPING))]
    ensures Launch(dev, s, 0).1 == Returned(Success)
    ensures |Launch(dev, s, 0).0.operations| == 1 && Launch(dev, s, 0).0.operations[0].cluster == Some(WRAPPING)
  {
    hide Volume32, ClusterFits, Skipped, BindParams;
    WrappingVolume();
    UnitVolume();
    WrappingFits(dev);
    assert Rejection(dev, s, s.stack[0], "k", s.functions["k"]) == None;
  }

  lemma UnitVolume()
    ensures Volume32(Dim3(1, 1, 1)) == 1
  {
  }

  lemma WrappingFrame(f: Function)
    requires f == FreshState().functions["k"]
    ensures var s1 := ExFrame(FreshState(), LaunchConfig(WRAPPING, Dim3(1, 1, 1), 0, 0, [ClusterDimension(WRAPPING)]), "k");
            && s1.(stack := []) == FreshState()
            && s1.stack == [KernelConfig(WRAPPING, Dim3(1, 1, 1), 0, 0, [], Some(WRAPPING))]
            && SetupArguments(s1, Arguments(f.params, [])) == s1
  {
    var attributes := [ClusterDimension(WRAPPING)];
    assert attributes[..0] == [];
    assert WithPolicy(f, attributes) == f;
    assert FreshState().functions["k" := f] == FreshState().functions;
  }

  /**
   The capacity check can be passed by a cluster above the capacity of every device: from the fresh runtime, one
   launch of a cluster whose size wraps to 1 succeeds and reaches the stream manager.
   */
  lemma CapacityCheckWraps(dev: Device)
    requires !Skipped(dev, 1)
    ensures Legal(FreshState(), WrappingCall())
    ensures var (t, status) := Do(dev, FreshState(), WrappingCall());
            && status == Returned(Success)
            && |t.operations| == 1 && t.operations[0].cluster == Some(WRAPPING)
            && Volume(WRAPPING) > ClusterCores(dev)
  {
    hide Launch, Volume, Volume32, Skipped, ExFrame, SetupArguments;
    var s := FreshState();
    WrappingFrame(s.functions["k"]);
    var s1 := ExFrame(s, LaunchConfig(WRAPPING, Dim3(1, 1, 1), 0, 0, [ClusterDimension(WRAPPING)]), "k");
    WrappingLaunch(dev, s1);
    WrappingVolume();
  }
}
