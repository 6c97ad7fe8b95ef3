/** How each call of the runtime ends and what it changes, in sizes and tables. */
module CudaOutcomes {
  import opened Wrappers
  import opened Dimensions
  import opened CudaLaunch
  import opened CudaLaunchLaws
  import opened CudaAdmission

  // ----- a launch -----

  /** The number of CTAs or threads as 32-bit arithmetic counts it. */
  function Count32(d: Dim3): nat {
    (d.x * d.y * d.z) % 0x1_0000_0000
  }

  /** The dynamic size is within what was recorded and what the device allows, or within the default limit. */
  predicate SharedWithin(dev: Device, s: State, name: Name, staticSmem: nat, dynamic: nat) {
    if name in s.optIn then dynamic <= s.optIn[name] && staticSmem + dynamic <= dev.sharedPerBlockOptin
    else staticSmem + dynamic <= dev.sharedPerBlock
  }

  /** The cluster fits the grid and the device. */
  predicate ClusterWithin(dev: Device, c: Dim3, g: Dim3) {
    && c.x != 0 && c.y != 0 && c.z != 0
    && g.x % c.x == 0 && g.y % c.y == 0 && g.z % c.z == 0
    && (Count32(c) <= dev.coresPerCluster || Count32(c) <= 1)
  }

  /** The clusters of a launch: the frame's own, else the function's if it has explicit ones. */
  function ClusterFor(config: KernelConfig, f: Function): Option<Dim3> {
    match config.cluster
    case Some(c) => Some(c)
    case None => if f.explicitCluster then Some(f.reqCluster) else None
  }

  predicate ClusterAllowed(dev: Device, config: KernelConfig, f: Function) {
    match ClusterFor(config, f)
    case Some(c) => ClusterWithin(dev, c, config.grid)
    case None => !f.clusterMustBeSet
  }

  lemma SharedMeans(dev: Device, s: State, name: Name, staticSmem: uint32, dynamic: uint64)
    ensures SharedMemoryFits(dev, s.optIn, name, staticSmem, dynamic) <==> SharedWithin(dev, s, name, staticSmem, dynamic)
  {
    NoWrap(staticSmem, dynamic);
  }

  lemma ClusterMeans(dev: Device, config: KernelConfig, f: Function)
    ensures ClusterAllowed(dev, config, f) <==>
            var c := ClusterOf(config, f);
            !(f.clusterMustBeSet && c.None?) && (c.Some? ==> ClusterFits(dev, c.value, config.grid))
  {
  }

  /**
   How a launch of a known function ends: with an invalid configuration when the grid or the block is empty or the
   shared memory is too much, else with an invalid cluster size when the clusters are missing or do not fit, else with
   success. It always takes the top frame, and adds an operation only when it succeeds and the kernel is not skipped.
   */
  lemma LaunchOutcome(dev: Device, s: State, fun: HostFunction)
    requires s.stack != [] && Known(s, fun)
    ensures var config := s.stack[|s.stack| - 1];
            var name := s.kernels[fun].value;
            var f := s.functions[name];
            var (t, status) := Launch(dev, s, fun);
            && status
               == Returned(
                    if Count32(config.grid) == 0 || Count32(config.block) == 0 then InvalidConfiguration
                    else if !SharedWithin(dev, s, name, f.staticSmem, config.sharedMem) then InvalidConfiguration
                    else if !ClusterAllowed(dev, config, f) then InvalidClusterSize
                    else Success)
            && t.stack == s.stack[..|s.stack| - 1]
            && t.functions == s.functions && t.kernels == s.kernels && t.optIn == s.optIn && t.carveout == s.carveout
            && t.nextUid == (if status == Returned(Success) then s.nextUid + 1 else s.nextUid)
            && t.operations
               == if status == Returned(Success) && !LeftOut(dev, s.nextUid)
                  then s.operations + [Operation(name, s.nextUid, config.grid, config.block, BindParams(config.args),
                                                 ClusterFor(config, f), config.sharedMem % 0x1_0000_0000, config.stream)]
                  else s.operations
  {
    hide SharedMemoryFits, SharedWithin, ClusterFits, ClusterAllowed, BindParams;
    var config, f := Top(s), FunctionOf(s, fun);
    SharedMeans(dev, s, KernelName(s, fun), f.staticSmem, config.sharedMem);
    ClusterMeans(dev, config, f);
  }

  /** Resuming after an earlier kernel, or past the checkpoint. */
  predicate LeftOut(dev: Device, uid: nat) {
    match (dev.resumeKernel, dev.checkpointKernel)
    case (Some(first), Some(last)) => uid < first || last < uid
    case (Some(first), None) => uid < first
    case (None, Some(last)) => last < uid
    case (None, None) => false
  }

  // ----- shared memory over runs -----

  /** The operation's shared memory is within the device's limit, the higher one only after an opt-in. */
  ghost predicate SharedAdmitted(dev: Device, s: State, op: Operation) {
    && op.kernel in s.functions
    && var total := s.functions[op.kernel].staticSmem + op.dynamicSmem;
       total <= dev.sharedPerBlock || (op.kernel in s.optIn && total <= dev.sharedPerBlockOptin)
  }

  ghost predicate AllShared(dev: Device, s: State) {
    forall k | 0 <= k < |s.operations| :: SharedAdmitted(dev, s, s.operations[k])
  }

  /** Kernels stay known with their static sizes, and opt-ins stay recorded. */
  ghost predicate Extends(s: State, t: State) {
    && SameStatics(s, t)
    && (forall name | name in s.optIn :: name in t.optIn)
  }

  lemma SharedStays(dev: Device, s: State, t: State)
    requires AllShared(dev, s) && Extends(s, t) && t.operations == s.operations
    ensures AllShared(dev, t)
  {
    forall k | 0 <= k < |t.operations| ensures SharedAdmitted(dev, t, t.operations[k]) {
      assert SharedAdmitted(dev, s, s.operations[k]);
    }
  }

  lemma LaunchShares(dev: Device, s: State, fun: HostFunction)
    requires AllShared(dev, s)
    ensures AllShared(dev, Launch(dev, s, fun).0)
  {
    hide BindParams, ClusterAllowed, SharedAdmitted;
    var t := Launch(dev, s, fun).0;
    if s.stack != [] && Known(s, fun) {
      hide Launch;
      LaunchOutcome(dev, s, fun);
      Unskipped(dev, s, fun, t);
    } else {
      LaunchRefused(dev, s, fun);
    }
  }

  lemma LaunchRefused(dev: Device, s: State, fun: HostFunction)
    requires s.stack == [] || !Known(s, fun)
    ensures var t := Launch(dev, s, fun).0; t.operations == s.operations && Extends(s, t)
    ensures AllShared(dev, s) ==> AllShared(dev, Launch(dev, s, fun).0)
  {
    NothingShared(dev, s, Launch(dev, s, fun).0);
  }

  lemma NothingShared(dev: Device, s: State, t: State)
    requires t.operations == s.operations && t.functions == s.functions && t.optIn == s.optIn
    ensures AllShared(dev, s) ==> AllShared(dev, t)
  {
  }

  lemma Unskipped(dev: Device, s: State, fun: HostFunction, t: State)
    requires s.stack != [] && Known(s, fun) && AllShared(dev, s)
    requires t.functions == s.functions && t.optIn == s.optIn
    requires t.operations == s.operations ||
             var config, name := s.stack[|s.stack| - 1], s.kernels[fun].value;
             && SharedWithin(dev, s, name, s.functions[name].staticSmem, config.sharedMem)
             && |t.operations| == |s.operations| + 1 && t.operations[..|s.operations|] == s.operations
             && t.operations[|s.operations|].kernel == name
             && t.operations[|s.operations|].dynamicSmem == config.sharedMem % 0x1_0000_0000
    ensures AllShared(dev, t)
  {
    forall k | 0 <= k < |t.operations| ensures SharedAdmitted(dev, t, t.operations[k]) {
      if k < |s.operations| {
        assert t.operations[k] == s.operations[k];
        assert SharedAdmitted(dev, s, s.operations[k]);
      }
    }
  }

  lemma CallShares(dev: Device, s: State, c: Call)
    requires Legal(s, c) && OptInsFit(dev, s) && AllShared(dev, s)
    ensures AllShared(dev, Do(dev, s, c).0)
  {
    hide Launch, SetupArguments, Arguments, WithPolicy, ClusterAttribute, OptInsFit, SharedAdmitted, AllShared,
         FuncSetAttribute, CuFuncSetAttribute;
    match c
    case LaunchCall(fun) =>
      LaunchShares(dev, s, fun);
    case KernelCall(fun, grid, block, values, sharedMem, stream) =>
      if Known(s, fun) {
        var s1 := if s.stack == [] then Configure(s, grid, block, sharedMem, stream) else s;
        var args := Arguments(FunctionOf(s, fun).params, Present(values));
        SetupTables(s1, args);
        SharedStays(dev, s, SetupArguments(s1, args));
        LaunchShares(dev, SetupArguments(s1, args), fun);
      }
    case ExCall(config, entry, options) =>
      if config.Some? && entry.Some? && Known(s, entry.value) {
        var f := FunctionOf(s, entry.value);
        var s1 := ExFrame(s, config.value, KernelName(s, entry.value));
        PolicyKeepsStatic(f, config.value.attributes);
        SetupTables(s1, Arguments(f.params, options));
        SharedStays(dev, s, SetupArguments(s1, Arguments(f.params, options)));
        LaunchShares(dev, SetupArguments(s1, Arguments(f.params, options)), entry.value);
      }
    case AttributeCall(_, _, _) => AttributeShares(dev, s, c);
    case DriverAttributeCall(_, _, _) => AttributeShares(dev, s, c);
    case _ => NothingShared(dev, s, Do(dev, s, c).0);
  }

  lemma AttributeShares(dev: Device, s: State, c: Call)
    requires (c.AttributeCall? || c.DriverAttributeCall?) && Legal(s, c) && OptInsFit(dev, s) && AllShared(dev, s)
    ensures AllShared(dev, Do(dev, s, c).0)
  {
    hide FuncSetAttribute, CuFuncSetAttribute, AllShared;
    AttributeOperations(dev, s, c);
    AttributeOptIns(dev, s, c);
    if c.AttributeCall? {
      AttributeTables(dev, s, c);
    } else {
      DriverAttributeTables(dev, s, c);
    }
    SharedStays(dev, s, Do(dev, s, c).0);
  }

  lemma AttributeOptIns(dev: Device, s: State, c: Call)
    requires (c.AttributeCall? || c.DriverAttributeCall?) && Legal(s, c)
    ensures forall name | name in s.optIn :: name in Do(dev, s, c).0.optIn
  {
    hide SetCluster, OptInFits;
  }

  /** Over every run, the shared memory of all operations in the stream manager is within the limits. */
  lemma {:induction false} SharedOverRuns(dev: Device, s: State, calls: seq<Call>)
    requires OptInsFit(dev, s) && AllShared(dev, s) && Run(dev, s, calls).Some?
    ensures AllShared(dev, Run(dev, s, calls).value)
    decreases |calls|
  {
    if calls != [] {
      hide Do, Legal, OptInsFit, AllShared;
      CallKeeps(dev, s, calls[0]);
      CallShares(dev, s, calls[0]);
      SharedOverRuns(dev, Do(dev, s, calls[0]).0, calls[1..]);
    }
  }

  // ----- reading a configuration -----

  /** A configuration that was pushed can be read back. */
  lemma ConfigurationReadBack(s: State, grid: Dim3, block: Dim3, sharedMem: uint64, stream: Pointer)
    ensures PopCallConfiguration(Configure(s, grid, block, sharedMem, stream))
         == (Some(KernelConfig(grid, block, sharedMem, stream, [], None)), Returned(Success))
    ensures s.stack == [] ==> PopCallConfiguration(s) == (None, Aborted)
  {
  }

  // ----- an extended launch -----

  ghost predicate LastDimension(attributes: seq<Attribute>, k: nat) {
    && k < |attributes| && attributes[k].ClusterDimension?
    && forall j | k < j < |attributes| :: !attributes[j].ClusterDimension?
  }

  lemma {:induction false} DimensionMeans(attributes: seq<Attribute>)
    ensures ClusterAttribute(attributes).None? <==> forall k | 0 <= k < |attributes| :: !attributes[k].ClusterDimension?
    ensures forall k: nat | LastDimension(attributes, k) :: ClusterAttribute(attributes) == Some(attributes[k].dim)
  {
    if attributes != [] {
      var n := |attributes| - 1;
      var init := attributes[..n];
      DimensionMeans(init);
      assert forall j | 0 <= j < n :: init[j] == attributes[j];
      forall k: nat | LastDimension(attributes, k) && k < n ensures LastDimension(init, k) {
      }
      forall k | 0 <= k < |attributes| && ClusterAttribute(attributes).None? ensures !attributes[k].ClusterDimension? {
        if k < n { assert init[k] == attributes[k]; }
      }
    }
  }

  ghost predicate LastScheduling(attributes: seq<Attribute>, k: nat) {
    && k < |attributes| && attributes[k].ClusterScheduling?
    && forall j | k < j < |attributes| :: !attributes[j].ClusterScheduling?
  }

  lemma {:induction false} NoScheduling(f: Function, attributes: seq<Attribute>)
    requires forall k | 0 <= k < |attributes| :: !attributes[k].ClusterScheduling?
    ensures WithPolicy(f, attributes) == f
  {
    if attributes != [] {
      NoScheduling(f, attributes[..|attributes| - 1]);
    }
  }

  lemma {:induction false} SchedulingMeans(f: Function, attributes: seq<Attribute>, k: nat)
    requires LastScheduling(attributes, k)
    ensures WithPolicy(f, attributes) == f.(schedulingPolicy := attributes[k].policy)
  {
    var n := |attributes| - 1;
    if k < n {
      assert !attributes[n].ClusterScheduling?;
      SchedulingMeans(f, attributes[..n], k);
    }
  }

  /**
   An extended launch: what is wrong with the call itself, else a launch on a new frame with the configuration's
   geometry, whose clusters are the attribute's, else the function's.
   */
  lemma ExOutcome(dev: Device, s: State, config: Option<LaunchConfig>, entry: Option<HostFunction>,
                  values: seq<Option<Pointer>>)
    requires Legal(s, ExCall(config, entry, values))
    ensures var (t, status) := LaunchEx(dev, s, config, entry, values);
            && (config.None? || entry.None? ==> t == s && status == Returned(InvalidValue))
            && (config.Some? && entry.Some? && entry.value !in s.kernels ==> t == s && status == Aborted)
            && (config.Some? && entry.Some? && entry.value in s.kernels && !Known(s, entry.value) ==>
                  t == s && status == Returned(InvalidDeviceFunction))
            && (config.Some? && entry.Some? && Known(s, entry.value) ==>
                  var c, f, s1 := config.value, FunctionOf(s, entry.value),
                                  ExFrame(s, config.value, KernelName(s, entry.value));
                  && (t, status) == Launch(dev, SetupArguments(s1, Arguments(f.params, values)), entry.value)
                  && s1.stack[..|s1.stack| - 1] == s.stack
                  && s1.stack[|s1.stack| - 1]
                     == KernelConfig(c.grid, c.block, c.sharedMem, c.stream, [],
                          match ClusterAttribute(c.attributes)
                          case Some(d) => Some(d)
                          case None => if f.explicitCluster then Some(f.reqCluster) else None)
                  && s1.functions == s.functions[KernelName(s, entry.value) := WithPolicy(f, c.attributes)]
                  && s1.kernels == s.kernels && s1.optIn == s.optIn && s1.operations == s.operations)
  {
    hide Launch, SetupArguments, Arguments, WithPolicy, ClusterAttribute;
  }

  // ----- function attributes -----

  /** What an attribute call leaves: the tables of the function. */
  ghost predicate OnlyTables(s: State, t: State) {
    t.stack == s.stack && t.kernels == s.kernels && t.operations == s.operations && t.nextUid == s.nextUid
  }

  /** A request for dynamic shared memory is recorded exactly when it is not negative and fits beside the static size. */
  lemma OptInOutcome(dev: Device, s: State, fun: HostFunction, value: int)
    requires -0x8000_0000 <= value < 0x8000_0000 && Known(s, fun)
    ensures var name := s.kernels[fun].value;
            var fits := value >= 0 && s.functions[name].staticSmem + value <= dev.sharedPerBlockOptin;
            && FuncSetAttribute(dev, s, fun, MaxDynamicSharedMemorySize, value)
               == (if fits then (s.(optIn := s.optIn[name := value]), Returned(Success)) else (s, Returned(InvalidValue)))
            && CuFuncSetAttribute(dev, s, fun, MaxDynamicSharedMemorySize, value)
               == FuncSetAttribute(dev, s, fun, MaxDynamicSharedMemorySize, value)
  {
  }

  /** A carveout is recorded exactly when it is the default or a percentage. */
  lemma CarveoutOutcome(dev: Device, s: State, fun: HostFunction, value: int)
    requires -0x8000_0000 <= value < 0x8000_0000 && Known(s, fun)
    ensures var name := s.kernels[fun].value;
            && FuncSetAttribute(dev, s, fun, PreferredSharedMemoryCarveout, value)
               == (if value == -1 || 0 <= value <= 100
                   then (s.(carveout := s.carveout[name := value]), Returned(Success))
                   else (s, Returned(InvalidValue)))
            && CuFuncSetAttribute(dev, s, fun, PreferredSharedMemoryCarveout, value)
               == FuncSetAttribute(dev, s, fun, PreferredSharedMemoryCarveout, value)
  {
  }

  /** Calls for functions that are not known, and attributes the driver interface ignores. */
  lemma UnknownOutcome(dev: Device, s: State, fun: HostFunction, attr: FunctionAttribute, value: int)
    requires -0x8000_0000 <= value < 0x8000_0000
    ensures fun !in s.kernels ==>
              FuncSetAttribute(dev, s, fun, attr, value) == (s, Aborted) == CuFuncSetAttribute(dev, s, fun, attr, value)
    ensures fun in s.kernels && !Known(s, fun) ==>
              && FuncSetAttribute(dev, s, fun, attr, value)
                 == (s, Returned(if attr == MaxDynamicSharedMemorySize || attr == PreferredSharedMemoryCarveout
                                 then InvalidDeviceFunction else Success))
              && CuFuncSetAttribute(dev, s, fun, attr, value) == (s, Returned(InvalidHandle))
    ensures Known(s, fun) && attr != MaxDynamicSharedMemorySize && attr != PreferredSharedMemoryCarveout ==>
              CuFuncSetAttribute(dev, s, fun, attr, value) == (s, Returned(Success))
  {
  }

  /** The function after the runtime call with this attribute. */
  function FunctionAfter(dev: Device, s: State, fun: HostFunction, attr: FunctionAttribute, value: int): Function
    requires -0x8000_0000 <= value < 0x8000_0000 && Known(s, fun)
  {
    var t := FuncSetAttribute(dev, s, fun, attr, value).0;
    if s.kernels[fun].value in t.functions then t.functions[s.kernels[fun].value] else FunctionOf(s, fun)
  }

  /** Each cluster attribute sets one dimension and makes the others at least 1; the other attributes set what they name. */
  lemma SetClusterMeans(f: Function, value: int)
    requires -0x8000_0000 <= value < 0x8000_0000
    ensures var d := f.reqCluster;
            var size := if value < 0 then value + 0x1_0000_0000 else value;
            var y, z := if d.y == 0 then 1 else d.y, if d.z == 0 then 1 else d.z;
            var x := if d.x == 0 then 1 else d.x;
            && SetCluster(f, RequiredClusterWidth, value) == f.(explicitCluster := true, reqCluster := Dim3(size, y, z))
            && SetCluster(f, RequiredClusterHeight, value) == f.(explicitCluster := true, reqCluster := Dim3(x, size, z))
            && SetCluster(f, RequiredClusterDepth, value) == f.(explicitCluster := true, reqCluster := Dim3(x, y, size))
            && SetCluster(f, ClusterDimMustBeSet, value) == f.(clusterMustBeSet := value != 0)
            && SetCluster(f, NonPortableClusterSizeAllowed, value) == f.(nonPortableCluster := value != 0)
            && SetCluster(f, ClusterSchedulingPolicyPreference, value) == f.(schedulingPolicy := value)
            && SetCluster(f, OtherFunctionAttribute, value) == f
  {
  }

  /** A call with another attribute than those two changes the function as `SetCluster` says. */
  lemma ClusterAttributeOutcome(dev: Device, s: State, fun: HostFunction, attr: FunctionAttribute, value: int)
    requires -0x8000_0000 <= value < 0x8000_0000 && Known(s, fun)
    requires attr != MaxDynamicSharedMemorySize && attr != PreferredSharedMemoryCarveout
    ensures FunctionAfter(dev, s, fun, attr, value) == SetCluster(FunctionOf(s, fun), attr, value)
  {
    hide SetCluster;
  }

  /** Other functions and tables are not touched by these attributes. */
  lemma ClusterAttributeOnly(dev: Device, s: State, fun: HostFunction, attr: FunctionAttribute, value: int)
    requires -0x8000_0000 <= value < 0x8000_0000 && Known(s, fun)
    requires attr != MaxDynamicSharedMemorySize && attr != PreferredSharedMemoryCarveout
    ensures var (t, status) := FuncSetAttribute(dev, s, fun, attr, value);
            && status == Returned(Success) && OnlyTables(s, t) && t.optIn == s.optIn && t.carveout == s.carveout
            && t.functions.Keys == s.functions.Keys
            && forall name | name in s.functions && name != s.kernels[fun].value :: t.functions[name] == s.functions[name]
  {
    hide SetCluster;
  }

  /** Setting width, height and depth, in this order or the reverse, gives clusters of those dimensions. */
  lemma ClusterDimensionsSet(dev: Device, s: State, fun: HostFunction, w: int, h: int, d: int)
    requires 0 < w < 0x8000_0000 && 0 < h < 0x8000_0000 && 0 < d < 0x8000_0000 && Known(s, fun)
    ensures var forward := [AttributeCall(fun, RequiredClusterWidth, w), AttributeCall(fun, RequiredClusterHeight, h),
                            AttributeCall(fun, RequiredClusterDepth, d)];
            var backward := [forward[2], forward[1], forward[0]];
            && Run(dev, s, forward).Some? && Run(dev, s, backward).Some?
            && DimensionsAre(Run(dev, s, forward).value, fun, Dim3(w, h, d))
            && DimensionsAre(Run(dev, s, backward).value, fun, Dim3(w, h, d))
  {
    hide SetCluster, Run, Do;
    var a, b, c := AttributeCall(fun, RequiredClusterWidth, w), AttributeCall(fun, RequiredClusterHeight, h),
                   AttributeCall(fun, RequiredClusterDepth, d);
    ThreeCalls(dev, s, a, b, c);
    ThreeCalls(dev, s, c, b, a);
    ThreeSizes(FunctionOf(s, fun), w, h, d);
  }

  lemma ThreeSizes(f: Function, w: int, h: int, d: int)
    requires 0 < w < 0x8000_0000 && 0 < h < 0x8000_0000 && 0 < d < 0x8000_0000
    ensures var forward := SetCluster(SetCluster(SetCluster(f, RequiredClusterWidth, w), RequiredClusterHeight, h),
                                      RequiredClusterDepth, d);
            forward.explicitCluster && forward.reqCluster == Dim3(w, h, d)
    ensures var backward := SetCluster(SetCluster(SetCluster(f, RequiredClusterDepth, d), RequiredClusterHeight, h),
                                       RequiredClusterWidth, w);
            backward.explicitCluster && backward.reqCluster == Dim3(w, h, d)
  {
    hide SetCluster;
    var f1 := SetCluster(f, RequiredClusterWidth, w);
    var f2 := SetCluster(f1, RequiredClusterHeight, h);
    var b1 := SetCluster(f, RequiredClusterDepth, d);
    var b2 := SetCluster(b1, RequiredClusterHeight, h);
    SetClusterMeans(f, w);
    SetClusterMeans(f1, h);
    SetClusterMeans(f2, d);
    SetClusterMeans(f, d);
    SetClusterMeans(b1, h);
    SetClusterMeans(b2, w);
  }

  ghost predicate DimensionsAre(t: State, fun: HostFunction, d: Dim3) {
    Known(t, fun) && FunctionOf(t, fun).explicitCluster && FunctionOf(t, fun).reqCluster == d
  }

  lemma ThreeCalls(dev: Device, s: State, a: Call, b: Call, c: Call)
    requires a.AttributeCall? && b.AttributeCall? && c.AttributeCall? && Legal(s, a) && Legal(s, b) && Legal(s, c)
    requires a.fun == b.fun == c.fun && Known(s, a.fun)
    requires !a.attr.MaxDynamicSharedMemorySize? && !a.attr.PreferredSharedMemoryCarveout?
    requires !b.attr.MaxDynamicSharedMemorySize? && !b.attr.PreferredSharedMemoryCarveout?
    requires !c.attr.MaxDynamicSharedMemorySize? && !c.attr.PreferredSharedMemoryCarveout?
    ensures Run(dev, s, [a, b, c]).Some?
    ensures var t := Run(dev, s, [a, b, c]).value;
            && Known(t, a.fun)
            && FunctionOf(t, a.fun)
               == SetCluster(SetCluster(SetCluster(FunctionOf(s, a.fun), a.attr, a.value), b.attr, b.value), c.attr, c.value)
  {
    hide SetCluster;
    var s1 := Do(dev, s, a).0;
    var s2 := Do(dev, s1, b).0;
    var s3 := Do(dev, s2, c).0;
    assert [a, b, c][1..] == [b, c] && [b, c][1..] == [c] && [c][1..] == [];
    assert Run(dev, s3, []) == Some(s3);
    assert Run(dev, s2, [c]) == Some(s3);
    assert Run(dev, s1, [b, c]) == Some(s3);
  }
}
