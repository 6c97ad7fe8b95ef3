/** The runtime object: its fields change call by call as the transition functions of CudaLaunch say. */
module CudaRuntime {
  import opened Wrappers
  import opened Dimensions
  import opened CudaLaunch

  class Runtime {
    const device: Device
    var launchStack: seq<KernelConfig>
    var kernelLookup: map<HostFunction, Option<Name>>
    var functions: map<Name, Function>
    var maxDynamicSmem: map<Name, uint32>
    var preferredCarveout: map<Name, int>
    var streamOperations: seq<Operation>
    var nextUid: nat

    function Contents(): State
      reads this
    {
      State(launchStack, kernelLookup, functions, maxDynamicSmem, preferredCarveout, streamOperations, nextUid)
    }

    constructor (device: Device, kernels: map<HostFunction, Option<Name>>, functions: map<Name, Function>)
      ensures this.device == device
      ensures Contents() == State([], kernels, functions, map[], map[], [], 1)
    {
      this.device := device;
      launchStack, kernelLookup, this.functions := [], kernels, functions;
      maxDynamicSmem, preferredCarveout := map[], map[];
      streamOperations, nextUid := [], 1;
    }

    method ConfigureCall(grid: Dim3, block: Dim3, sharedMem: uint64, stream: Pointer)
      modifies this`launchStack
      ensures Contents() == Configure(old(Contents()), grid, block, sharedMem, stream)
    {
      launchStack := launchStack + [KernelConfig(grid, block, sharedMem, stream, [], None)];
    }

    method SetupArgument(arg: Pointer, size: nat, offset: nat) returns (status: Status)
      modifies this`launchStack
      ensures (Contents(), status) == CudaLaunch.SetupArgument(old(Contents()), Argument(arg, size, offset))
    {
      if launchStack == [] {
        return Aborted;
      }
      var top := |launchStack| - 1;
      var config := launchStack[top];
      launchStack := launchStack[..top] + [config.(args := [Argument(arg, size, offset)] + config.args)];
      status := Returned(Success);
    }

    /** The parameters of a grid: the list runs from the argument set last to the one set first. */
    method BindGridParams(args: seq<Argument>) returns (params: seq<Argument>)
      ensures params == BindParams(args)
    {
      params := args;
      var argn := 1;
      while argn <= |args|
        invariant 1 <= argn <= |args| + 1 && |params| == |args|
        invariant forall i | |args| - argn < i < |args| :: params[i] == args[|args| - 1 - i]
      {
        params := params[|args| - argn := args[argn - 1]];
        argn := argn + 1;
      }
    }

    method PopFrame()
      requires launchStack != []
      modifies this`launchStack
      ensures Contents() == Pop(old(Contents()))
    {
      launchStack := launchStack[..|launchStack| - 1];
    }

    /** The checks on the cluster dimensions of a launch. */
    method ClusterCheck(c: Dim3, g: Dim3) returns (fits: bool)
      ensures fits == ClusterFits(device, c, g)
    {
      if c.x == 0 || c.y == 0 || c.z == 0 {
        return false;
      }
      if g.x % c.x != 0 || g.y % c.y != 0 || g.z % c.z != 0 {
        return false;
      }
      var cores := device.coresPerCluster;
      if cores == 0 {
        cores := 1;
      }
      fits := Volume32(c) <= cores;
    }

    /** The launch's own cluster dimensions, else those the function requires. */
    method LaunchCluster(config: KernelConfig, entry: Function) returns (cluster: Option<Dim3>)
      ensures cluster == ClusterOf(config, entry)
    {
      cluster := config.cluster;
      if cluster.None? && entry.explicitCluster {
        cluster := Some(entry.reqCluster);
      }
    }

    /** The checks of shared memory and cluster dimensions before a launch. */
    method LaunchChecks(config: KernelConfig, name: Name) returns (rejection: Option<Error>)
      requires name in functions
      ensures rejection == Rejection(device, Contents(), config, name, functions[name])
    {
      var entry := functions[name];
      if !SharedMemoryFits(device, maxDynamicSmem, name, entry.staticSmem, config.sharedMem) {
        return Some(InvalidConfiguration);
      }
      var cluster := LaunchCluster(config, entry);
      if entry.clusterMustBeSet && cluster.None? {
        return Some(InvalidClusterSize);
      }
      if cluster.Some? {
        var fits := ClusterCheck(cluster.value, config.grid);
        if !fits {
          return Some(InvalidClusterSize);
        }
      }
      rejection := None;
    }

    method Launch(fun: HostFunction) returns (status: Status)
      modifies this
      ensures (Contents(), status) == CudaLaunch.Launch(device, old(Contents()), fun)
    {
      hide Rejection, Volume32, ClusterOf, BindParams;
      if launchStack == [] {
        return Aborted;
      }
      var config := launchStack[|launchStack| - 1];
      if Volume32(config.grid) == 0 || Volume32(config.block) == 0 {
        PopFrame();
        return Returned(InvalidConfiguration);
      }
      if fun !in kernelLookup || kernelLookup[fun].None? || kernelLookup[fun].value !in functions {
        return Aborted;
      }
      var name := kernelLookup[fun].value;
      var entry := functions[name];
      var rejection := LaunchChecks(config, name);
      if rejection.Some? {
        PopFrame();
        return Returned(rejection.value);
      }
      var cluster := LaunchCluster(config, entry);
      var params := BindGridParams(config.args);
      var uid := nextUid;
      nextUid := nextUid + 1;
      var op := Operation(name, uid, config.grid, config.block, params, cluster, config.sharedMem % WORD, config.stream);
      if device.resumeKernel.Some? && uid < device.resumeKernel.value {
        PopFrame();
        return Returned(Success);
      }
      if device.checkpointKernel.Some? && uid > device.checkpointKernel.value {
        PopFrame();
        return Returned(Success);
      }
      streamOperations := streamOperations + [op];
      PopFrame();
      status := Returned(Success);
    }

    /** The loop that sets the present arguments of a kernel on the top frame. */
    method PushArguments(params: seq<(nat, nat)>, values: seq<Option<Pointer>>)
      requires launchStack != [] && |params| <= |values|
      modifies this`launchStack
      ensures Contents() == SetupArguments(old(Contents()), Arguments(params, values))
    {
      ghost var config := launchStack[|launchStack| - 1];
      ghost var below := launchStack[..|launchStack| - 1];
      assert params[0..] == params && values[0..] == values;
      for i := 0 to |params|
        invariant launchStack != [] && launchStack[..|launchStack| - 1] == below
        invariant SetArgs(config, Arguments(params, values))
               == SetArgs(launchStack[|launchStack| - 1], Arguments(params[i..], values[i..]))
      {
        ArgumentsStep(params[i..], values[i..]);
        assert params[i..][1..] == params[i + 1..] && values[i..][1..] == values[i + 1..];
        if values[i].Some? {
          var status := SetupArgument(values[i].value, params[i].0, params[i].1);
        }
      }
    }

    method LaunchKernel(fun: HostFunction, grid: Dim3, block: Dim3, values: seq<Pointer>, sharedMem: uint64, stream: Pointer)
      returns (status: Status)
      requires Known(Contents(), fun) ==> |FunctionOf(Contents(), fun).params| <= |values|
      modifies this
      ensures (Contents(), status)
           == CudaLaunch.LaunchKernel(device, old(Contents()), fun, grid, block, values, sharedMem, stream)
    {
      if fun !in kernelLookup || kernelLookup[fun].None? || kernelLookup[fun].value !in functions {
        return Aborted;
      }
      if launchStack == [] {
        ConfigureCall(grid, block, sharedMem, stream);
      }
      PushArguments(functions[kernelLookup[fun].value].params, Present(values));
      status := Launch(fun);
    }

    /** The loop over the launch attributes: the last of each kind counts. */
    method ParseAttributes(name: Name, attributes: seq<Attribute>) returns (cluster: Option<Dim3>)
      requires name in functions
      modifies this`functions
      ensures cluster == ClusterAttribute(attributes)
      ensures functions == old(functions)[name := WithPolicy(old(functions)[name], attributes)]
    {
      cluster := None;
      assert functions[name := functions[name]] == functions;
      for i := 0 to |attributes|
        invariant cluster == ClusterAttribute(attributes[..i])
        invariant functions == old(functions)[name := WithPolicy(old(functions)[name], attributes[..i])]
      {
        assert attributes[..i + 1][..i] == attributes[..i];
        PolicyTwice(old(functions)[name], attributes[..i + 1]);
        match attributes[i]
        case ClusterDimension(dim) => cluster := Some(dim);
        case ClusterScheduling(policy) =>
          functions := functions[name := functions[name].(schedulingPolicy := policy)];
        case OtherAttribute =>
      }
      assert attributes[..|attributes|] == attributes;
    }

    method LaunchKernelExC(config: Option<LaunchConfig>, fun: Option<HostFunction>, values: seq<Option<Pointer>>)
      returns (status: Status)
      requires fun.Some? && Known(Contents(), fun.value) ==> |FunctionOf(Contents(), fun.value).params| <= |values|
      modifies this
      ensures (Contents(), status) == CudaLaunch.LaunchEx(device, old(Contents()), config, fun, values)
    {
      if config.None? || fun.None? {
        return Returned(InvalidValue);
      }
      if fun.value !in kernelLookup {
        return Aborted;
      }
      if kernelLookup[fun.value].None? || kernelLookup[fun.value].value !in functions {
        return Returned(InvalidDeviceFunction);
      }
      var name, c := kernelLookup[fun.value].value, config.value;
      PolicyOnly(functions[name], c.attributes);
      var cluster := ParseAttributes(name, c.attributes);
      if cluster.None? && functions[name].explicitCluster {
        cluster := Some(functions[name].reqCluster);
      }
      launchStack := launchStack + [KernelConfig(c.grid, c.block, c.sharedMem, c.stream, [], cluster)];
      PushArguments(functions[name].params, values);
      status := Launch(fun.value);
    }

    method PopCallConfiguration() returns (config: Option<KernelConfig>, status: Status)
      ensures (config, status) == CudaLaunch.PopCallConfiguration(Contents())
    {
      if launchStack == [] {
        return None, Aborted;
      }
      return Some(launchStack[|launchStack| - 1]), Returned(Success);
    }

    method FuncSetAttribute(fun: HostFunction, attr: FunctionAttribute, value: int) returns (status: Status)
      requires -0x8000_0000 <= value < 0x8000_0000
      modifies this
      ensures (Contents(), status) == CudaLaunch.FuncSetAttribute(device, old(Contents()), fun, attr, value)
    {
      if fun !in kernelLookup {
        return Aborted;
      }
      var known := kernelLookup[fun].Some? && kernelLookup[fun].value in functions;
      if attr.MaxDynamicSharedMemorySize? {
        if !known {
          return Returned(InvalidDeviceFunction);
        }
        var name := kernelLookup[fun].value;
        if value < 0 {
          return Returned(InvalidValue);
        }
        if functions[name].staticSmem + value > device.sharedPerBlockOptin {
          return Returned(InvalidValue);
        }
        maxDynamicSmem := maxDynamicSmem[name := value];
        return Returned(Success);
      }
      if attr.PreferredSharedMemoryCarveout? {
        if !known {
          return Returned(InvalidDeviceFunction);
        }
        if value != -1 && (value < 0 || value > 100) {
          return Returned(InvalidValue);
        }
        preferredCarveout := preferredCarveout[kernelLookup[fun].value := value];
        return Returned(Success);
      }
      if !known {
        return Returned(Success);
      }
      var name := kernelLookup[fun].value;
      functions := functions[name := SetCluster(functions[name], attr, value)];
      status := Returned(Success);
    }

    method CuFuncSetAttribute(fun: HostFunction, attr: FunctionAttribute, value: int) returns (status: Status)
      requires -0x8000_0000 <= value < 0x8000_0000
      modifies this`maxDynamicSmem, this`preferredCarveout
      ensures (Contents(), status) == CudaLaunch.CuFuncSetAttribute(device, old(Contents()), fun, attr, value)
    {
      if fun !in kernelLookup {
        return Aborted;
      }
      if kernelLookup[fun].None? || kernelLookup[fun].value !in functions {
        return Returned(InvalidHandle);
      }
      var name := kernelLookup[fun].value;
      if attr.MaxDynamicSharedMemorySize? {
        if value < 0 || functions[name].staticSmem + value > device.sharedPerBlockOptin {
          return Returned(InvalidValue);
        }
        maxDynamicSmem := maxDynamicSmem[name := value];
        return Returned(Success);
      }
      if attr.PreferredSharedMemoryCarveout? {
        if value != -1 && (value < 0 || value > 100) {
          return Returned(InvalidValue);
        }
        preferredCarveout := preferredCarveout[name := value];
        return Returned(Success);
      }
      status := Returned(Success);
    }
  }

  lemma ArgumentsStep(params: seq<(nat, nat)>, values: seq<Option<Pointer>>)
    requires 0 < |params| <= |values|
    ensures forall config: KernelConfig ::
              SetArgs(config, Arguments(params, values))
              == SetArgs(if values[0].Some? then SetArg(config, Argument(values[0].value, params[0].0, params[0].1)) else config,
                         Arguments(params[1..], values[1..]))
  {
    forall config: KernelConfig
      ensures SetArgs(config, Arguments(params, values))
           == SetArgs(if values[0].Some? then SetArg(config, Argument(values[0].value, params[0].0, params[0].1)) else config,
                      Arguments(params[1..], values[1..]))
    {
      var later := Arguments(params[1..], values[1..]);
      if values[0].Some? {
        var a := Argument(values[0].value, params[0].0, params[0].1);
        assert Arguments(params, values)[1..] == later;
      } else {
        assert Arguments(params, values) == later;
      }
    }
  }

  /** Setting policies one after the other leaves the last one, and changes nothing else. */
  lemma PolicyTwice(f: Function, attributes: seq<Attribute>)
    requires attributes != []
    ensures var last, before := attributes[|attributes| - 1], WithPolicy(f, attributes[..|attributes| - 1]);
            WithPolicy(f, attributes)
            == if last.ClusterScheduling? then before.(schedulingPolicy := last.policy) else before
  {
    PolicyOnly(f, attributes[..|attributes| - 1]);
  }

  lemma {:induction false} PolicyOnly(f: Function, attributes: seq<Attribute>)
    ensures WithPolicy(f, attributes).(schedulingPolicy := f.schedulingPolicy) == f
  {
    if attributes != [] {
      PolicyOnly(f, attributes[..|attributes| - 1]);
    }
  }
}
