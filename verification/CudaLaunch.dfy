/** Kernel launches of the CUDA runtime: the state, what each call does to it, and the admission rules. */
module CudaLaunch {
  import opened Wrappers
  import opened Dimensions

  type Pointer = nat
  type HostFunction = nat
  type Name = string

  datatype Argument = Argument(value: Pointer, size: nat, offset: nat)

  /** A frame of the launch stack. Arguments are pushed at the front. */
  datatype KernelConfig = KernelConfig(
    grid: Dim3, block: Dim3, sharedMem: uint64, stream: Pointer, args: seq<Argument>, cluster: Option<Dim3>)

  /** What the runtime reads of a device function. */
  datatype Function = Function(
    staticSmem: uint32, params: seq<(nat, nat)>,
    explicitCluster: bool, reqCluster: Dim3, clusterMustBeSet: bool,
    nonPortableCluster: bool, schedulingPolicy: int)

  /** The fixed facts of the device and the checkpoint options. */
  datatype Device = Device(
    sharedPerBlock: uint32, sharedPerBlockOptin: uint32, coresPerCluster: uint32,
    resumeKernel: Option<nat>, checkpointKernel: Option<nat>)

  /** An operation handed to the stream manager. */
  datatype Operation = Operation(
    kernel: Name, uid: nat, grid: Dim3, block: Dim3, params: seq<Argument>,
    cluster: Option<Dim3>, dynamicSmem: uint32, stream: Pointer)

  datatype Error = Success | InvalidConfiguration | InvalidClusterSize | InvalidValue | InvalidDeviceFunction | InvalidHandle

  /** A call returns an error code, or the process aborts. */
  datatype Status = Returned(error: Error) | Aborted

  datatype State = State(
    stack: seq<KernelConfig>,
    kernels: map<HostFunction, Option<Name>>, functions: map<Name, Function>,
    optIn: map<Name, uint32>, carveout: map<Name, int>,
    operations: seq<Operation>, nextUid: nat)

  /** The host function is registered with a device function. */
  predicate Known(s: State, fun: HostFunction) {
    fun in s.kernels && s.kernels[fun].Some? && s.kernels[fun].value in s.functions
  }

  function KernelName(s: State, fun: HostFunction): Name
    requires Known(s, fun)
  {
    s.kernels[fun].value
  }

  function FunctionOf(s: State, fun: HostFunction): Function
    requires Known(s, fun)
  {
    s.functions[KernelName(s, fun)]
  }

  // ----- admission -----

  /** The product as 32-bit unsigned arithmetic computes it. */
  function Volume32(d: Dim3): uint32 {
    (d.x * d.y * d.z) % WORD
  }

  function Volume(d: Dim3): nat {
    d.x * d.y * d.z
  }

  predicate SharedMemoryFits(dev: Device, optIn: map<Name, uint32>, name: Name, staticSmem: uint32, dynamic: uint64) {
    var total := (staticSmem + dynamic) % LONG;
    if name in optIn then
      dynamic <= optIn[name] && total <= dev.sharedPerBlockOptin
    else
      var limit := dev.sharedPerBlock;
      dynamic <= (if staticSmem < limit then limit - staticSmem else 0) && total <= limit
  }

  /** The cluster dimensions of a launch: its attribute, else the function's requirement. */
  function ClusterOf(config: KernelConfig, f: Function): Option<Dim3> {
    if config.cluster.Some? then config.cluster
    else if f.explicitCluster then Some(f.reqCluster)
    else None
  }

  function ClusterCores(dev: Device): nat {
    if dev.coresPerCluster == 0 then 1 else dev.coresPerCluster
  }

  predicate Divides(c: Dim3, g: Dim3) {
    c.x != 0 && c.y != 0 && c.z != 0 && g.x % c.x == 0 && g.y % c.y == 0 && g.z % c.z == 0
  }

  predicate ClusterFits(dev: Device, c: Dim3, g: Dim3) {
    Divides(c, g) && Volume32(c) <= ClusterCores(dev)
  }

  /** Why a launch with this frame is turned away, if it is. */
  function Rejection(dev: Device, s: State, config: KernelConfig, name: Name, f: Function): Option<Error> {
    var cluster := ClusterOf(config, f);
    if !SharedMemoryFits(dev, s.optIn, name, f.staticSmem, config.sharedMem) then Some(InvalidConfiguration)
    else if f.clusterMustBeSet && cluster.None? then Some(InvalidClusterSize)
    else if cluster.Some? && !ClusterFits(dev, cluster.value, config.grid) then Some(InvalidClusterSize)
    else None
  }

  /** The parameters a kernel gets from an argument list whose front holds the argument set last. */
  function BindParams(args: seq<Argument>): seq<Argument> {
    seq(|args|, i requires 0 <= i < |args| => args[|args| - 1 - i])
  }

  /** A kernel before the resume point or after the checkpoint is not run. */
  predicate Skipped(dev: Device, uid: nat) {
    (dev.resumeKernel.Some? && uid < dev.resumeKernel.value)
    || (dev.checkpointKernel.Some? && uid > dev.checkpointKernel.value)
  }

  // ----- the calls -----

  function Configure(s: State, grid: Dim3, block: Dim3, sharedMem: uint64, stream: Pointer): State {
    s.(stack := s.stack + [KernelConfig(grid, block, sharedMem, stream, [], None)])
  }

  function Top(s: State): KernelConfig
    requires s.stack != []
  {
    s.stack[|s.stack| - 1]
  }

  function Pop(s: State): State
    requires s.stack != []
  {
    s.(stack := s.stack[..|s.stack| - 1])
  }

  function SetArg(config: KernelConfig, a: Argument): KernelConfig {
    config.(args := [a] + config.args)
  }

  function SetupArgument(s: State, a: Argument): (State, Status) {
    if s.stack == [] then (s, Aborted)
    else (s.(stack := s.stack[..|s.stack| - 1] + [SetArg(Top(s), a)]), Returned(Success))
  }

  function Launch(dev: Device, s: State, fun: HostFunction): (State, Status) {
    if s.stack == [] then (s, Aborted)
    else
      var config := Top(s);
      if Volume32(config.grid) == 0 || Volume32(config.block) == 0 then (Pop(s), Returned(InvalidConfiguration))
      else if !Known(s, fun) then (s, Aborted)
      else
        var name, f := KernelName(s, fun), FunctionOf(s, fun);
        match Rejection(dev, s, config, name, f)
        case Some(error) => (Pop(s), Returned(error))
        case None =>
          var op := Operation(name, s.nextUid, config.grid, config.block, BindParams(config.args),
                              ClusterOf(config, f), config.sharedMem % WORD, config.stream);
          (Pop(s).(nextUid := s.nextUid + 1,
                   operations := if Skipped(dev, s.nextUid) then s.operations else s.operations + [op]),
           Returned(Success))
  }

  /** The arguments of a launch call, with the sizes and offsets of the kernel's parameters; absent ones are skipped. */
  function Arguments(params: seq<(nat, nat)>, values: seq<Option<Pointer>>): seq<Argument>
    requires |params| <= |values|
  {
    if params == [] then []
    else
      (if values[0].Some? then [Argument(values[0].value, params[0].0, params[0].1)] else [])
      + Arguments(params[1..], values[1..])
  }

  function SetArgs(config: KernelConfig, args: seq<Argument>): KernelConfig
    decreases |args|
  {
    if args == [] then config else SetArgs(SetArg(config, args[0]), args[1..])
  }

  /** The top frame with all these arguments set in order. */
  function SetupArguments(s: State, args: seq<Argument>): State
    requires s.stack != []
  {
    s.(stack := s.stack[..|s.stack| - 1] + [SetArgs(Top(s), args)])
  }

  function Present(values: seq<Pointer>): (r: seq<Option<Pointer>>)
    ensures |r| == |values| && forall i | 0 <= i < |values| :: r[i] == Some(values[i])
  {
    seq(|values|, i requires 0 <= i < |values| => Some(values[i]))
  }

  /** `cudaLaunchKernel`: it takes a frame pushed before, or pushes one if there is none. */
  function LaunchKernel(dev: Device, s: State, fun: HostFunction, grid: Dim3, block: Dim3, values: seq<Pointer>,
                        sharedMem: uint64, stream: Pointer): (State, Status)
    requires Known(s, fun) ==> |FunctionOf(s, fun).params| <= |values|
  {
    if !Known(s, fun) then (s, Aborted)
    else
      var s1 := if s.stack == [] then Configure(s, grid, block, sharedMem, stream) else s;
      Launch(dev, SetupArguments(s1, Arguments(FunctionOf(s, fun).params, Present(values))), fun)
  }

  datatype Attribute = ClusterDimension(dim: Dim3) | ClusterScheduling(policy: int) | OtherAttribute

  datatype LaunchConfig = LaunchConfig(
    grid: Dim3, block: Dim3, sharedMem: uint64, stream: Pointer, attributes: seq<Attribute>)

  /** The last cluster dimension attribute. */
  function ClusterAttribute(attributes: seq<Attribute>): Option<Dim3> {
    if attributes == [] then None
    else
      var last := attributes[|attributes| - 1];
      if last.ClusterDimension? then Some(last.dim) else ClusterAttribute(attributes[..|attributes| - 1])
  }

  function WithPolicy(f: Function, attributes: seq<Attribute>): Function {
    if attributes == [] then f
    else
      var last := attributes[|attributes| - 1];
      if last.ClusterScheduling? then f.(schedulingPolicy := last.policy)
      else WithPolicy(f, attributes[..|attributes| - 1])
  }

  /** An extended launch before its arguments are set: the policy stored, and the frame with its cluster pushed. */
  function ExFrame(s: State, c: LaunchConfig, name: Name): (t: State)
    requires name in s.functions
    ensures t.stack != []
  {
    var f := s.functions[name];
    var cluster := ClusterAttribute(c.attributes);
    var frame := KernelConfig(c.grid, c.block, c.sharedMem, c.stream, [],
                              if cluster.Some? then cluster
                              else if f.explicitCluster then Some(f.reqCluster) else None);
    s.(functions := s.functions[name := WithPolicy(f, c.attributes)], stack := s.stack + [frame])
  }

  /** `cudaLaunchKernelExC`. */
  function LaunchEx(dev: Device, s: State, config: Option<LaunchConfig>, fun: Option<HostFunction>,
                    values: seq<Option<Pointer>>): (State, Status)
    requires fun.Some? && Known(s, fun.value) ==> |FunctionOf(s, fun.value).params| <= |values|
  {
    if config.None? || fun.None? then (s, Returned(InvalidValue))
    else if fun.value !in s.kernels then (s, Aborted)
    else if !Known(s, fun.value) then (s, Returned(InvalidDeviceFunction))
    else
      var s1 := ExFrame(s, config.value, KernelName(s, fun.value));
      Launch(dev, SetupArguments(s1, Arguments(FunctionOf(s, fun.value).params, values)), fun.value)
  }

  /** `__cudaPopCallConfiguration`: the top frame is read, and stays. */
  function PopCallConfiguration(s: State): (Option<KernelConfig>, Status) {
    if s.stack == [] then (None, Aborted) else (Some(Top(s)), Returned(Success))
  }

  datatype FunctionAttribute =
    | MaxDynamicSharedMemorySize | PreferredSharedMemoryCarveout
    | RequiredClusterWidth | RequiredClusterHeight | RequiredClusterDepth
    | ClusterDimMustBeSet | NonPortableClusterSizeAllowed | ClusterSchedulingPolicyPreference
    | OtherFunctionAttribute

  /** A C `int` read as unsigned. */
  function Unsigned(v: int): uint32 {
    v % WORD
  }

  function AtLeastOne(n: uint32): uint32 {
    if n == 0 then 1 else n
  }

  function SetCluster(f: Function, attr: FunctionAttribute, value: int): Function {
    var d := f.reqCluster;
    match attr
    case RequiredClusterWidth =>
      f.(explicitCluster := true, reqCluster := Dim3(Unsigned(value), AtLeastOne(d.y), AtLeastOne(d.z)))
    case RequiredClusterHeight =>
      f.(explicitCluster := true, reqCluster := Dim3(AtLeastOne(d.x), Unsigned(value), AtLeastOne(d.z)))
    case RequiredClusterDepth =>
      f.(explicitCluster := true, reqCluster := Dim3(AtLeastOne(d.x), AtLeastOne(d.y), Unsigned(value)))
    case ClusterDimMustBeSet => f.(clusterMustBeSet := value != 0)
    case NonPortableClusterSizeAllowed => f.(nonPortableCluster := value != 0)
    case ClusterSchedulingPolicyPreference => f.(schedulingPolicy := value)
    case _ => f
  }

  predicate OptInFits(dev: Device, f: Function, requested: nat) {
    f.staticSmem + requested <= dev.sharedPerBlockOptin
  }

  /** The request for more dynamic shared memory, in either interface. */
  function SetMaxDynamic(dev: Device, s: State, name: Name, value: int): (State, Status)
    requires name in s.functions && -0x8000_0000 <= value < 0x8000_0000
  {
    if value < 0 || !OptInFits(dev, s.functions[name], value) then (s, Returned(InvalidValue))
    else (s.(optIn := s.optIn[name := value]), Returned(Success))
  }

  /** The default carveout is -1. */
  function SetCarveout(s: State, name: Name, value: int): (State, Status) {
    if value != -1 && (value < 0 || value > 100) then (s, Returned(InvalidValue))
    else (s.(carveout := s.carveout[name := value]), Returned(Success))
  }

  /** `cudaFuncSetAttribute`. */
  function FuncSetAttribute(dev: Device, s: State, fun: HostFunction, attr: FunctionAttribute, value: int): (State, Status)
    requires -0x8000_0000 <= value < 0x8000_0000
  {
    if fun !in s.kernels then (s, Aborted)
    else if !Known(s, fun) then
      (s, Returned(if attr.MaxDynamicSharedMemorySize? || attr.PreferredSharedMemoryCarveout?
                   then InvalidDeviceFunction else Success))
    else
      var name := KernelName(s, fun);
      match attr
      case MaxDynamicSharedMemorySize => SetMaxDynamic(dev, s, name, value)
      case PreferredSharedMemoryCarveout => SetCarveout(s, name, value)
      case _ =>
        (s.(functions := s.functions[name := SetCluster(s.functions[name], attr, value)]), Returned(Success))
  }

  /** `cuFuncSetAttribute`: other attributes are ignored. */
  function CuFuncSetAttribute(dev: Device, s: State, fun: HostFunction, attr: FunctionAttribute, value: int): (State, Status)
    requires -0x8000_0000 <= value < 0x8000_0000
  {
    if fun !in s.kernels then (s, Aborted)
    else if !Known(s, fun) then (s, Returned(InvalidHandle))
    else
      var name := KernelName(s, fun);
      match attr
      case MaxDynamicSharedMemorySize => SetMaxDynamic(dev, s, name, value)
      case PreferredSharedMemoryCarveout => SetCarveout(s, name, value)
      case _ => (s, Returned(Success))
  }
}
