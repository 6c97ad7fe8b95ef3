/** What holds over whole runs of launch calls. */
module CudaLaunchLaws {
  import opened Wrappers
  import opened Dimensions
  import opened CudaLaunch

  datatype Call =
    | ConfigureCall(grid: Dim3, block: Dim3, sharedMem: uint64, stream: Pointer)
    | SetupCall(arg: Argument)
    | LaunchCall(fun: HostFunction)
    | KernelCall(fun: HostFunction, grid: Dim3, block: Dim3, values: seq<Pointer>, sharedMem: uint64, stream: Pointer)
    | ExCall(config: Option<LaunchConfig>, entry: Option<HostFunction>, options: seq<Option<Pointer>>)
    | PopCall
    | AttributeCall(fun: HostFunction, attr: FunctionAttribute, value: int)
    | DriverAttributeCall(fun: HostFunction, attr: FunctionAttribute, value: int)

  /** The caller passes an `int` where one is due, and an array with a place for each parameter. */
  predicate Legal(s: State, c: Call) {
    match c
    case KernelCall(fun, _, _, values, _, _) => Known(s, fun) ==> |FunctionOf(s, fun).params| <= |values|
    case ExCall(_, entry, options) =>
      entry.Some? && Known(s, entry.value) ==> |FunctionOf(s, entry.value).params| <= |options|
    case AttributeCall(_, _, value) => -0x8000_0000 <= value < 0x8000_0000
    case DriverAttributeCall(_, _, value) => -0x8000_0000 <= value < 0x8000_0000
    case _ => true
  }

  function Do(dev: Device, s: State, c: Call): (State, Status)
    requires Legal(s, c)
  {
    match c
    case ConfigureCall(grid, block, sharedMem, stream) =>
      (Configure(s, grid, block, sharedMem, stream), Returned(Success))
    case SetupCall(arg) => SetupArgument(s, arg)
    case LaunchCall(fun) => Launch(dev, s, fun)
    case KernelCall(fun, grid, block, values, sharedMem, stream) =>
      LaunchKernel(dev, s, fun, grid, block, values, sharedMem, stream)
    case ExCall(config, entry, options) => LaunchEx(dev, s, config, entry, options)
    case PopCall => (s, PopCallConfiguration(s).1)
    case AttributeCall(fun, attr, value) => FuncSetAttribute(dev, s, fun, attr, value)
    case DriverAttributeCall(fun, attr, value) => CuFuncSetAttribute(dev, s, fun, attr, value)
  }

  /** The state after the calls, if all are legal and none aborts. */
  function Run(dev: Device, s: State, calls: seq<Call>): Option<State>
    decreases |calls|
  {
    if calls == [] then Some(s)
    else if !Legal(s, calls[0]) then None
    else
      var (t, status) := Do(dev, s, calls[0]);
      if status.Aborted? then None else Run(dev, t, calls[1..])
  }

  lemma {:induction false} RunConcat(dev: Device, s: State, a: seq<Call>, b: seq<Call>)
    ensures Run(dev, s, a + b)
         == if Run(dev, s, a).None? then None else Run(dev, Run(dev, s, a).value, b)
    decreases |a|
  {
    if a == [] {
      assert a + b == b;
    } else {
      assert (a + b)[1..] == a[1..] + b;
      if Legal(s, a[0]) {
        RunConcat(dev, Do(dev, s, a[0]).0, a[1..], b);
      }
    }
  }

  // ----- the launch stack -----

  function Below(s: State): seq<KernelConfig> {
    if s.stack == [] then [] else s.stack[..|s.stack| - 1]
  }

  lemma {:induction false} SetArgsFrame(config: KernelConfig, args: seq<Argument>)
    ensures SetArgs(config, args) == config.(args := SetArgs(config, args).args)
    decreases |args|
  {
    if args != [] {
      SetArgsFrame(SetArg(config, args[0]), args[1..]);
    }
  }

  lemma LaunchStack(dev: Device, s: State, fun: HostFunction)
    requires Launch(dev, s, fun).1.Returned?
    ensures s.stack != [] && Launch(dev, s, fun).0.stack == Below(s)
  {
    hide Rejection, Volume32, BindParams, ClusterOf, Skipped;
  }

  lemma SetupBelow(s: State, args: seq<Argument>)
    requires s.stack != []
    ensures SetupArguments(s, args).stack != [] && Below(SetupArguments(s, args)) == Below(s)
  {
    hide SetArgs;
  }

  /**
   What each call that returns does to the stack: a launch takes exactly the top frame on every return path,
   `LaunchEx` leaves the stack as it was, and reading a configuration removes nothing.
   */
  lemma StackEffect(dev: Device, s: State, c: Call)
    requires Legal(s, c) && Do(dev, s, c).1.Returned?
    ensures var t := Do(dev, s, c).0;
            match c
            case ConfigureCall(grid, block, sharedMem, stream) =>
              t.stack == s.stack + [KernelConfig(grid, block, sharedMem, stream, [], None)]
            case SetupCall(_) => |t.stack| == |s.stack| > 0 && Below(t) == Below(s)
            case LaunchCall(_) => s.stack != [] && t.stack == Below(s)
            case KernelCall(_, _, _, _, _, _) => t.stack == Below(s)
            case _ => t.stack == s.stack
  {
    hide Launch, SetupArguments, Arguments, WithPolicy, ClusterAttribute, SetCluster, OptInFits;
    match c
    case LaunchCall(fun) =>
      LaunchStack(dev, s, fun);
    case KernelCall(fun, grid, block, values, sharedMem, stream) =>
      var s1 := if s.stack == [] then Configure(s, grid, block, sharedMem, stream) else s;
      var args := Arguments(FunctionOf(s, fun).params, Present(values));
      SetupBelow(s1, args);
      LaunchStack(dev, SetupArguments(s1, args), fun);
    case ExCall(config, entry, options) =>
      if config.Some? && entry.Some? && Known(s, entry.value) {
        var s1 := ExFrame(s, config.value, KernelName(s, entry.value));
        var args := Arguments(FunctionOf(s, entry.value).params, options);
        SetupBelow(s1, args);
        LaunchStack(dev, SetupArguments(s1, args), entry.value);
        assert Below(s1) == s.stack;
      }
    case _ =>
  }

  function Pushes(s: State, c: Call): nat {
    match c
    case ConfigureCall(_, _, _, _) => 1
    case KernelCall(_, _, _, _, _, _) => if s.stack == [] then 1 else 0
    case ExCall(config, entry, _) => if config.Some? && entry.Some? && Known(s, entry.value) then 1 else 0
    case _ => 0
  }

  /** Whether the call ends in a launch that consumes a frame. */
  function Launches(s: State, c: Call): nat {
    match c
    case LaunchCall(_) => 1
    case KernelCall(_, _, _, _, _, _) => 1
    case ExCall(config, entry, _) => if config.Some? && entry.Some? && Known(s, entry.value) then 1 else 0
    case _ => 0
  }

  function TotalPushes(dev: Device, s: State, calls: seq<Call>): nat
    decreases |calls|
  {
    if calls == [] || !Legal(s, calls[0]) then 0
    else Pushes(s, calls[0]) + TotalPushes(dev, Do(dev, s, calls[0]).0, calls[1..])
  }

  function TotalLaunches(dev: Device, s: State, calls: seq<Call>): nat
    decreases |calls|
  {
    if calls == [] || !Legal(s, calls[0]) then 0
    else Launches(s, calls[0]) + TotalLaunches(dev, Do(dev, s, calls[0]).0, calls[1..])
  }

  /** Depth is pushes minus launches, over every run that does not abort. */
  lemma {:induction false} DepthOverRuns(dev: Device, s: State, calls: seq<Call>)
    requires Run(dev, s, calls).Some?
    ensures |Run(dev, s, calls).value.stack| + TotalLaunches(dev, s, calls)
         == |s.stack| + TotalPushes(dev, s, calls)
    decreases |calls|
  {
    if calls != [] {
      hide Do;
      StackEffect(dev, s, calls[0]);
      DepthOverRuns(dev, Do(dev, s, calls[0]).0, calls[1..]);
    }
  }

  // ----- launches nested between the arguments of another -----

  /** A frame, what happens while it is on the stack, and its launch. */
  datatype Script = Script(grid: Dim3, block: Dim3, sharedMem: uint64, stream: Pointer, items: Items, fun: HostFunction)

  datatype Items =
    | Done
    | Arg(arg: Argument, rest: Items)
    | Nested(script: Script, rest: Items)
    | Other(call: Call, rest: Items)

  /** Calls that leave the stack alone. */
  predicate Neutral(c: Call) {
    c.ExCall? || c.PopCall? || c.AttributeCall? || c.DriverAttributeCall?
  }

  predicate WellNested(items: Items) {
    match items
    case Done => true
    case Arg(_, rest) => WellNested(rest)
    case Nested(script, rest) => WellNested(script.items) && WellNested(rest)
    case Other(call, rest) => Neutral(call) && WellNested(rest)
  }

  function ItemCalls(items: Items): seq<Call> {
    match items
    case Done => []
    case Arg(arg, rest) => [SetupCall(arg)] + ItemCalls(rest)
    case Nested(script, rest) => ScriptCalls(script) + ItemCalls(rest)
    case Other(call, rest) => [call] + ItemCalls(rest)
  }

  function Opening(script: Script): Call {
    ConfigureCall(script.grid, script.block, script.sharedMem, script.stream)
  }

  function OpeningFrame(script: Script): KernelConfig {
    KernelConfig(script.grid, script.block, script.sharedMem, script.stream, [], None)
  }

  function ScriptCalls(script: Script): seq<Call> {
    [Opening(script)] + ItemCalls(script.items) + [LaunchCall(script.fun)]
  }

  /** The arguments set for the frame itself, in order. */
  function OwnArgs(items: Items): seq<Argument> {
    match items
    case Done => []
    case Arg(arg, rest) => [arg] + OwnArgs(rest)
    case Nested(_, rest) => OwnArgs(rest)
    case Other(_, rest) => OwnArgs(rest)
  }

  lemma RunOne(dev: Device, s: State, c: Call, calls: seq<Call>)
    requires Run(dev, s, [c] + calls).Some?
    ensures Legal(s, c) && Do(dev, s, c).1.Returned?
    ensures Run(dev, s, [c] + calls) == Run(dev, Do(dev, s, c).0, calls)
  {
    hide Do, Legal;
    assert ([c] + calls)[1..] == calls;
  }

  /** While its frame is on top, only the frame's own arguments change the stack. */
  lemma {:induction false} ItemsKeepStack(dev: Device, s: State, items: Items)
    requires s.stack != [] && WellNested(items) && Run(dev, s, ItemCalls(items)).Some?
    ensures Run(dev, s, ItemCalls(items)).value.stack == Below(s) + [SetArgs(Top(s), OwnArgs(items))]
    decreases items
  {
    hide Do, Run, Legal;
    match items
    case Done =>
      RunNone(dev, s);
    case Arg(arg, rest) =>
      RunOne(dev, s, SetupCall(arg), ItemCalls(rest));
      SetupTop(dev, s, arg);
      ItemsKeepStack(dev, Do(dev, s, SetupCall(arg)).0, rest);
      assert ([arg] + OwnArgs(rest))[1..] == OwnArgs(rest);
    case Nested(script, rest) =>
      RunConcat(dev, s, ScriptCalls(script), ItemCalls(rest));
      ScriptKeepsStack(dev, s, script);
      ItemsKeepStack(dev, Run(dev, s, ScriptCalls(script)).value, rest);
    case Other(call, rest) =>
      RunOne(dev, s, call, ItemCalls(rest));
      StackEffect(dev, s, call);
      ItemsKeepStack(dev, Do(dev, s, call).0, rest);
  }

  lemma RunNone(dev: Device, s: State)
    ensures Run(dev, s, []) == Some(s)
  {
  }

  lemma SetupTop(dev: Device, s: State, arg: Argument)
    requires s.stack != []
    ensures Do(dev, s, SetupCall(arg)).0.stack == Below(s) + [SetArg(Top(s), arg)]
  {
  }

  lemma DoLaunch(dev: Device, s: State, fun: HostFunction)
    ensures Legal(s, LaunchCall(fun)) && Do(dev, s, LaunchCall(fun)) == Launch(dev, s, fun)
  {
  }

  /** The state in which the launch at the end of a script happens. */
  function BeforeLaunch(dev: Device, s: State, script: Script): Option<State> {
    Run(dev, s, [Opening(script)] + ItemCalls(script.items))
  }

  /**
   A launch with other launches nested between its arguments leaves the stack as it was, and its parameter i
   is the i-th argument set for its own frame.
   */
  lemma {:induction false} ScriptKeepsStack(dev: Device, s: State, script: Script)
    requires WellNested(script.items) && Run(dev, s, ScriptCalls(script)).Some?
    ensures Run(dev, s, ScriptCalls(script)).value.stack == s.stack
    ensures BeforeLaunch(dev, s, script).Some? && BeforeLaunch(dev, s, script).value.stack != []
    ensures BindParams(Top(BeforeLaunch(dev, s, script).value).args) == OwnArgs(script.items)
    ensures Top(BeforeLaunch(dev, s, script).value) == SetArgs(OpeningFrame(script), OwnArgs(script.items))
    ensures Run(dev, s, ScriptCalls(script))
         == Some(Launch(dev, BeforeLaunch(dev, s, script).value, script.fun).0)
    decreases script
  {
    hide Do, Run, Legal, SetArgs;
    var opening, body := Opening(script), ItemCalls(script.items);
    var launch := LaunchCall(script.fun);
    RunConcat(dev, s, [opening] + body, [launch]);
    RunOne(dev, s, opening, body);
    StackEffect(dev, s, opening);
    var s1 := Do(dev, s, opening).0;
    ItemsKeepStack(dev, s1, script.items);
    var s2 := Run(dev, s1, body).value;
    assert [launch] == [launch] + [];
    RunOne(dev, s2, launch, []);
    StackEffect(dev, s2, launch);
    RunNone(dev, Do(dev, s2, launch).0);
    assert Below(s1) == s.stack;
    assert Top(s1) == OpeningFrame(script);
    DoLaunch(dev, s2, script.fun);
    ParametersInOrder(Top(s1), OwnArgs(script.items));
  }

  lemma {:induction false} SetArgsReversed(config: KernelConfig, args: seq<Argument>)
    ensures SetArgs(config, args).args == BindParams(args) + config.args
    decreases |args|
  {
    if args != [] {
      SetArgsReversed(SetArg(config, args[0]), args[1..]);
      assert BindParams(args[1..]) + [args[0]] == BindParams(args);
      assert BindParams(args[1..]) + ([args[0]] + config.args) == BindParams(args[1..]) + [args[0]] + config.args;
    }
  }

  /** Front-pushing and reverse indexing cancel: parameter i is the i-th argument set. */
  lemma ParametersInOrder(config: KernelConfig, args: seq<Argument>)
    requires config.args == []
    ensures BindParams(SetArgs(config, args).args) == args
  {
    SetArgsReversed(config, args);
    assert BindParams(args) + [] == BindParams(args);
    assert BindParams(BindParams(args)) == args;
  }
}
