/** Which arguments a launched kernel receives as which parameters. */
module CudaParameters {
  import opened Wrappers
  import opened CudaLaunch
  import opened CudaLaunchLaws
  import opened CudaAdmission

  /** Parameter `i` is value `i`, for all values that are present. */
  ghost predicate EachInPlace(args: seq<Argument>, params: seq<(nat, nat)>, values: seq<Option<Pointer>>)
    requires |params| <= |values|
  {
    forall i | 0 <= i < |params| && values[i].Some? ::
      i < |args| && args[i] == Argument(values[i].value, params[i].0, params[i].1)
  }

  /** No present value follows an absent one. */
  ghost predicate NoGap(values: seq<Option<Pointer>>, n: nat)
    requires n <= |values|
  {
    forall i, j | 0 <= i < j < n && values[j].Some? :: values[i].Some?
  }

  lemma {:induction false} AtMost(params: seq<(nat, nat)>, values: seq<Option<Pointer>>, m: nat)
    requires |params| <= |values|
    requires forall j | m <= j < |params| :: values[j].None?
    ensures |Arguments(params, values)| <= m
  {
    if params != [] {
      AtMost(params[1..], values[1..], if m == 0 then 0 else m - 1);
    }
  }

  lemma {:induction false} LastPresent(values: seq<Option<Pointer>>, n: nat) returns (j: nat)
    requires n <= |values| && exists i | 0 <= i < n :: values[i].Some?
    ensures j < n && values[j].Some? && forall i | j < i < n :: values[i].None?
  {
    j := n - 1;
    if values[j].None? {
      j := LastPresent(values, n - 1);
    }
  }

  lemma InPlaceTail(args: seq<Argument>, params: seq<(nat, nat)>, values: seq<Option<Pointer>>)
    requires 0 < |params| <= |values| && values[0].Some?
    ensures EachInPlace([Argument(values[0].value, params[0].0, params[0].1)] + args, params, values)
       <==> EachInPlace(args, params[1..], values[1..])
    ensures NoGap(values, |params|) <==> NoGap(values[1..], |params| - 1)
  {
    var a := Argument(values[0].value, params[0].0, params[0].1);
    if EachInPlace([a] + args, params, values) {
      forall i | 0 <= i < |params| - 1 && values[1..][i].Some?
        ensures i < |args| && args[i] == Argument(values[1..][i].value, params[1..][i].0, params[1..][i].1)
      {
        assert values[i + 1].Some? && ([a] + args)[i + 1] == args[i];
      }
    }
    if NoGap(values, |params|) {
      forall i, j | 0 <= i < j < |params| - 1 && values[1..][j].Some? ensures values[1..][i].Some? {
        assert values[j + 1].Some? && values[i + 1].Some?;
      }
    }
  }

  /** The arguments bound for these values are in place exactly when no present value follows an absent one. */
  lemma {:induction false} ArgumentsInPlace(params: seq<(nat, nat)>, values: seq<Option<Pointer>>)
    requires |params| <= |values|
    ensures EachInPlace(Arguments(params, values), params, values) <==> NoGap(values, |params|)
  {
    if params != [] {
      if values[0].Some? {
        ArgumentsInPlace(params[1..], values[1..]);
        InPlaceTail(Arguments(params[1..], values[1..]), params, values);
      } else if exists i :: 0 <= i < |params| && values[i].Some? {
        var j := LastPresent(values, |params|);
        AtMost(params[1..], values[1..], j);
        assert |Arguments(params, values)| <= j;
      }
    }
  }

  /** One absent argument shifts the next: the second parameter's value is bound as the first parameter. */
  lemma AbsentArgumentShifts(p: Pointer)
    ensures var args := Arguments([(4, 0), (8, 8)], [None, Some(p)]);
            args == [Argument(p, 8, 8)] && !EachInPlace(args, [(4, 0), (8, 8)], [None, Some(p)])
  {
    var params, values := [(4, 0), (8, 8)], [None, Some(p)];
    assert params[1..] == [(8, 8)] && values[1..] == [Some(p)];
    assert Arguments(params[1..], values[1..]) == [Argument(p, 8, 8)];
    assert values[1].Some?;
  }

  /** The parameters of a launch whose frame had these arguments set in order. */
  lemma SetupBinds(s: State, args: seq<Argument>)
    requires s.stack != [] && Top(s).args == []
    ensures SetupArguments(s, args).stack != []
    ensures var top := Top(SetupArguments(s, args));
            BindParams(top.args) == args && top == Top(s).(args := top.args)
  {
    hide SetArgs, BindParams;
    ParametersInOrder(Top(s), args);
    SetArgsFrame(Top(s), args);
  }

  /** The operation that the call added, if it has succeeded and the kernel is not skipped. */
  ghost predicate AddsOne(s: State, t: State, op: Operation) {
    t.operations == s.operations + [op]
  }

  lemma LaunchAddsOne(dev: Device, s: State, fun: HostFunction) returns (op: Operation)
    requires Launch(dev, s, fun).1 == Returned(Success) && !Skipped(dev, s.nextUid)
    ensures s.stack != [] && Known(s, fun) && AddsOne(s, Launch(dev, s, fun).0, op)
    ensures op.params == BindParams(Top(s).args) && op.grid == Top(s).grid && op.block == Top(s).block
    ensures op.stream == Top(s).stream && op.cluster == ClusterOf(Top(s), FunctionOf(s, fun))
    ensures op.dynamicSmem == Top(s).sharedMem
  {
    hide Launch, BindParams, Skipped;
    LaunchAdds(dev, s, fun);
    var t := Launch(dev, s, fun).0;
    op := t.operations[|s.operations|];
    assert t.operations == t.operations[..|s.operations|] + [op];
  }

  /**
   An extended launch: the kernel's parameters are the present values in order, so parameter `i` is value `i`
   for all present ones exactly when no present value follows an absent one.
   */
  lemma ExParameters(dev: Device, s: State, c: LaunchConfig, fun: HostFunction, values: seq<Option<Pointer>>)
      returns (op: Operation)
    requires Known(s, fun) && |FunctionOf(s, fun).params| <= |values|
    requires LaunchEx(dev, s, Some(c), Some(fun), values).1 == Returned(Success) && !Skipped(dev, s.nextUid)
    ensures AddsOne(s, LaunchEx(dev, s, Some(c), Some(fun), values).0, op)
    ensures op.grid == c.grid && op.block == c.block && op.stream == c.stream && op.dynamicSmem == c.sharedMem
    ensures op.params == Arguments(FunctionOf(s, fun).params, values)
    ensures EachInPlace(op.params, FunctionOf(s, fun).params, values)
       <==> NoGap(values, |FunctionOf(s, fun).params|)
  {
    hide Launch, Arguments, SetupArguments, WithPolicy, ClusterAttribute, BindParams, Skipped, EachInPlace, NoGap;
    var f := FunctionOf(s, fun);
    var s1 := ExFrame(s, c, KernelName(s, fun));
    var args := Arguments(f.params, values);
    SetupBinds(s1, args);
    SetupTables(s1, args);
    SameUid(s1, args);
    op := LaunchAddsOne(dev, SetupArguments(s1, args), fun);
    ArgumentsInPlace(f.params, values);
  }

  lemma SameUid(s: State, args: seq<Argument>)
    requires s.stack != []
    ensures SetupArguments(s, args).nextUid == s.nextUid
  {
  }

  lemma {:induction false} NoneMissing(params: seq<(nat, nat)>, values: seq<Option<Pointer>>)
    requires |params| <= |values| && forall i | 0 <= i < |params| :: values[i].Some?
    ensures |Arguments(params, values)| == |params|
  {
    if params != [] {
      NoneMissing(params[1..], values[1..]);
    }
  }

  /** A plain launch on a frame without arguments: every parameter is its value. */
  lemma KernelParameters(dev: Device, s: State, c: Call) returns (op: Operation)
    requires c.KernelCall? && Legal(s, c) && (s.stack == [] || Top(s).args == [])
    requires Do(dev, s, c).1 == Returned(Success) && !Skipped(dev, s.nextUid)
    ensures Known(s, c.fun) && AddsOne(s, Do(dev, s, c).0, op)
    ensures var params := FunctionOf(s, c.fun).params;
            && |op.params| == |params|
            && forall i: nat | i < |params| :: ValueBound(op.params, params, c.values, i)
    ensures s.stack == [] ==> op.grid == c.grid && op.block == c.block && op.stream == c.stream
    ensures s.stack != [] ==> op.grid == Top(s).grid && op.block == Top(s).block && op.stream == Top(s).stream
  {
    hide Launch, Arguments, SetupArguments, BindParams, Skipped, EachInPlace, NoGap;
    var f := FunctionOf(s, c.fun);
    var s1 := if s.stack == [] then Configure(s, c.grid, c.block, c.sharedMem, c.stream) else s;
    var args := Arguments(f.params, Present(c.values));
    SetupBinds(s1, args);
    SetupTables(s1, args);
    SameUid(s1, args);
    op := LaunchAddsOne(dev, SetupArguments(s1, args), c.fun);
    ArgumentsInPlace(f.params, Present(c.values));
    NoneMissing(f.params, Present(c.values));
    NoGapAtAll(c.values, |f.params|);
    InPlaceMeans(op.params, f.params, c.values);
  }

  lemma NoGapAtAll(values: seq<Pointer>, n: nat)
    requires n <= |values|
    ensures NoGap(Present(values), n)
  {
  }

  /** Argument `i` is value `i`, with the size and offset of parameter `i`. */
  ghost predicate ValueBound(args: seq<Argument>, params: seq<(nat, nat)>, values: seq<Pointer>, i: nat) {
    && i < |args| && i < |params| && i < |values|
    && args[i] == Argument(values[i], params[i].0, params[i].1)
  }

  lemma InPlaceMeans(args: seq<Argument>, params: seq<(nat, nat)>, values: seq<Pointer>)
    requires |params| <= |values| && EachInPlace(args, params, Present(values))
    ensures forall i: nat | i < |params| :: ValueBound(args, params, values, i)
  {
    hide Present;
    var present := Present(values);
    forall i: nat | i < |params| ensures ValueBound(args, params, values, i) {
      assert present[i] == Some(values[i]);
    }
  }

  /**
   A launch with other launches nested between its arguments: the operation it adds carries its own frame's
   geometry, and parameter `i` is the i-th argument set for that frame.
   */
  lemma ScriptParameters(dev: Device, s: State, script: Script) returns (op: Operation)
    requires WellNested(script.items) && Run(dev, s, ScriptCalls(script)).Some?
    requires BeforeLaunch(dev, s, script).Some?
    requires var t := BeforeLaunch(dev, s, script).value;
             Launch(dev, t, script.fun).1 == Returned(Success) && !Skipped(dev, t.nextUid)
    ensures AddsOne(BeforeLaunch(dev, s, script).value, Run(dev, s, ScriptCalls(script)).value, op)
    ensures op.params == OwnArgs(script.items)
    ensures op.grid == script.grid && op.block == script.block && op.stream == script.stream
    ensures op.dynamicSmem == script.sharedMem
    ensures Run(dev, s, ScriptCalls(script)).value.stack == s.stack
  {
    hide Launch, Run, BindParams, SetArgs, Skipped, BeforeLaunch, ScriptCalls;
    ScriptKeepsStack(dev, s, script);
    SetArgsFrame(OpeningFrame(script), OwnArgs(script.items));
    op := LaunchAddsOne(dev, BeforeLaunch(dev, s, script).value, script.fun);
  }
}
