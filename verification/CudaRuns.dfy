/** Whole runs of calls on a runtime object. */
module CudaRuns {
  import opened Wrappers
  import opened CudaLaunch
  import opened CudaLaunchLaws
  import opened CudaAdmission
  import opened CudaOutcomes
  import opened CudaRuntime

  /** One call on the object. */
  method Perform(r: Runtime, c: Call) returns (status: Status)
    requires Legal(r.Contents(), c)
    modifies r
    ensures (r.Contents(), status) == Do(r.device, old(r.Contents()), c)
  {
    match c
    case ConfigureCall(grid, block, sharedMem, stream) =>
      r.ConfigureCall(grid, block, sharedMem, stream);
      status := Returned(Success);
    case SetupCall(arg) =>
      status := r.SetupArgument(arg.value, arg.size, arg.offset);
    case LaunchCall(fun) =>
      status := r.Launch(fun);
    case KernelCall(fun, grid, block, values, sharedMem, stream) =>
      status := r.LaunchKernel(fun, grid, block, values, sharedMem, stream);
    case ExCall(config, entry, options) =>
      status := r.LaunchKernelExC(config, entry, options);
    case PopCall =>
      var config;
      config, status := r.PopCallConfiguration();
    case AttributeCall(fun, attr, value) =>
      status := r.FuncSetAttribute(fun, attr, value);
    case DriverAttributeCall(fun, attr, value) =>
      status := r.CuFuncSetAttribute(fun, attr, value);
  }

  /**
   The calls in turn, up to the first that is not legal or aborts. When all are done, the object is in the state
   of the run, depth is pushes minus launches, and the invariants of admission still hold.
   */
  method PerformAll(r: Runtime, calls: seq<Call>) returns (done: bool)
    modifies r
    ensures done == Run(r.device, old(r.Contents()), calls).Some?
    ensures done ==> Run(r.device, old(r.Contents()), calls) == Some(r.Contents())
    ensures done ==>
              |r.launchStack| + TotalLaunches(r.device, old(r.Contents()), calls)
              == |old(r.launchStack)| + TotalPushes(r.device, old(r.Contents()), calls)
    ensures done && OptInsFit(r.device, old(r.Contents())) ==> OptInsFit(r.device, r.Contents())
    ensures done && AllAdmitted(r.device, old(r.Contents())) ==> AllAdmitted(r.device, r.Contents())
    ensures done && OptInsFit(r.device, old(r.Contents())) && AllShared(r.device, old(r.Contents())) ==>
              AllShared(r.device, r.Contents())
  {
    hide Do, Legal, OptInsFit, AllAdmitted, AllShared, TotalLaunches, TotalPushes;
    ghost var start := r.Contents();
    assert calls[0..] == calls;
    for k := 0 to |calls|
      invariant Run(r.device, start, calls) == Run(r.device, r.Contents(), calls[k..])
    {
      RunStep(r.device, r.Contents(), calls, k);
      if !Legal(r.Contents(), calls[k]) {
        return false;
      }
      var status := Perform(r, calls[k]);
      if status.Aborted? {
        return false;
      }
    }
    RunDone(r.device, start, r.Contents(), calls);
    done := true;
  }

  lemma RunStep(dev: Device, s: State, calls: seq<Call>, k: nat)
    requires k < |calls|
    ensures Run(dev, s, calls[k..])
         == if !Legal(s, calls[k]) || Do(dev, s, calls[k]).1.Aborted? then None
            else Run(dev, Do(dev, s, calls[k]).0, calls[k + 1..])
  {
    hide Do, Legal;
    assert calls[k..][1..] == calls[k + 1..];
  }

  lemma RunDone(dev: Device, s: State, t: State, calls: seq<Call>)
    requires Run(dev, s, calls) == Some(t)
    ensures |t.stack| + TotalLaunches(dev, s, calls) == |s.stack| + TotalPushes(dev, s, calls)
    ensures OptInsFit(dev, s) ==> OptInsFit(dev, t)
    ensures AllAdmitted(dev, s) ==> AllAdmitted(dev, t)
    ensures OptInsFit(dev, s) && AllShared(dev, s) ==> AllShared(dev, t)
  {
    hide *;
    DepthOverRuns(dev, s, calls);
    if OptInsFit(dev, s) {
      OptInsOverRuns(dev, s, calls);
    }
    if AllAdmitted(dev, s) {
      AdmittedOverRuns(dev, s, calls);
    }
    if OptInsFit(dev, s) && AllShared(dev, s) {
      SharedOverRuns(dev, s, calls);
    }
  }
}
