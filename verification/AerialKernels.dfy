/**
 Kernel segments of a recorded run (aerialvision/guiclasses.py).

 The cycle column of a trace restarts at every kernel.  The graph manager finds the
 samples at which it restarts and, unless the plot is "disconnected", turns a
 per-kernel counter into one that runs on over the whole trace.
 */
module AerialKernels {
  import opened Wrappers

  // ----- where kernels start -----

  /** Sample `i` does not continue the cycle count of the sample before it (-1 before the first). */
  predicate Restarts(cycles: seq<int>, i: nat)
    requires i < |cycles|
  {
    (if i == 0 then -1 else cycles[i - 1]) >= cycles[i]
  }

  function RestartsOf(cycles: seq<int>): (locs: seq<nat>) {
    if |cycles| == 0 then []
    else
      var last := |cycles| - 1;
      RestartsOf(cycles[..last]) + if Restarts(cycles, last) then [last] else []
  }

  /** The restarts, then the length of the trace. */
  function Bounds(cycles: seq<int>): (locs: seq<nat>) {
    RestartsOf(cycles) + [|cycles|]
  }

  predicate Ascending(locs: seq<nat>) {
    forall j, k :: 0 <= j < k < |locs| ==> locs[j] < locs[k]
  }

  /** Cycles strictly increase over the samples `from..to`. */
  predicate OneKernel(cycles: seq<int>, from: nat, to: nat) {
    from <= to <= |cycles| &&
    forall a, b :: from <= a < b < to ==> cycles[a] < cycles[b]
  }

  lemma {:induction false} RestartsFound(cycles: seq<int>)
    ensures forall i: nat :: i in RestartsOf(cycles) <==> i < |cycles| && Restarts(cycles, i)
    ensures Ascending(RestartsOf(cycles))
  {
    if |cycles| > 0 {
      var last := |cycles| - 1;
      var earlier := RestartsOf(cycles[..last]);
      RestartsFound(cycles[..last]);
      forall i: nat | i < last
        ensures Restarts(cycles[..last], i) == Restarts(cycles, i)
      {
      }
      forall k | 0 <= k < |earlier|
        ensures earlier[k] < last
      {
        assert earlier[k] in earlier;
      }
    }
  }

  /** What the bounds of a trace are, without saying how they are found. */
  lemma BoundsFound(cycles: seq<int>)
    ensures |Bounds(cycles)| > 0
    ensures Ascending(Bounds(cycles))
    ensures forall i: nat :: i in Bounds(cycles) <==> i == |cycles| || (i < |cycles| && Restarts(cycles, i))
  {
    RestartsFound(cycles);
    var locs := RestartsOf(cycles);
    forall k | 0 <= k < |locs|
      ensures locs[k] < |cycles|
    {
      assert locs[k] in locs;
    }
  }

  lemma NotBetween(locs: seq<nat>, j: int, i: nat)
    requires Ascending(locs)
    requires -1 <= j < |locs| - 1
    requires j >= 0 ==> locs[j] < i
    requires i < locs[j + 1]
    ensures i !in locs
  {
    forall k | 0 <= k < |locs|
      ensures locs[k] != i
    {
      if k < j {
        assert locs[k] < locs[j];
      } else if j + 1 < k {
        assert locs[j + 1] < locs[k];
      }
    }
  }

  /** Between two neighbouring bounds no kernel starts; before the first one none does either (`j == -1`). */
  lemma NoRestartBetween(cycles: seq<int>, j: int)
    requires -1 <= j < |Bounds(cycles)| - 1
    ensures 0 <= j ==> Bounds(cycles)[j] < Bounds(cycles)[j + 1]
    ensures Bounds(cycles)[j + 1] <= |cycles|
    ensures forall i: nat :: (0 <= j ==> Bounds(cycles)[j] < i) && i < Bounds(cycles)[j + 1] ==> !Restarts(cycles, i)
    ensures Bounds(cycles)[j + 1] < |cycles| ==> Restarts(cycles, Bounds(cycles)[j + 1])
  {
    hide Bounds, Restarts;
    var bounds := Bounds(cycles);
    BoundsFound(cycles);
    assert bounds[j + 1] in bounds;
    forall i: nat | (0 <= j ==> bounds[j] < i) && i < bounds[j + 1]
      ensures !Restarts(cycles, i)
    {
      NotBetween(bounds, j, i);
    }
  }

  /**
   The bounds strictly increase, they cut the trace exactly where the cycle count
   restarts, and inside each piece it strictly increases.
   */
  lemma BoundsCutTheTrace(cycles: seq<int>)
    ensures Ascending(Bounds(cycles))
    ensures forall i: nat :: i in Bounds(cycles) <==>
              i == |cycles| || (i < |cycles| && (if i == 0 then cycles[i] <= -1 else cycles[i] <= cycles[i - 1]))
    ensures OneKernel(cycles, 0, Bounds(cycles)[0])
    ensures forall j :: 0 <= j < |Bounds(cycles)| - 1 ==> OneKernel(cycles, Bounds(cycles)[j], Bounds(cycles)[j + 1])
  {
    hide Bounds, Restarts;
    var bounds := Bounds(cycles);
    BoundsFound(cycles);
    RestartsMean(cycles);
    NoRestartBetween(cycles, -1);
    PieceIsOneKernel(cycles, 0, bounds[0]);
    forall j | 0 <= j < |bounds| - 1
      ensures OneKernel(cycles, bounds[j], bounds[j + 1])
    {
      NoRestartBetween(cycles, j);
      PieceIsOneKernel(cycles, bounds[j], bounds[j + 1]);
    }
  }

  lemma RestartsMean(cycles: seq<int>)
    ensures forall i: nat | i < |cycles| ::
              Restarts(cycles, i) <==> (if i == 0 then cycles[i] <= -1 else cycles[i] <= cycles[i - 1])
  {
    forall i: nat | i < |cycles|
      ensures Restarts(cycles, i) <==> (if i == 0 then cycles[i] <= -1 else cycles[i] <= cycles[i - 1])
    {
    }
  }

  lemma PieceIsOneKernel(cycles: seq<int>, from: nat, to: nat)
    requires from <= to <= |cycles|
    requires forall i: nat :: from < i < to ==> !Restarts(cycles, i)
    ensures OneKernel(cycles, from, to)
  {
    forall a: nat, b: nat | from <= a < b < to
      ensures cycles[a] < cycles[b]
    {
      CyclesIncrease(cycles, a, b);
    }
  }

  lemma {:induction false} CyclesIncrease(cycles: seq<int>, a: nat, b: nat)
    requires a < b < |cycles|
    requires forall i: nat :: a < i <= b ==> !Restarts(cycles, i)
    ensures cycles[a] < cycles[b]
  {
    assert !Restarts(cycles, b);
    if a + 1 < b {
      CyclesIncrease(cycles, a, b - 1);
    }
  }

  // ----- the counter that runs on -----

  /** What the kernels that ended before sample `i` left on the counter. */
  function Carried(cycles: seq<int>, counter: seq<int>, i: nat): (total: int)
    requires i < |cycles| && i < |counter|
  {
    if i == 0 then 0
    else Carried(cycles, counter, i - 1) + if Restarts(cycles, i) then counter[i - 1] else 0
  }

  /** The counter with what earlier kernels left added on; samples past the trace stay. */
  ghost predicate RunsOn(cycles: seq<int>, counter: seq<int>, total: seq<int>) {
    |total| == |counter| &&
    forall i: nat :: i < |counter| ==>
      total[i] == counter[i] + if i < |cycles| then Carried(cycles, counter, i) else 0
  }

  /** The sum of the last values of the kernels that the given restarts end. */
  function LastValues(counter: seq<int>, restarts: seq<nat>): (total: int)
    requires Within(restarts, counter)
  {
    if |restarts| == 0 then 0
    else
      var at := restarts[|restarts| - 1];
      LastValues(counter, restarts[..|restarts| - 1]) + if at > 0 then counter[at - 1] else 0
  }

  predicate Within(restarts: seq<nat>, counter: seq<int>) {
    forall k :: 0 <= k < |restarts| ==> restarts[k] <= |counter|
  }

  /** What is carried into sample `i` is the sum of the last values of all earlier kernels. */
  lemma {:induction false} CarriedIsLastValues(cycles: seq<int>, counter: seq<int>, i: nat)
    requires i < |cycles| && i < |counter|
    ensures Within(RestartsOf(cycles[..i + 1]), counter)
    ensures Carried(cycles, counter, i) == LastValues(counter, RestartsOf(cycles[..i + 1]))
  {
    var upTo := cycles[..i + 1];
    var before := RestartsOf(cycles[..i]);
    assert upTo[..i] == cycles[..i];
    assert Restarts(upTo, i) == Restarts(cycles, i);
    if i == 0 {
      assert before == [];
      assert RestartsOf(upTo) == [] || RestartsOf(upTo) == [0];
      OnlyTheFirst(counter);
    } else {
      CarriedIsLastValues(cycles, counter, i - 1);
      if Restarts(cycles, i) {
        LastValuesSnoc(counter, before, i);
      } else {
        assert RestartsOf(upTo) == before;
      }
    }
  }

  lemma LastValuesSnoc(counter: seq<int>, restarts: seq<nat>, at: nat)
    requires Within(restarts, counter) && 0 < at <= |counter|
    ensures LastValues(counter, restarts + [at]) == LastValues(counter, restarts) + counter[at - 1]
  {
    assert (restarts + [at])[..|restarts|] == restarts;
  }

  lemma OnlyTheFirst(counter: seq<int>)
    ensures LastValues(counter, []) == 0 && LastValues(counter, [0]) == 0
  {
    var one: seq<nat> := [0];
    assert one[..0] == [];
  }

  /** What sample `i` adds to the counter, which counts from 0 again at a restart. */
  function Increment(cycles: seq<int>, counter: seq<int>, i: nat): (d: int)
    requires i < |cycles| && i < |counter|
  {
    if i == 0 || Restarts(cycles, i) then counter[i] else counter[i] - counter[i - 1]
  }

  function IncrementsUpTo(cycles: seq<int>, counter: seq<int>, i: nat): (total: int)
    requires i < |cycles| && i < |counter|
  {
    Increment(cycles, counter, i) + if i == 0 then 0 else IncrementsUpTo(cycles, counter, i - 1)
  }

  /** The counter that runs on is the sum of everything the samples so far added. */
  lemma {:induction false} RunningTotal(cycles: seq<int>, counter: seq<int>, total: seq<int>, i: nat)
    requires RunsOn(cycles, counter, total)
    requires i < |cycles| && i < |counter|
    ensures total[i] == IncrementsUpTo(cycles, counter, i)
  {
    if i > 0 {
      RunningTotal(cycles, counter, total, i - 1);
    }
  }

  /**
   The cycle column itself, made to run on, never goes back from one sample to the
   next, except into a kernel whose first cycle is recorded as negative.
   */
  lemma StepForward(cycles: seq<int>, total: seq<int>, i: nat)
    requires RunsOn(cycles, cycles, total)
    requires 0 < i < |cycles|
    ensures total[i - 1] <= total[i] <==> (Restarts(cycles, i) ==> cycles[i] >= 0)
    ensures !Restarts(cycles, i) ==> total[i - 1] < total[i]
  {
    RunningTotal(cycles, cycles, total, i - 1);
    RunningTotal(cycles, cycles, total, i);
  }

  ghost predicate NeverGoesBack(total: seq<int>) {
    forall a, b :: 0 <= a <= b < |total| ==> total[a] <= total[b]
  }

  lemma WholeRunForward(cycles: seq<int>, total: seq<int>)
    requires RunsOn(cycles, cycles, total)
    ensures NeverGoesBack(total) <==>
            forall i: nat :: 0 < i < |cycles| && Restarts(cycles, i) ==> cycles[i] >= 0
  {
    if forall i: nat :: 0 < i < |cycles| && Restarts(cycles, i) ==> cycles[i] >= 0 {
      forall a, b | 0 <= a <= b < |total|
        ensures total[a] <= total[b]
      {
        Forward(cycles, total, a, b);
      }
    }
    forall i: nat | NeverGoesBack(total) && 0 < i < |cycles| && Restarts(cycles, i)
      ensures cycles[i] >= 0
    {
      StepForward(cycles, total, i);
    }
  }

  /** A second kernel whose first cycle is recorded as -1 takes the run from 5 back to 4. */
  lemma RunGoesBack()
    ensures RunsOn([5, -1], [5, -1], [5, 4]) && !NeverGoesBack([5, 4])
  {
    var cycles, total := [5, -1], [5, 4];
    assert Carried(cycles, cycles, 0) == 0 && Carried(cycles, cycles, 1) == 5;
    assert total[0] > total[1];
  }

  lemma {:induction false} Forward(cycles: seq<int>, total: seq<int>, a: nat, b: nat)
    requires RunsOn(cycles, cycles, total)
    requires a <= b < |total|
    requires forall i: nat :: 0 < i < |cycles| && Restarts(cycles, i) ==> cycles[i] >= 0
    ensures total[a] <= total[b]
    decreases b
  {
    if a < b {
      Forward(cycles, total, a, b - 1);
      StepForward(cycles, total, b);
    }
  }

  lemma {:induction false} NothingCarried(cycles: seq<int>, counter: seq<int>, from: nat, i: nat)
    requires from <= i < |cycles| && i < |counter|
    requires forall k: nat :: from < k <= i ==> !Restarts(cycles, k)
    ensures Carried(cycles, counter, i) == Carried(cycles, counter, from)
  {
    if from < i {
      NothingCarried(cycles, counter, from, i - 1);
    }
  }

  // ----- the graph manager -----

  function IndexOf(locs: seq<nat>, x: nat): (j: nat)
    requires x in locs
    ensures j < |locs| && locs[j] == x
    ensures forall k :: 0 <= k < j ==> locs[k] != x
  {
    if locs[0] == x then 0 else 1 + IndexOf(locs[1..], x)
  }

  /** All samples before `upTo` carry their total, all others are as they were. */
  ghost predicate Partly(cycles: seq<int>, counter: seq<int>, values: seq<int>, upTo: nat)
    requires upTo <= |cycles|
  {
    |values| == |counter| &&
    (forall i: nat :: i < upTo && i < |counter| ==> values[i] == counter[i] + Carried(cycles, counter, i)) &&
    forall i: nat :: upTo <= i < |counter| ==> values[i] == counter[i]
  }

  /** Some kernel other than the first one starts inside the trace. */
  ghost predicate SeveralKernels(cycles: seq<int>, before: nat)
    requires before <= |cycles|
  {
    exists i: nat :: 0 < i < before && Restarts(cycles, i)
  }

  class GraphManager {
    var data: seq<int>        // the cycle column that was chosen for the x axis
    var kernalLocs: seq<nat>
    var disconnect: int

    constructor (data: seq<int>, disconnect: int)
      ensures this.data == data && this.disconnect == disconnect && kernalLocs == []
    {
      this.data, this.disconnect, this.kernalLocs := data, disconnect, [];
    }

    method FindKernalLocs()
      modifies this`kernalLocs
      ensures kernalLocs == Bounds(data)
    {
      kernalLocs := [];
      var prevCycle := -1;
      var countIter: nat := 0;
      while countIter < |data|
        invariant countIter <= |data|
        invariant prevCycle == if countIter == 0 then -1 else data[countIter - 1]
        invariant kernalLocs == RestartsOf(data[..countIter])
      {
        assert data[..countIter + 1][..countIter] == data[..countIter];
        if prevCycle >= data[countIter] {
          kernalLocs := kernalLocs + [countIter];
        }
        prevCycle := data[countIter];
        countIter := countIter + 1;
      }
      assert data[..|data|] == data;
      kernalLocs := kernalLocs + [|data|];
    }

    method XIsKernal(x: nat, kernalStarts: seq<nat>) returns (found: bool)
      ensures found <==> x in kernalStarts
    {
      found := false;
      for k := 0 to |kernalStarts|
        invariant found <==> x in kernalStarts[..k]
      {
        if kernalStarts[k] == x {
          found := true;
        }
      }
      assert kernalStarts[..|kernalStarts|] == kernalStarts;
    }

    /** The inner loop: adds the value before sample `start` to `start..end`, from the back. */
    method AddToSegment(values: seq<int>, start: nat, end: nat) returns (r: Option<seq<int>>)
      requires start < end
      ensures r.None? <==> start > 0 && end > |values|
      ensures r.Some? ==> |r.value| == |values|
      ensures r.Some? ==> forall i: nat :: i < |values| ==>
        r.value[i] == values[i] + if 0 < start <= i < end then values[start - 1] else 0
    {
      var v := values;
      var cycleSum := end - 1;
      while cycleSum > start - 1
        invariant start - 1 <= cycleSum <= end - 1
        invariant |v| == |values|
        invariant start > 0 && cycleSum < end - 1 ==> end <= |values|
        invariant forall i: nat :: i < |values| ==>
          v[i] == values[i] + if start > 0 && cycleSum < i < end then values[start - 1] else 0
      {
        if start != 0 {
          if cycleSum >= |v| {
            return None;  // IndexError
          }
          v := v[cycleSum := v[cycleSum] + v[start - 1]];
        }
        cycleSum := cycleSum - 1;
      }
      r := Some(v);
    }

    /**
     The counter, running on over the kernels found; None for the IndexError of a
     column that is shorter than the trace.
     */
    method UpdateVarKernal(counter: seq<int>) returns (r: Option<seq<int>>)
      requires disconnect == 0 ==> kernalLocs == Bounds(data)
      ensures disconnect != 0 ==> r == Some(counter)
      ensures disconnect == 0 ==> (r.None? <==> |counter| < |data| && SeveralKernels(data, |data|))
      ensures disconnect == 0 && r.Some? ==> RunsOn(data, counter, r.value)
    {
      hide Bounds, Restarts, Carried, IndexOf;
      var values := counter;
      if disconnect != 0 {
        return Some(values);
      }
      BoundsFound(data);
      ghost var done: nat := kernalLocs[0];
      NothingBeforeFirst(data, counter);
      var cycleNum: nat := 0;
      while cycleNum < |data|
        invariant cycleNum <= |data| && cycleNum <= done <= |data|
        invariant forall i: nat :: cycleNum <= i < done ==> !Restarts(data, i)
        invariant done < |data| ==> Restarts(data, done)
        invariant Partly(data, counter, values, done)
        invariant SeveralKernels(data, cycleNum) ==> done <= |counter|
      {
        var starts := XIsKernal(cycleNum, kernalLocs);
        if starts {
          var j := IndexOf(kernalLocs, cycleNum);
          LaterBound(kernalLocs, j, |data|);
          NoRestartBetween(data, j);
          var end := kernalLocs[j + 1];
          var added := AddToSegment(values, cycleNum, end);
          if added.None? {
            return None;
          }
          SegmentAdded(data, counter, values, added.value, cycleNum, end);
          values := added.value;
          done := end;
        }
        cycleNum := cycleNum + 1;
      }
      r := Some(values);
    }
  }

  lemma NothingBeforeFirst(cycles: seq<int>, counter: seq<int>)
    ensures Bounds(cycles)[0] <= |cycles|
    ensures forall i: nat :: i < Bounds(cycles)[0] ==> !Restarts(cycles, i)
    ensures Bounds(cycles)[0] < |cycles| ==> Restarts(cycles, Bounds(cycles)[0])
    ensures Partly(cycles, counter, counter, Bounds(cycles)[0])
  {
    NoRestartBetween(cycles, -1);
    forall i: nat | i < Bounds(cycles)[0] && i < |counter|
      ensures Carried(cycles, counter, i) == 0
    {
      NothingCarried(cycles, counter, 0, i);
    }
  }

  /** A bound below the last one is followed by another. */
  lemma LaterBound(locs: seq<nat>, j: nat, last: nat)
    requires Ascending(locs) && j < |locs| && last in locs && locs[j] < last
    ensures j < |locs| - 1
  {
    var k :| 0 <= k < |locs| && locs[k] == last;
  }

  lemma SegmentAdded(cycles: seq<int>, counter: seq<int>, values: seq<int>, added: seq<int>, start: nat, end: nat)
    requires start < end <= |cycles|
    requires Restarts(cycles, start)
    requires forall i: nat :: start < i < end ==> !Restarts(cycles, i)
    requires Partly(cycles, counter, values, start)
    requires |added| == |values|
    requires forall i: nat :: i < |values| ==>
      added[i] == values[i] + if 0 < start <= i < end then values[start - 1] else 0
    ensures Partly(cycles, counter, added, end)
  {
    forall i: nat | i < end && i < |counter|
      ensures added[i] == counter[i] + Carried(cycles, counter, i)
    {
      if start <= i {
        NothingCarried(cycles, counter, start, i);
      }
    }
  }
}
