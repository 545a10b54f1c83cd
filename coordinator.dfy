/// The parent side of the two parallel modes: `n` workers over the same
/// input, whose records reach the parent through a pipe (and are folded by
/// the parent) or through a shared region (and are merged by the workers).
/// The workers run one after another here; an illegal URL met by any
/// worker ends the whole run, as `kill(0, SIGKILL)` does.
module Coordinator {
  import opened Aggregates
  import opened UrlCheck
  import opened Checkers

  /** The parent's read loop of the pipe mode: one record per worker, each
      added field by field into a zeroed total. */
  method FoldRecords(records: seq<Aggregate>) returns (results: Aggregate)
    ensures results == MergeAll(records)
  {
    results := Zero();
    var workerId := 0;
    while workerId < |records|
      invariant workerId <= |records|
      invariant results == MergeAll(records[..workerId])
    {
      var buffer := records[workerId];
      results := results.(unknown := results.unknown + buffer.unknown);
      results := results.(sum := results.sum + buffer.sum);
      results := results.(amount := results.amount + buffer.amount);
      assert records[..workerId + 1] == records[..workerId] + [buffer];
      MergeAllSnoc(records[..workerId], buffer);
      workerId := workerId + 1;
    }
    assert records[..workerId] == records;
  }

  /** The pipe mode: worker `w` of `n` runs its loop and writes its record;
      the parent then reads and folds `n` records. With a count below one
      no worker is started and the parent reports its zeroed total. */
  method ParallelPipeChecker(lines: seq<Classification>, numProcesses: int) returns (out: Outcome)
    ensures numProcesses >= 1 ==> out == Tally(lines)
    ensures numProcesses < 1 ==> out == Finished(Zero())
  {
    var records: seq<Aggregate> := [];
    var workerId := 0;
    while workerId < numProcesses
      invariant 0 <= workerId && (workerId == 0 || workerId <= numProcesses)
      invariant numProcesses >= 1 ==> records == WorkerAggregates(lines, numProcesses, workerId)
      invariant numProcesses < 1 ==> records == []
      invariant forall w: nat :: w < workerId ==> Tally(Owned(lines, w, numProcesses)).Finished?
    {
      var local := WorkerChecker(lines, workerId, numProcesses);
      if local.Aborted? {
        ParallelAgreesWithSerial(lines, numProcesses);
        return Aborted;
      }
      TallyClosedForm(Owned(lines, workerId, numProcesses));
      records := records + [local.agg];
      workerId := workerId + 1;
    }
    var results := FoldRecords(records);
    if numProcesses >= 1 {
      ParallelAgreesWithSerial(lines, numProcesses);
    }
    out := Finished(results);
  }

  /** The region shared by the parent and the workers of the mmap mode.
      Workers merge into it one at a time (the semaphore that serialises
      them is not modelled). */
  class SharedRegion {
    var sum: real
    var amount: int
    var unknown: int

    function Value(): Aggregate
      reads this
    {
      Aggregate(sum, amount, unknown)
    }

    constructor ()
      ensures Value() == Zero()
    {
      sum, amount, unknown := 0.0, 0, 0;
    }

    /** A finished worker adds its record into the region: a merge, not an
        overwrite. */
    method Merge(local: Aggregate)
      modifies this
      ensures Value() == Add(old(Value()), local)
    {
      sum := sum + local.sum;
      amount := amount + local.amount;
      unknown := unknown + local.unknown;
    }
  }

  /** The mmap mode: every finished worker merges its record into the shared
      region, and the parent reports the region once all workers are done. */
  method ParallelMmapChecker(lines: seq<Classification>, numProcesses: int) returns (out: Outcome)
    ensures numProcesses >= 1 ==> out == Tally(lines)
    ensures numProcesses < 1 ==> out == Finished(Zero())
  {
    var region := new SharedRegion();
    var workerId := 0;
    while workerId < numProcesses
      invariant 0 <= workerId && (workerId == 0 || workerId <= numProcesses)
      invariant numProcesses >= 1 ==> region.Value() == MergeAll(WorkerAggregates(lines, numProcesses, workerId))
      invariant numProcesses < 1 ==> region.Value() == Zero()
      invariant forall w: nat :: w < workerId ==> Tally(Owned(lines, w, numProcesses)).Finished?
    {
      var local := WorkerChecker(lines, workerId, numProcesses);
      if local.Aborted? {
        ParallelAgreesWithSerial(lines, numProcesses);
        return Aborted;
      }
      TallyClosedForm(Owned(lines, workerId, numProcesses));
      MergeAllSnoc(WorkerAggregates(lines, numProcesses, workerId), local.agg);
      region.Merge(local.agg);
      assert forall w: nat :: w < workerId + 1 ==> Tally(Owned(lines, w, numProcesses)).Finished?;
      workerId := workerId + 1;
    }
    if numProcesses >= 1 {
      ParallelAgreesWithSerial(lines, numProcesses);
    }
    out := Finished(region.Value());
  }
}
