/// Three places where the program, as written, does not do what its design
/// promises. Each is modelled as written, with the input that shows the
/// difference; the rest of the model uses the corrected behaviour
/// (`Checkers.WorkerChecker`, `Coordinator.ParallelMmapChecker`,
/// `Reports.MakeReport`).
module AsWritten {
  import opened Aggregates
  import opened UrlCheck
  import opened Partition
  import opened Checkers
  import opened Reports

  /** The pipe worker's loop as written: its line counter is never
      incremented, so the ownership test always asks about line 0. Worker 0
      then handles every line and every other worker none. */
  method PipeWorkerAsWritten(lines: seq<Classification>, workerId: nat, numWorkers: nat) returns (out: Outcome)
    requires workerId < numWorkers
    ensures out == Tally(if workerId == 0 then lines else [])
  {
    var sum: real, amount: int, unknown: int := 0.0, 0, 0;
    var lineNumber := 0;
    var read := 0;
    while read < |lines|
      invariant read <= |lines|
      invariant lineNumber == 0
      invariant Tally(if workerId == 0 then lines[..read] else []) == Finished(Aggregate(sum, amount, unknown))
    {
      var res := lines[read];
      if lineNumber % numWorkers == workerId {
        assert lines[..read + 1] == lines[..read] + [res];
        TallySnoc(lines[..read], res);
        if res.Unknown? {
          unknown := unknown + 1;
        } else if res.Invalid? {
          TallyAbortIsFinal(lines[..read + 1], lines);
          return Aborted;
        } else {
          sum := sum + res.seconds;
          amount := amount + 1;
        }
      }
      read := read + 1;
    }
    assert lines[..read] == lines;
    out := Finished(Aggregate(sum, amount, unknown));
  }

  /** With two or more workers and two or more lines, line 1 belongs to
      worker 1, yet the worker as written leaves it to worker 0. */
  lemma PipeWorkerMisassigns(lines: seq<Classification>, numWorkers: nat)
    requires numWorkers >= 2 && |lines| >= 2
    ensures lines[1] in Owned(lines, 1, numWorkers)
    ensures Owned(lines, 0, numWorkers) != lines
  {
    OwnedMembers(lines, 1, numWorkers);
    OwnedCount(lines, 0, numWorkers);
    FirstWorkerMissesLineOne(numWorkers, |lines|);
  }

  /** Worker 0 owns fewer than all of the first `len` line numbers. */
  lemma FirstWorkerMissesLineOne(numWorkers: nat, len: nat)
    requires numWorkers >= 2 && len >= 2
    ensures |OwnedIndices(0, numWorkers, len)| < len
  {
    var mine := OwnedIndices(0, numWorkers, len);
    var others := AllIndices(len) - {1};
    assert mine <= others;
    SubsetCardinality(mine, others);
    AllIndicesCount(len);
  }

  lemma {:induction false} AllIndicesCount(len: nat)
    ensures |AllIndices(len)| == len
  {
    if len > 0 {
      AllIndicesCount(len - 1);
    }
  }

  lemma SubsetCardinality(a: set<nat>, b: set<nat>)
    requires a <= b
    ensures |a| <= |b|
  {
    assert b == a + (b - a);
  }

  /** The records the pipe parent reads as written: worker 0's total of
      every line, then zeroed records. */
  function PipeRecordsAsWritten(lines: seq<Classification>, k: nat): (records: seq<Aggregate>)
    ensures |records| == k
  {
    if k == 0 then [] else PipeRecordsAsWritten(lines, k - 1) + [if k == 1 then Total(lines) else Zero()]
  }

  lemma {:induction false} PipeRecordsAsWrittenAt(lines: seq<Classification>, k: nat, w: nat)
    requires w < k
    ensures PipeRecordsAsWritten(lines, k)[w] == if w == 0 then Total(lines) else Zero()
  {
    if w < k - 1 {
      PipeRecordsAsWrittenAt(lines, k - 1, w);
    }
  }

  /** Record `w` of `PipeRecordsAsWritten` is what worker `w` of
      `PipeWorkerAsWritten` writes to the pipe when the input holds no
      illegal URL. */
  lemma PipeWorkerWritesRecord(lines: seq<Classification>, numWorkers: nat, w: nat)
    requires w < numWorkers && Invalid !in lines
    ensures Tally(if w == 0 then lines else []) == Finished(PipeRecordsAsWritten(lines, numWorkers)[w])
  {
    TallyClosedForm(lines);
    PipeRecordsAsWrittenAt(lines, numWorkers, w);
  }

  /** The missing counter does not change the printed total: the parent's
      fold still sums to the serial record. It only takes all the work away
      from every worker but the first. */
  lemma {:induction false} PipeRecordsAsWrittenSumToTotal(lines: seq<Classification>, k: nat)
    requires k >= 1
    ensures MergeAll(PipeRecordsAsWritten(lines, k)) == Total(lines)
  {
    var records := PipeRecordsAsWritten(lines, k);
    MergeAllSnoc(PipeRecordsAsWritten(lines, k - 1), records[k - 1]);
    if k > 1 {
      PipeRecordsAsWrittenSumToTotal(lines, k - 1);
    } else {
      assert PipeRecordsAsWritten(lines, 0) == [];
    }
  }

  /** The mmap parent as written: workers compute their records, but no
      region is ever mapped and no worker adds its record anywhere the
      parent reads; the parent reports its own record, which nothing ever
      writes. Workers run one after another here, so an abort ends the run
      before any report. */
  method ParallelMmapAsWritten(lines: seq<Classification>, numProcesses: int) returns (out: Outcome)
    ensures numProcesses >= 1 && Invalid in lines ==> out == Aborted
    ensures !(numProcesses >= 1 && Invalid in lines) ==> out == Finished(Zero())
  {
    var results := Zero();
    var workerId := 0;
    while workerId < numProcesses
      invariant 0 <= workerId && (workerId == 0 || workerId <= numProcesses)
      invariant forall w: nat :: w < workerId ==> Tally(Owned(lines, w, numProcesses)).Finished?
    {
      var local := WorkerChecker(lines, workerId, numProcesses);
      if local.Aborted? {
        ParallelAgreesWithSerial(lines, numProcesses);
        TallyClosedForm(lines);
        return Aborted;
      }
      workerId := workerId + 1;
    }
    if numProcesses >= 1 {
      ParallelAgreesWithSerial(lines, numProcesses);
      TallyClosedForm(lines);
    }
    out := Finished(results);
  }

  /** One reachable site is enough: the run should report its average, the
      mmap parent as written reports no data. */
  lemma MmapReportLosesResults(seconds: real)
    ensures Tally([Latency(seconds)]) == Finished(Aggregate(seconds, 1, 0))
    ensures MakeReport(Tally([Latency(seconds)]).agg) == Average(seconds, 1, 0)
    ensures MakeReport(Zero()) == NoAverage(0)
  {
    assert [Latency(seconds)][..0] == [];
  }

  /** The serial report as written: the averaged branch reads the shared
      record, the no-data branch reads `results`, the function's own record,
      which the loop never updates. */
  function SerialReportAsWritten(shared: Aggregate, results: Aggregate): (r: Report)
    ensures r.Average? <==> shared.amount > 0
    ensures r.Average? ==> r == MakeReport(shared)
    ensures r.NoAverage? ==> r.unknown == results.unknown
  {
    if shared.amount > 0 then Average(shared.sum / (shared.amount as real), shared.amount, shared.unknown)
    else NoAverage(results.unknown)
  }

  /** A file whose only line is unknown: the serial run counts one unknown
      URL but, as written, prints zero. */
  lemma SerialReportDropsUnknowns()
    ensures Tally([Unknown]) == Finished(Aggregate(0.0, 0, 1))
    ensures SerialReportAsWritten(Tally([Unknown]).agg, Zero()) == NoAverage(0)
    ensures MakeReport(Tally([Unknown]).agg) == NoAverage(1)
  {
    assert [Unknown][..0] == [];
  }
}
