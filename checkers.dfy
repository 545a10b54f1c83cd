/// The accumulation loops of `serial_checker` and of the workers, the
/// functions that specify them, and the theorem that `n` modulo-partitioned
/// workers, added field by field, give the serial result.
module Checkers {
  import opened Aggregates
  import opened UrlCheck
  import opened Partition

  /** How a checker's loop ends: with its record, or stopped by an illegal
      URL (the process exits or kills its group, and hands nothing on). */
  datatype Outcome = Finished(agg: Aggregate) | Aborted

  /** One iteration of the loop body on a line's classification. */
  function Step(a: Aggregate, c: Classification): (o: Outcome)
    ensures o.Aborted? <==> c.Invalid?
    ensures o.Finished? ==> o.agg.amount + o.agg.unknown == a.amount + a.unknown + 1
    ensures c.Unknown? ==> o.Finished? && o.agg.sum == a.sum && o.agg.amount == a.amount
    ensures c.Latency? ==> o.Finished? && o.agg.unknown == a.unknown && o.agg.sum == a.sum + c.seconds
  {
    if c.Unknown? then Finished(a.(unknown := a.unknown + 1))
    else if c.Invalid? then Aborted
    else Finished(a.(sum := a.sum + c.seconds, amount := a.amount + 1))
  }

  /** The loop run over `lines` in order from a zeroed record, stopping at
      the first illegal URL. */
  function Tally(lines: seq<Classification>): Outcome
  {
    if lines == [] then Finished(Zero())
    else match Tally(lines[..|lines| - 1])
      case Aborted => Aborted
      case Finished(a) => Step(a, lines[|lines| - 1])
  }

  /** What one line adds to a record: an illegal URL adds nothing. */
  function Contribution(c: Classification): Aggregate
  {
    match c
    case Latency(t) => Aggregate(t, 1, 0)
    case Unknown => Aggregate(0.0, 0, 1)
    case Invalid => Zero()
  }

  /** The field-wise total of the contributions of all lines. */
  function Total(lines: seq<Classification>): Aggregate
  {
    if lines == [] then Zero()
    else Add(Total(lines[..|lines| - 1]), Contribution(lines[|lines| - 1]))
  }

  /** The lines a worker handles, in input order. */
  function Owned(lines: seq<Classification>, workerId: nat, numWorkers: nat): seq<Classification>
    requires numWorkers >= 1
  {
    if lines == [] then []
    else Owned(lines[..|lines| - 1], workerId, numWorkers)
         + (if Owns(workerId, numWorkers, |lines| - 1) then [lines[|lines| - 1]] else [])
  }

  /** The records of workers `0 .. k-1`, in worker order. */
  function WorkerAggregates(lines: seq<Classification>, numWorkers: nat, k: nat): (records: seq<Aggregate>)
    requires numWorkers >= 1
    ensures |records| == k
  {
    if k == 0 then []
    else WorkerAggregates(lines, numWorkers, k - 1) + [Total(Owned(lines, k - 1, numWorkers))]
  }

  // ----- the serial loop -------------------------------------------------

  lemma TallySnoc(lines: seq<Classification>, c: Classification)
    ensures Tally(lines + [c]) == match Tally(lines) case Aborted => Aborted case Finished(a) => Step(a, c)
  {
    assert (lines + [c])[..|lines|] == lines;
  }

  lemma TotalSnoc(lines: seq<Classification>, c: Classification)
    ensures Total(lines + [c]) == Add(Total(lines), Contribution(c))
  {
    assert (lines + [c])[..|lines|] == lines;
  }

  lemma InvalidInSnoc(lines: seq<Classification>, c: Classification)
    ensures Invalid in lines + [c] <==> Invalid in lines || c.Invalid?
  {
    assert (lines + [c])[|lines|] == c;
    assert forall x :: x in lines ==> x in lines + [c];
  }

  /** The closed form of the loop survives one more line. */
  lemma ClosedFormSnoc(lines: seq<Classification>, c: Classification)
    requires Tally(lines) == if Invalid in lines then Aborted else Finished(Total(lines))
    ensures Tally(lines + [c]) == if Invalid in lines + [c] then Aborted else Finished(Total(lines + [c]))
  {
    TallySnoc(lines, c);
    TotalSnoc(lines, c);
    InvalidInSnoc(lines, c);
  }

  /** The loop ends early exactly when some line is an illegal URL, and
      otherwise its record is the total of all the lines. */
  lemma {:induction false} TallyClosedForm(lines: seq<Classification>)
    ensures Tally(lines) == if Invalid in lines then Aborted else Finished(Total(lines))
  {
    if lines != [] {
      var init, last := lines[..|lines| - 1], lines[|lines| - 1];
      assert lines == init + [last];
      TallyClosedForm(init);
      ClosedFormSnoc(init, last);
    }
  }

  /** Once the loop has stopped on an illegal URL, no later line can
      contribute: every longer input stops too. */
  lemma TallyAbortIsFinal(prefix: seq<Classification>, lines: seq<Classification>)
    requires prefix <= lines && Tally(prefix).Aborted?
    ensures Tally(lines).Aborted?
  {
    TallyClosedForm(prefix);
    TallyClosedForm(lines);
    assert lines == prefix + lines[|prefix|..];
  }

  /** With no illegal URL, every line processed is counted exactly once, as
      a site or as unknown. */
  lemma {:induction false} TallyCountsLines(lines: seq<Classification>)
    requires Tally(lines).Finished?
    ensures Tally(lines).agg.amount + Tally(lines).agg.unknown == |lines|
  {
    if lines != [] {
      TallyCountsLines(lines[..|lines| - 1]);
    }
  }

  /** Neither counter ever decreases as the loop goes on. */
  lemma {:induction false} TallyMonotone(prefix: seq<Classification>, lines: seq<Classification>)
    requires prefix <= lines && Tally(lines).Finished?
    ensures Tally(prefix).Finished?
    ensures Tally(prefix).agg.amount <= Tally(lines).agg.amount
    ensures Tally(prefix).agg.unknown <= Tally(lines).agg.unknown
    decreases |lines|
  {
    if |prefix| < |lines| {
      var init, last := lines[..|lines| - 1], lines[|lines| - 1];
      assert prefix <= init;
      assert lines == init + [last];
      TallySnoc(init, last);
      TallyMonotone(prefix, init);
    } else {
      assert prefix == lines;
    }
  }

  /** When every probe reports a non-negative time, all three fields of a
      finished record are non-negative. */
  lemma {:induction false} TallyNonNegative(lines: seq<Classification>)
    requires forall c :: c in lines ==> ValidClassification(c)
    requires Tally(lines).Finished?
    ensures Tally(lines).agg.sum >= 0.0 && Tally(lines).agg.amount >= 0 && Tally(lines).agg.unknown >= 0
  {
    if lines != [] {
      var init, last := lines[..|lines| - 1], lines[|lines| - 1];
      assert lines == init + [last];
      assert forall c :: c in init ==> c in lines;
      TallySnoc(init, last);
      assert Tally(init).Finished?;
      assert ValidClassification(last);
      TallyNonNegative(init);
      assert Tally(lines) == Step(Tally(init).agg, last);
    }
  }

  /** `serial_checker`'s loop: every line in turn; an unknown result counts
      as unknown, an illegal URL ends the run, a latency is added to the sum
      and counted. */
  method SerialChecker(lines: seq<Classification>) returns (out: Outcome)
    ensures out == Tally(lines)
  {
    var sum: real, amount: int, unknown: int := 0.0, 0, 0;
    var i := 0;
    while i < |lines|
      invariant i <= |lines|
      invariant Tally(lines[..i]) == Finished(Aggregate(sum, amount, unknown))
    {
      var res := lines[i];
      assert lines[..i + 1] == lines[..i] + [res];
      TallySnoc(lines[..i], res);
      if res.Unknown? {
        unknown := unknown + 1;
      } else if res.Invalid? {
        TallyAbortIsFinal(lines[..i + 1], lines);
        return Aborted;
      } else {
        sum := sum + res.seconds;
        amount := amount + 1;
      }
      i := i + 1;
    }
    assert lines[..i] == lines;
    out := Finished(Aggregate(sum, amount, unknown));
  }

  // ----- one worker ------------------------------------------------------

  lemma OwnedSnoc(lines: seq<Classification>, c: Classification, workerId: nat, numWorkers: nat)
    requires numWorkers >= 1
    ensures Owned(lines + [c], workerId, numWorkers)
         == Owned(lines, workerId, numWorkers) + (if Owns(workerId, numWorkers, |lines|) then [c] else [])
  {
    assert (lines + [c])[..|lines|] == lines;
  }

  /** What a worker handles of a shorter input is a prefix of what it
      handles of the whole input. */
  lemma {:induction false} OwnedPrefix(lines: seq<Classification>, j: nat, workerId: nat, numWorkers: nat)
    requires numWorkers >= 1 && j <= |lines|
    ensures Owned(lines[..j], workerId, numWorkers) <= Owned(lines, workerId, numWorkers)
    decreases |lines|
  {
    if j < |lines| {
      var init := lines[..|lines| - 1];
      assert lines[..j] == init[..j];
      OwnedPrefix(init, j, workerId, numWorkers);
    } else {
      assert lines[..j] == lines;
    }
  }

  /** A worker handles only lines of the input, and every line is handled by
      worker `i % n`. */
  lemma {:induction false} OwnedMembers(lines: seq<Classification>, workerId: nat, numWorkers: nat)
    requires numWorkers >= 1
    ensures forall c :: c in Owned(lines, workerId, numWorkers) ==> c in lines
    ensures forall i :: 0 <= i < |lines| && i % numWorkers == workerId ==>
      lines[i] in Owned(lines, workerId, numWorkers)
  {
    if lines != [] {
      var init := lines[..|lines| - 1];
      OwnedMembers(init, workerId, numWorkers);
      forall i | 0 <= i < |lines| - 1 && i % numWorkers == workerId
        ensures lines[i] in Owned(lines, workerId, numWorkers)
      {
        assert init[i] == lines[i];
      }
    }
  }

  /** `owned[j]` is input line `w + j * n` for every `j`, and the next line
      number worker `w` would own lies beyond the input. */
  predicate Positioned(owned: seq<Classification>, lines: seq<Classification>, workerId: nat, numWorkers: nat)
  {
    (forall j :: 0 <= j < |owned| ==>
       workerId + j * numWorkers < |lines| && owned[j] == lines[workerId + j * numWorkers])
    && |lines| <= workerId + |owned| * numWorkers
  }

  lemma PositionedSnoc(owned: seq<Classification>, lines: seq<Classification>, c: Classification,
                       workerId: nat, numWorkers: nat)
    requires workerId < numWorkers && Positioned(owned, lines, workerId, numWorkers)
    ensures Positioned(owned + (if Owns(workerId, numWorkers, |lines|) then [c] else []),
                       lines + [c], workerId, numWorkers)
  {
    var m := |owned|;
    if Owns(workerId, numWorkers, |lines|) {
      if m > 0 {
        assert workerId + (m - 1) * numWorkers < |lines|;
        assert (m - 1) * numWorkers == m * numWorkers - numWorkers;
      }
      Pinned(|lines|, workerId, m, numWorkers);
      assert (m + 1) * numWorkers == m * numWorkers + numWorkers;
    } else {
      MultipleRemainder(workerId, m, numWorkers);
      assert owned + [] == owned;
    }
  }

  /** Position by position, worker `w`'s lines are input lines
      `w, w + n, w + 2n, ...`, and the next one it would own lies beyond the
      input. */
  lemma {:induction false} OwnedPositions(lines: seq<Classification>, workerId: nat, numWorkers: nat)
    requires workerId < numWorkers
    ensures Positioned(Owned(lines, workerId, numWorkers), lines, workerId, numWorkers)
  {
    if lines != [] {
      var init, c := lines[..|lines| - 1], lines[|lines| - 1];
      assert lines == init + [c];
      OwnedPositions(init, workerId, numWorkers);
      OwnedSnoc(init, c, workerId, numWorkers);
      PositionedSnoc(Owned(init, workerId, numWorkers), init, c, workerId, numWorkers);
    }
  }

  /** A worker handles as many lines as there are line numbers it owns. */
  lemma {:induction false} OwnedCount(lines: seq<Classification>, workerId: nat, numWorkers: nat)
    requires numWorkers >= 1
    ensures |Owned(lines, workerId, numWorkers)| == |OwnedIndices(workerId, numWorkers, |lines|)|
  {
    if lines != [] {
      var len := |lines| - 1;
      OwnedCount(lines[..len], workerId, numWorkers);
      var before := OwnedIndices(workerId, numWorkers, len);
      if Owns(workerId, numWorkers, len) {
        assert OwnedIndices(workerId, numWorkers, len + 1) == before + {len};
        assert len !in before;
      } else {
        assert OwnedIndices(workerId, numWorkers, len + 1) == before;
      }
    }
  }

  /** Reading line `i` extends a worker's lines by that line exactly when
      the worker owns it. */
  lemma OwnedStep(lines: seq<Classification>, i: nat, workerId: nat, numWorkers: nat)
    requires numWorkers >= 1 && i < |lines|
    ensures Owned(lines[..i + 1], workerId, numWorkers)
         == Owned(lines[..i], workerId, numWorkers) + (if i % numWorkers == workerId then [lines[i]] else [])
  {
    assert lines[..i + 1] == lines[..i] + [lines[i]];
    OwnedSnoc(lines[..i], lines[i], workerId, numWorkers);
  }

  /** An illegal URL among a worker's lines aborts that worker. */
  lemma OwnedAbort(lines: seq<Classification>, i: nat, workerId: nat, numWorkers: nat)
    requires numWorkers >= 1 && i < |lines| && lines[i].Invalid? && Owns(workerId, numWorkers, i)
    ensures Tally(Owned(lines, workerId, numWorkers)).Aborted?
  {
    OwnedMembers(lines, workerId, numWorkers);
    TallyClosedForm(Owned(lines, workerId, numWorkers));
  }

  /** One pass of the worker loop on line `i`: the record moves by one
      `Step` when the worker owns the line and stays put otherwise. */
  lemma WorkerStep(lines: seq<Classification>, i: nat, workerId: nat, numWorkers: nat, a: Aggregate)
    requires numWorkers >= 1 && i < |lines|
    requires Tally(Owned(lines[..i], workerId, numWorkers)) == Finished(a)
    ensures Tally(Owned(lines[..i + 1], workerId, numWorkers))
         == if Owns(workerId, numWorkers, i) then Step(a, lines[i]) else Finished(a)
  {
    var before := Owned(lines[..i], workerId, numWorkers);
    OwnedStep(lines, i, workerId, numWorkers);
    if Owns(workerId, numWorkers, i) {
      TallySnoc(before, lines[i]);
    } else {
      assert before + [] == before;
    }
  }

  /** A worker's loop (`worker_mmap_checker`): it reads every line, counts
      line numbers, and runs the serial loop body only on the lines it
      owns. */
  method WorkerChecker(lines: seq<Classification>, workerId: nat, numWorkers: nat) returns (out: Outcome)
    requires workerId < numWorkers
    ensures out == Tally(Owned(lines, workerId, numWorkers))
  {
    var sum: real, amount: int, unknown: int := 0.0, 0, 0;
    var lineNumber := 0;
    while lineNumber < |lines|
      invariant lineNumber <= |lines|
      invariant Tally(Owned(lines[..lineNumber], workerId, numWorkers)) == Finished(Aggregate(sum, amount, unknown))
    {
      var res := lines[lineNumber];
      WorkerStep(lines, lineNumber, workerId, numWorkers, Aggregate(sum, amount, unknown));
      if Owns(workerId, numWorkers, lineNumber) {
        if res.Unknown? {
          unknown := unknown + 1;
        } else if res.Invalid? {
          OwnedAbort(lines, lineNumber, workerId, numWorkers);
          return Aborted;
        } else {
          sum := sum + res.seconds;
          amount := amount + 1;
        }
      }
      lineNumber := lineNumber + 1;
    }
    assert lines[..lineNumber] == lines;
    out := Finished(Aggregate(sum, amount, unknown));
  }

  /** With one worker, the worker handles every line: the serial checker is
      the one-worker case. */
  lemma {:induction false} SingleWorkerOwnsAll(lines: seq<Classification>)
    ensures Owned(lines, 0, 1) == lines
  {
    if lines != [] {
      var init := lines[..|lines| - 1];
      SingleWorkerOwnsAll(init);
      assert lines == init + [lines[|lines| - 1]];
    }
  }

  // ----- all workers together --------------------------------------------

  lemma {:induction false} WorkersOfEmptyInput(numWorkers: nat, k: nat)
    requires numWorkers >= 1
    ensures MergeAll(WorkerAggregates([], numWorkers, k)) == Zero()
  {
    if k > 0 {
      WorkersOfEmptyInput(numWorkers, k - 1);
      assert Owned([], k - 1, numWorkers) == [];
      assert Total([]) == Zero();
      MergeAllSnoc(WorkerAggregates([], numWorkers, k - 1), Zero());
    }
  }

  /** Appending a line adds its contribution to its owner's total only. */
  lemma TotalOwnedSnoc(lines: seq<Classification>, c: Classification, workerId: nat, numWorkers: nat)
    requires numWorkers >= 1
    ensures Total(Owned(lines + [c], workerId, numWorkers))
         == Add(Total(Owned(lines, workerId, numWorkers)),
                if Owns(workerId, numWorkers, |lines|) then Contribution(c) else Zero())
  {
    OwnedSnoc(lines, c, workerId, numWorkers);
    var owned := Owned(lines, workerId, numWorkers);
    if Owns(workerId, numWorkers, |lines|) {
      TotalSnoc(owned, c);
    } else {
      assert owned + [] == owned;
    }
  }

  lemma AddShare(m: Aggregate, w: Aggregate, c: Classification, owner: nat, k: nat)
    requires k > 0
    ensures Add(Add(m, if owner < k - 1 then Contribution(c) else Zero()),
                Add(w, if owner == k - 1 then Contribution(c) else Zero()))
         == Add(Add(m, w), if owner < k then Contribution(c) else Zero())
  {
  }

  /** One step of the merge: the line's contribution moves into the record
      of worker `k-1` when that worker is its owner. */
  lemma MergeShareSnoc(after: seq<Aggregate>, before: seq<Aggregate>, mine: Aggregate, was: Aggregate,
                       c: Classification, owner: nat, k: nat)
    requires k > 0
    requires MergeAll(after) == Add(MergeAll(before), if owner < k - 1 then Contribution(c) else Zero())
    requires mine == Add(was, if owner == k - 1 then Contribution(c) else Zero())
    ensures MergeAll(after + [mine]) == Add(MergeAll(before + [was]), if owner < k then Contribution(c) else Zero())
  {
    MergeAllSnoc(after, mine);
    MergeAllSnoc(before, was);
    AddShare(MergeAll(before), was, c, owner, k);
  }

  /** Appending a line adds its contribution to the merge of workers
      `0 .. k-1` exactly when its owner is among them. */
  lemma {:induction false} WorkersSnoc(lines: seq<Classification>, c: Classification, numWorkers: nat, k: nat)
    requires numWorkers >= 1
    ensures MergeAll(WorkerAggregates(lines + [c], numWorkers, k))
         == Add(MergeAll(WorkerAggregates(lines, numWorkers, k)),
                if |lines| % numWorkers < k then Contribution(c) else Zero())
  {
    if k > 0 {
      var after, before := WorkerAggregates(lines + [c], numWorkers, k - 1), WorkerAggregates(lines, numWorkers, k - 1);
      var mine, was := Total(Owned(lines + [c], k - 1, numWorkers)), Total(Owned(lines, k - 1, numWorkers));
      assert WorkerAggregates(lines + [c], numWorkers, k) == after + [mine];
      assert WorkerAggregates(lines, numWorkers, k) == before + [was];
      WorkersSnoc(lines, c, numWorkers, k - 1);
      TotalOwnedSnoc(lines, c, k - 1, numWorkers);
      MergeShareSnoc(after, before, mine, was, c, |lines| % numWorkers, k);
    }
  }

  /** The field-wise sum of the `n` workers' records is the total of all
      lines. */
  lemma {:induction false} WorkersSumToTotal(lines: seq<Classification>, numWorkers: nat)
    requires numWorkers >= 1
    ensures MergeAll(WorkerAggregates(lines, numWorkers, numWorkers)) == Total(lines)
  {
    if lines == [] {
      WorkersOfEmptyInput(numWorkers, numWorkers);
    } else {
      var init := lines[..|lines| - 1];
      var c := lines[|lines| - 1];
      assert lines == init + [c];
      WorkersSumToTotal(init, numWorkers);
      WorkersSnoc(init, c, numWorkers, numWorkers);
    }
  }

  /** The record in position `w` is worker `w`'s total. */
  lemma {:induction false} WorkerAggregatesAt(lines: seq<Classification>, numWorkers: nat, k: nat, w: nat)
    requires numWorkers >= 1 && w < k
    ensures WorkerAggregates(lines, numWorkers, k)[w] == Total(Owned(lines, w, numWorkers))
  {
    if w < k - 1 {
      WorkerAggregatesAt(lines, numWorkers, k - 1, w);
    }
  }

  /** Some worker meets an illegal URL exactly when the input holds one. */
  lemma WorkersMeetEveryInvalid(lines: seq<Classification>, numWorkers: nat)
    requires numWorkers >= 1
    ensures (exists w: nat :: w < numWorkers && Invalid in Owned(lines, w, numWorkers)) <==> Invalid in lines
  {
    if Invalid in lines {
      InvalidHasOwner(lines, numWorkers);
    } else {
      forall w: nat | w < numWorkers
        ensures Invalid !in Owned(lines, w, numWorkers)
      {
        OwnedMembers(lines, w, numWorkers);
      }
    }
  }

  lemma InvalidHasOwner(lines: seq<Classification>, numWorkers: nat)
    requires numWorkers >= 1 && Invalid in lines
    ensures exists w: nat :: w < numWorkers && Invalid in Owned(lines, w, numWorkers)
  {
    var i :| 0 <= i < |lines| && lines[i] == Invalid;
    var owner: nat := i % numWorkers;
    OwnedMembers(lines, owner, numWorkers);
    assert owner < numWorkers && Invalid in Owned(lines, owner, numWorkers);
  }

  /** The central claim: `n` workers, each running the serial loop on its
      own lines, stop on an illegal URL exactly when the serial checker
      does, and otherwise their records, added field by field, equal the
      serial checker's record. */
  lemma ParallelAgreesWithSerial(lines: seq<Classification>, numWorkers: nat)
    requires numWorkers >= 1
    ensures (forall w: nat :: w < numWorkers ==> Tally(Owned(lines, w, numWorkers)).Finished?)
            <==> Tally(lines).Finished?
    ensures Tally(lines).Finished? ==>
      forall w: nat :: w < numWorkers ==>
        Tally(Owned(lines, w, numWorkers)).agg == WorkerAggregates(lines, numWorkers, numWorkers)[w]
    ensures Tally(lines).Finished? ==>
      Tally(lines).agg == MergeAll(WorkerAggregates(lines, numWorkers, numWorkers))
  {
    TallyClosedForm(lines);
    WorkersSumToTotal(lines, numWorkers);
    WorkersMeetEveryInvalid(lines, numWorkers);
    forall w: nat | w < numWorkers
      ensures Tally(Owned(lines, w, numWorkers)) ==
        if Invalid in Owned(lines, w, numWorkers) then Aborted else Finished(Total(Owned(lines, w, numWorkers)))
    {
      TallyClosedForm(Owned(lines, w, numWorkers));
    }
    forall w: nat | w < numWorkers
      ensures WorkerAggregates(lines, numWorkers, numWorkers)[w] == Total(Owned(lines, w, numWorkers))
    {
      WorkerAggregatesAt(lines, numWorkers, numWorkers, w);
    }
  }
}
