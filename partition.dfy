/// Which worker handles which input line: line `i` belongs to worker
/// `i % n` (`line_number % num_of_workers == worker_id`).
module Partition {

  /** The ownership test both worker loops apply to every line. */
  predicate Owns(workerId: nat, numWorkers: nat, lineNumber: nat)
    requires numWorkers >= 1
  {
    lineNumber % numWorkers == workerId
  }

  /** The line numbers below `len` that worker `workerId` handles. */
  function OwnedIndices(workerId: nat, numWorkers: nat, len: nat): set<nat>
    requires numWorkers >= 1
  {
    set i: nat | i < len && Owns(workerId, numWorkers, i)
  }

  /** The line numbers handled by workers `0 .. k-1` together. */
  function UnionOwned(k: nat, numWorkers: nat, len: nat): set<nat>
    requires numWorkers >= 1
  {
    if k == 0 then {} else UnionOwned(k - 1, numWorkers, len) + OwnedIndices(k - 1, numWorkers, len)
  }

  /** The line numbers `0 .. len-1`. */
  function AllIndices(len: nat): (all: set<nat>)
    ensures forall i: nat :: i in all <==> i < len
  {
    if len == 0 then {} else AllIndices(len - 1) + {len - 1}
  }

  /** Workers `0 .. k-1` together handle exactly the lines whose number
      leaves a remainder below `k`. */
  lemma {:induction false} UnionOwnedBelow(k: nat, numWorkers: nat, len: nat)
    requires numWorkers >= 1
    ensures UnionOwned(k, numWorkers, len) == set i: nat | i < len && i % numWorkers < k
  {
    if k > 0 {
      UnionOwnedBelow(k - 1, numWorkers, len);
    }
  }

  /** Every line is handled by exactly one of the `n` workers, namely worker
      `i % n`: the workers' line sets are pairwise disjoint and together
      cover every line. */
  lemma OwnershipIsPartition(numWorkers: nat, len: nat)
    requires numWorkers >= 1
    ensures UnionOwned(numWorkers, numWorkers, len) == AllIndices(len)
    ensures forall v: nat, w: nat :: v < numWorkers && w < numWorkers && v != w ==>
      OwnedIndices(v, numWorkers, len) !! OwnedIndices(w, numWorkers, len)
    ensures forall i: nat :: i < len ==> i in OwnedIndices(i % numWorkers, numWorkers, len)
  {
    UnionOwnedBelow(numWorkers, numWorkers, len);
  }

  lemma MulMonotone(n: nat, a: int, b: int)
    requires a <= b
    ensures n * a <= n * b
  {
    var d: nat := b - a;
    assert n * b == n * a + n * d;
  }

  /** Worker `w`'s `m`-th line number, `w + m * n`, leaves remainder `w`. */
  lemma MultipleRemainder(w: nat, m: nat, n: nat)
    requires w < n
    ensures Owns(w, n, w + m * n)
  {
    var x := w + m * n;
    var q := x / n;
    assert x == n * q + x % n;
    if q < m {
      MulMonotone(n, q, m - 1);
    } else if q > m {
      MulMonotone(n, m + 1, q);
    }
  }

  /** The only line number worker `w` owns in the `n` numbers up to
      `w + m * n` is `w + m * n` itself. */
  lemma Pinned(len: nat, w: nat, m: nat, n: nat)
    requires w < n && w + m * n < len + n && len <= w + m * n && Owns(w, n, len)
    ensures len == w + m * n
  {
    var q := len / n;
    assert len == n * q + w;
    if q < m {
      MulMonotone(n, q, m - 1);
    } else if q > m {
      MulMonotone(n, m + 1, q);
    }
  }
}
