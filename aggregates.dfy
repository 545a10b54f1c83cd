/// The `ResultStruct` record that every checker fills in, and the
/// field-wise addition that merges finished records into a running total.
module Aggregates {

  /** The running totals of one checker: the latency `sum`, the number of
      sites that answered (`amount`) and the number of failed probes
      (`unknown`). */
  datatype Aggregate = Aggregate(sum: real, amount: int, unknown: int)

  /** A zero-initialised record (`ResultStruct results = {0}`). */
  function Zero(): Aggregate
  {
    Aggregate(0.0, 0, 0)
  }

  /** Field-wise addition of two records. */
  function Add(a: Aggregate, b: Aggregate): Aggregate
  {
    Aggregate(a.sum + b.sum, a.amount + b.amount, a.unknown + b.unknown)
  }

  /** The total of a sequence of records, added one after the other from the
      first to the last, starting from `Zero`. */
  function MergeAll(records: seq<Aggregate>): Aggregate
  {
    if records == [] then Zero()
    else Add(MergeAll(records[..|records| - 1]), records[|records| - 1])
  }

  lemma MergeAllSnoc(records: seq<Aggregate>, r: Aggregate)
    ensures MergeAll(records + [r]) == Add(MergeAll(records), r)
  {
    assert (records + [r])[..|records|] == records;
  }

  /** Merging a concatenation is adding the merges of its two parts. */
  lemma {:induction false} MergeAllAppend(a: seq<Aggregate>, b: seq<Aggregate>)
    ensures MergeAll(a + b) == Add(MergeAll(a), MergeAll(b))
    decreases |b|
  {
    if b == [] {
      assert a + b == a;
    } else {
      var init := b[..|b| - 1];
      assert a + b == (a + init) + [b[|b| - 1]];
      assert b == init + [b[|b| - 1]];
      MergeAllSnoc(a + init, b[|b| - 1]);
      MergeAllSnoc(init, b[|b| - 1]);
      MergeAllAppend(a, init);
    }
  }

  lemma AddRotate(p: Aggregate, x: Aggregate, q: Aggregate)
    ensures Add(Add(p, x), q) == Add(Add(p, q), x)
  {
  }

  /** Taking one record out of the sequence and adding it at the end gives
      the same total. */
  lemma MergeAllRemove(b: seq<Aggregate>, j: nat)
    requires j < |b|
    ensures MergeAll(b) == Add(MergeAll(b[..j] + b[j + 1..]), b[j])
  {
    var p, x, q := b[..j], b[j], b[j + 1..];
    assert b == (p + [x]) + q;
    MergeAllAppend(p + [x], q);
    MergeAllSnoc(p, x);
    MergeAllAppend(p, q);
    AddRotate(MergeAll(p), x, MergeAll(q));
  }

  /** The merge does not depend on the order in which the records arrive:
      any permutation of the records gives the same total. */
  lemma {:induction false} MergeAllPermutation(a: seq<Aggregate>, b: seq<Aggregate>)
    requires multiset(a) == multiset(b)
    ensures MergeAll(a) == MergeAll(b)
    decreases |a|
  {
    if a == [] {
      assert |b| == |multiset(b)| == 0;
    } else {
      var last := a[|a| - 1];
      var init := a[..|a| - 1];
      assert a == init + [last];
      assert last in multiset(b);
      var j :| 0 <= j < |b| && b[j] == last;
      var rest := b[..j] + b[j + 1..];
      assert b == b[..j] + [last] + b[j + 1..];
      calc {
        multiset(rest);
        multiset(b[..j]) + multiset(b[j + 1..]);
        multiset(b) - multiset{last};
        multiset(a) - multiset{last};
        multiset(init);
      }
      MergeAllPermutation(init, rest);
      MergeAllRemove(b, j);
    }
  }
}
