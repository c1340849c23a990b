/**
 * The rotating cursor of the periodic tasks (nova/virt/incus/manager.py): each
 * cycle works on one bounded batch and remembers where to go on.
 */
module Cursor {

  function Least(a: nat, b: nat): nat {
    if a < b then a else b
  }

  /** The candidate `d` places after `start`, going round. */
  function Around<T>(candidates: seq<T>, start: nat, d: nat): T
    requires start < |candidates| && d < |candidates|
  {
    candidates[Step(|candidates|, start, d)]
  }

  /** `(start + d) % n` without the division. */
  function Step(n: nat, start: nat, d: nat): (i: nat)
    requires start < n && d <= n
    ensures i < n && i == (start + d) % n
  {
    RemainderOfSum(start + d, n);
    if start + d < n then start + d else start + d - n
  }

  lemma RemainderOfSum(x: nat, n: nat)
    requires 0 < n && x < 2 * n
    ensures x % n == if x < n then x else x - n
  {
  }

  /** Where a cycle starts; a stored cursor may be past the end of a shorter list. */
  function StartAt(cursor: nat, n: nat): (start: nat)
    requires 0 < n
    ensures start < n && (cursor < n ==> start == cursor)
  {
    cursor % n
  }

  /** One periodic task and its cursor field. */
  class Task {
    var cursor: nat

    constructor ()
      ensures cursor == 0
    {
      cursor := 0;
    }

    /** One cycle: the batch that starts at the cursor, and where the next one starts. */
    method NextBatch<T>(candidates: seq<T>, size: nat) returns (batch: seq<T>)
      requires size > 0
      modifies this
      ensures candidates == [] ==> batch == [] && cursor == 0
      ensures candidates != [] ==>
        var n, start := |candidates|, StartAt(old(cursor), |candidates|);
        && |batch| == Least(size, n)
        && cursor == Step(n, start, |batch|)
        && forall j: nat | j < |batch| :: batch[j] == Around(candidates, start, j)
    {
      if candidates == [] {
        cursor := 0;
        return [];
      }
      var start := StartAt(cursor, |candidates|);
      var ordered := candidates[start..] + candidates[..start];
      batch := ordered[..Least(size, |ordered|)];
      cursor := (start + |batch|) % |candidates|;
      forall j: nat | j < |batch| ensures batch[j] == Around(candidates, start, j) {
      }
    }

    /**
     * Cycles over a list that does not change: once they could have covered as
     * many candidates as there are, every candidate was in some batch, whatever
     * the cursor was at first.
     */
    method Cycles<T>(candidates: seq<T>, size: nat, rounds: nat) returns (batches: seq<seq<T>>)
      requires size > 0
      modifies this
      ensures |batches| == rounds
      ensures rounds * size >= |candidates| ==>
        forall i | 0 <= i < |candidates| :: Batched(batches, candidates[i])
    {
      if candidates == [] {
        batches := [];
        for k := 0 to rounds
          invariant |batches| == k
        {
          var batch := NextBatch(candidates, size);
          batches := batches + [batch];
        }
        return;
      }
      ghost var first := StartAt(cursor, |candidates|);
      batches := RepeatBatches(candidates, size, rounds);
      if rounds * size >= |candidates| {
        RoundsSuffice(rounds, size, |candidates|);
        AllBatched(candidates, batches, first);
      }
    }

    method RepeatBatches<T>(candidates: seq<T>, size: nat, rounds: nat) returns (batches: seq<seq<T>>)
      requires size > 0 && candidates != []
      modifies this
      ensures |batches| == rounds
      ensures BatchedUpTo(candidates, batches, StartAt(old(cursor), |candidates|),
                          Least(Times(rounds, Least(size, |candidates|)), |candidates|))
    {
      batches := [];
      ghost var n := |candidates|;
      ghost var b := Least(size, n);
      ghost var first := StartAt(cursor, n);
      for k := 0 to rounds
        invariant |batches| == k
        invariant Times(k, b) < n ==> StartAt(cursor, n) == Step(n, first, Times(k, b))
        invariant BatchedUpTo(candidates, batches, first, Least(Times(k, b), n))
      {
        ghost var before := batches;
        ghost var start := StartAt(cursor, n);
        var batch := NextBatch(candidates, size);
        batches := batches + [batch];
        OneMoreBatch(candidates, before, batch, first, start, Times(k, b));
      }
    }
  }

  ghost function Times(k: nat, b: nat): nat {
    if k == 0 then 0 else Times(k - 1, b) + b
  }

  lemma {:induction false} TimesIsProduct(k: nat, b: nat)
    ensures Times(k, b) == k * b
  {
    if k > 0 {
      TimesIsProduct(k - 1, b);
    }
  }

  /** The candidates less than `done` places after `first` have each been in some batch. */
  ghost predicate BatchedUpTo<T>(candidates: seq<T>, batches: seq<seq<T>>, first: nat, done: nat)
    requires first < |candidates| && done <= |candidates|
  {
    forall d: nat | d < done :: Batched(batches, Around(candidates, first, d))
  }

  lemma StepStep(n: nat, start: nat, d: nat, e: nat)
    requires start < n && d + e <= n
    ensures Step(n, Step(n, start, d), e) == Step(n, start, d + e)
  {
  }

  lemma StillBatched<T>(batches: seq<seq<T>>, batch: seq<T>, x: T)
    requires Batched(batches, x)
    ensures Batched(batches + [batch], x)
  {
    var t :| 0 <= t < |batches| && x in batches[t];
    assert (batches + [batch])[t] == batches[t];
  }

  lemma OneMoreBatch<T>(
      candidates: seq<T>, batches: seq<seq<T>>, batch: seq<T>, first: nat, start: nat, sum: nat)
    requires first < |candidates| && start < |candidates|
    requires BatchedUpTo(candidates, batches, first, Least(sum, |candidates|))
    requires sum < |candidates| ==> start == Step(|candidates|, first, sum)
    requires |batch| <= |candidates|
    requires forall j: nat | j < |batch| :: batch[j] == Around(candidates, start, j)
    ensures BatchedUpTo(candidates, batches + [batch], first, Least(sum + |batch|, |candidates|))
    ensures sum + |batch| < |candidates| ==>
              Step(|candidates|, start, |batch|) == Step(|candidates|, first, sum + |batch|)
  {
    var n := |candidates|;
    forall d: nat | d < Least(sum + |batch|, n) ensures Batched(batches + [batch], Around(candidates, first, d)) {
      if d < sum {
        StillBatched(batches, batch, Around(candidates, first, d));
      } else {
        StepStep(n, first, sum, d - sum);
        assert batch[d - sum] == Around(candidates, first, d);
        assert (batches + [batch])[|batches|] == batch;
      }
    }
    if sum + |batch| < n {
      StepStep(n, first, sum, |batch|);
    }
  }

  lemma RoundsSuffice(rounds: nat, size: nat, n: nat)
    requires 0 < n && rounds * size >= n
    ensures Times(rounds, Least(size, n)) >= n
  {
    TimesIsProduct(rounds, Least(size, n));
    if size >= n {
      assert rounds == 0 ==> rounds * size == 0;
      assert rounds * n == n + (rounds - 1) * n;
    }
  }

  lemma AllBatched<T>(candidates: seq<T>, batches: seq<seq<T>>, first: nat)
    requires first < |candidates| && BatchedUpTo(candidates, batches, first, |candidates|)
    ensures forall i | 0 <= i < |candidates| :: Batched(batches, candidates[i])
  {
    var n := |candidates|;
    forall i | 0 <= i < n ensures Batched(batches, candidates[i]) {
      var d := if i >= first then i - first else i + n - first;
      assert Around(candidates, first, d) == candidates[i];
    }
  }

  predicate Batched<T(==)>(batches: seq<seq<T>>, x: T) {
    exists t | 0 <= t < |batches| :: x in batches[t]
  }
}
