/** Pods are created in batches that double as long as every call succeeds. */
module SlowStart {
  import opened Basics

  /** Calls `lo`, ..., `hi - 1` that succeed, when `ok(i)` tells how call `i` ends. */
  function Successes(ok: nat -> bool, lo: nat, hi: nat): (n: nat)
    requires lo <= hi
    ensures n <= hi - lo
    decreases hi - lo
  {
    if lo == hi then 0 else Successes(ok, lo, hi - 1) + if ok(hi - 1) then 1 else 0
  }

  lemma {:induction false} SuccessesSplit(ok: nat -> bool, lo: nat, mid: nat, hi: nat)
    requires lo <= mid <= hi
    ensures Successes(ok, lo, hi) == Successes(ok, lo, mid) + Successes(ok, mid, hi)
    decreases hi - mid
  {
    if mid == hi {
    } else {
      SuccessesSplit(ok, lo, mid, hi - 1);
    }
  }

  lemma {:induction false} AllSucceed(ok: nat -> bool, lo: nat, hi: nat)
    requires lo <= hi
    ensures Successes(ok, lo, hi) == hi - lo <==> forall i: nat :: lo <= i < hi ==> ok(i)
    decreases hi - lo
  {
    if lo == hi {
    } else {
      AllSucceed(ok, lo, hi - 1);
      assert ok(hi - 1) || !ok(hi - 1);
    }
  }

  /** Where a run of batches ends: the calls made, and the batch that had a failure, if any. */
  predicate FailedBatch(ok: nat -> bool, first: nat, calls: nat) {
    && first < calls
    && (forall i: nat :: i < first ==> ok(i))
    && exists i: nat :: first <= i < calls && !ok(i)
  }

  /** One batch: as many calls at once, and how many of them failed. */
  method RunBatch(ok: nat -> bool, first: nat, size: nat) returns (errors: nat)
    ensures errors == size - Successes(ok, first, first + size)
  {
    errors := 0;
    for i := 0 to size
      invariant errors == i - Successes(ok, first, first + i)
    {
      if !ok(first + i) {
        errors := errors + 1;
      }
    }
  }

  /** A batch after calls that all succeeded: it makes the failed batch, or all succeed again. */
  lemma AfterBatch(ok: nat -> bool, calls: nat, size: nat, errors: nat)
    requires Successes(ok, 0, calls) == calls && errors == size - Successes(ok, calls, calls + size)
    ensures Successes(ok, 0, calls + size) == calls + size - errors
    ensures errors > 0 ==> FailedBatch(ok, calls, calls + size)
  {
    SuccessesSplit(ok, 0, calls, calls + size);
    AllSucceed(ok, calls, calls + size);
    AllSucceed(ok, 0, calls);
  }

  lemma NoneFailed(ok: nat -> bool, calls: nat)
    requires Successes(ok, 0, calls) == calls
    ensures !exists i: nat :: i < calls && !ok(i)
  {
    AllSucceed(ok, 0, calls);
  }

  /** Where batches start, when none has failed: each is twice as large as the one before. */
  function Boundary(initial: nat, k: nat): nat {
    if k == 0 then 0 else 2 * Boundary(initial, k - 1) + initial
  }

  /** In closed form: `initial` times one less than a power of two. */
  lemma {:induction false} BoundaryIs(initial: nat, k: nat)
    ensures Boundary(initial, k) == initial * (Power(k) - 1)
  {
    if k == 0 {
    } else {
      BoundaryIs(initial, k - 1);
      assert initial * (2 * Power(k - 1) - 1) == 2 * (initial * (Power(k - 1) - 1)) + initial;
    }
  }

  function Power(k: nat): nat {
    if k == 0 then 1 else 2 * Power(k - 1)
  }

  /** All calls so far succeeded, and `batch` is the size of the next batch, the `k`-th. */
  ghost predicate Going(ok: nat -> bool, count: int, initial: int, calls: nat, batch: int, k: nat) {
    && calls <= Max(0, count) && Successes(ok, 0, calls) == calls
    && (initial > 0 && count > calls ==> calls == Boundary(initial, k) && batch == Min(count - calls, calls + initial))
    && (initial <= 0 || count <= calls ==> batch <= 0)
    && (initial <= 0 ==> calls == 0)
  }

  lemma GoesOn(ok: nat -> bool, count: int, initial: int, calls: nat, batch: int, k: nat)
    requires Going(ok, count, initial, calls, batch, k) && batch > 0
    requires Successes(ok, calls, calls + batch) == batch
    ensures Going(ok, count, initial, calls + batch, Min(2 * batch, count - calls - batch), k + 1)
  {
    SuccessesSplit(ok, 0, calls, calls + batch);
  }

  /** Makes up to `count` calls, of which the i-th ends as `ok(i)` says. A batch is made as a
      whole; the batch starting at `first` is the one that failed, or `first == calls`. */
  method SlowStartBatch(count: int, initialBatchSize: int, ok: nat -> bool)
      returns (successes: nat, failed: bool, calls: nat, first: nat)
    ensures calls <= Max(0, count)
    ensures successes == Successes(ok, 0, calls)
    ensures failed <==> initialBatchSize > 0 && exists i: nat :: i < count && !ok(i)
    ensures failed ==> FailedBatch(ok, first, calls)
    ensures failed ==> calls - successes <= calls - first <= Max(initialBatchSize, 2 * first)
    ensures failed ==> calls - successes <= initialBatchSize + first
    ensures failed ==> (exists k :: first == Boundary(initialBatchSize, k)) && calls == Min(count, 2 * first + initialBatchSize)
    ensures !failed ==> successes == calls == if initialBatchSize > 0 then Max(0, count) else 0
  {
    var remaining := count;
    var batch := Min(remaining, initialBatchSize);
    successes, failed, calls, first := 0, false, 0, 0;
    ghost var k: nat := 0;
    while batch > 0
      invariant remaining == count - calls && calls == successes == first
      invariant Going(ok, count, initialBatchSize, calls, batch, k)
      decreases remaining
    {
      var errors := RunBatch(ok, calls, batch);
      AfterBatch(ok, calls, batch, errors);
      calls := calls + batch;
      successes := successes + batch - errors;
      if errors > 0 {
        failed := true;
        return;
      }
      GoesOn(ok, count, initialBatchSize, first, batch, k);
      first, k := calls, k + 1;
      remaining := remaining - batch;
      batch := Min(2 * batch, remaining);
    }
    NoneFailed(ok, calls);
  }
}
