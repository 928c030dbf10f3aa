/** A ReCreate rollout whose pods become available between passes finishes: the new workload
    reaches the desired number, and then the cleanup of the saturated region empties the olds
    that the passes skipped. */
module RecreateConvergence {
  import opened Basics
  import opened Workloads
  import opened RecreateSync
  import opened RecreateRuns
  import opened FullRegions

  /** One reconcile pass, after which every pod asked for becomes available: a saturated region
      is cleaned, any other is synced. */
  function Round(strategy: RolloutStrategy, batch: nat, desired: nat, r: Ready): Ready {
    var full := Full(desired, r);
    if full.Saturated() then Cleaned(desired, r) else Rested(AfterSync(full, strategy, batch))
  }

  function Rounds(strategy: RolloutStrategy, batch: nat, desired: nat, r: Ready, n: nat): Ready
    decreases n
  {
    if n == 0 then r else Rounds(strategy, batch, desired, Round(strategy, batch, desired, r), n - 1)
  }

  /** Both kinds of pass are steps of the runs. */
  lemma RoundIsAStep(strategy: RolloutStrategy, batch: nat, desired: nat, r: Ready)
    ensures var full := Full(desired, r);
            exists step, r' :: Next(full, step, r') && r'.newest.Some?
                               && Round(strategy, batch, desired, r) == Rested(r')
  {
    var full := Full(desired, r);
    if full.Saturated() {
      CleanedIsDone(desired, r);
    } else {
      assert Next(full, Sync(strategy, batch), AfterSync(full, strategy, batch));
    }
  }

  /** The new workload after one pass; a pass at the desired number empties the olds. */
  lemma AfterRound(strategy: RolloutStrategy, batch: nat, desired: nat, r: Ready)
    ensures var r' := Round(strategy, batch, desired, r);
            && r'.newest == r.newest + StepSize(strategy, batch, desired, r.newest)
            && (r.newest == desired ==> Total(r'.olds) == 0)
  {
    if r.newest == desired {
      CleanedIsDone(desired, r);
    } else {
      FullIsListed(desired, r);
      var olds := AllAvailable(r.olds);
      CleanupIdle(olds, ViewTotal(olds) + r.newest - desired);
    }
  }

  ghost predicate Finishes(strategy: RolloutStrategy, batch: nat, desired: nat, r: Ready) {
    exists n: nat :: Done(desired, Rounds(strategy, batch, desired, r, n))
  }

  /** It takes at most as many passes as the new workload is away from the desired number, and
      the one that empties the olds. */
  lemma {:induction false} RecreateCompletes(strategy: RolloutStrategy, batch: nat, desired: nat, r: Ready, n: nat)
    requires batch >= 1 && !strategy.Unset?
    requires n > Max(desired - r.newest, r.newest - desired) || (n == 0 && Done(desired, r))
    ensures Done(desired, Rounds(strategy, batch, desired, r, n))
    decreases n
  {
    if n == 0 {
    } else {
      AfterRound(strategy, batch, desired, r);
      RecreateCompletes(strategy, batch, desired, Round(strategy, batch, desired, r), n - 1);
    }
  }

  lemma {:induction false} NoStepNoEnd(strategy: RolloutStrategy, batch: nat, desired: nat, r: Ready, n: nat)
    requires batch == 0 || strategy.Unset?
    requires r.newest != desired && r.newest != 0
    ensures Rounds(strategy, batch, desired, r, n).newest == r.newest
    decreases n
  {
    if n == 0 {
    } else {
      AfterRound(strategy, batch, desired, r);
      NoStepNoEnd(strategy, batch, desired, Round(strategy, batch, desired, r), n - 1);
    }
  }

  /** Every rollout finishes exactly when the batch is not empty and the rollout type is set. */
  lemma RecreateFinishesExactly(strategy: RolloutStrategy, batch: nat, desired: nat)
    ensures batch >= 1 && !strategy.Unset? <==> forall r :: Finishes(strategy, batch, desired, r)
  {
    if batch >= 1 && !strategy.Unset? {
      forall r ensures Finishes(strategy, batch, desired, r) {
        RecreateCompletes(strategy, batch, desired, r, Max(desired - r.newest, r.newest - desired) + 1);
      }
    } else {
      var r := Ready(desired + 1, []);
      forall n: nat ensures !Done(desired, Rounds(strategy, batch, desired, r, n)) {
        NoStepNoEnd(strategy, batch, desired, r, n);
      }
      assert !Finishes(strategy, batch, desired, r);
    }
  }

  /** From `x` towards `desired`, by `m` replicas and not past it. */
  function Toward(desired: nat, x: nat, m: nat): nat {
    if x > desired then Max(desired, x - m) else Min(desired, x + m)
  }

  lemma OneBatch(strategy: RolloutStrategy, batch: nat, desired: nat, r: Ready)
    requires strategy.Group? || (strategy.Beta? && r.newest != 0)
    ensures var next := Round(strategy, batch, desired, r).newest;
            next == Toward(desired, r.newest, batch) && (next == 0 ==> next == desired || strategy.Group?)
  {
    AfterRound(strategy, batch, desired, r);
  }

  lemma TowardTwice(desired: nat, x: nat, batch: nat, n: nat)
    requires n > 0
    ensures (n - 1) * batch >= 0 && n * batch >= 0
    ensures Toward(desired, Toward(desired, x, batch), (n - 1) * batch) == Toward(desired, x, n * batch)
  {
    assert n * batch == (n - 1) * batch + batch;
  }

  /** Every round moves a full batch, up or down, until the desired number is reached. */
  lemma {:induction false} FullBatches(strategy: RolloutStrategy, batch: nat, desired: nat, r: Ready, n: nat)
    requires strategy.Group? || (strategy.Beta? && r.newest != 0)
    ensures Rounds(strategy, batch, desired, r, n).newest == Toward(desired, r.newest, n * batch)
    decreases n
  {
    if n == 0 {
    } else {
      var r' := Round(strategy, batch, desired, r);
      OneBatch(strategy, batch, desired, r);
      TowardTwice(desired, r.newest, batch, n);
      if r'.newest == desired {
        StaysAtDesired(strategy, batch, desired, r', n - 1);
      } else {
        FullBatches(strategy, batch, desired, r', n - 1);
      }
    }
  }

  lemma {:induction false} StaysAtDesired(strategy: RolloutStrategy, batch: nat, desired: nat, r: Ready, n: nat)
    requires r.newest == desired
    ensures Rounds(strategy, batch, desired, r, n).newest == desired
    decreases n
  {
    if n == 0 {
    } else {
      AfterRound(strategy, batch, desired, r);
      StaysAtDesired(strategy, batch, desired, Round(strategy, batch, desired, r), n - 1);
    }
  }

  /** A Beta rollout starts with one replica. */
  lemma BetaStartsWithOne(batch: nat, desired: nat, r: Ready)
    requires r.newest == 0
    ensures Round(Beta, batch, desired, r).newest == Min(desired, 1)
  {
    AfterRound(Beta, batch, desired, r);
  }
}
