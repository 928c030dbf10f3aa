/** A RollingUpdate whose pods become available between passes finishes. */
module RollingConvergence {
  import opened Basics
  import opened Workloads
  import opened RecreateSync
  import opened RollingUpdate
  import opened FullRegions
  import RecreateRuns
  import RollingRuns

  /** One pass, after which every pod asked for becomes available. A pass the settings stop
      changes nothing. */
  function PassThenSettle(settings: Settings, desired: nat, r: Ready): Ready {
    var newest := Subset(r.newest, r.newest, Held(r.newest));
    match RollingPass(settings, desired, newest, AllAvailable(r.olds))
    case None => r
    case Some((newest', olds')) =>
      Ready(if newest'.stored.Held? then newest'.stored.replicas else 0, Specs(Persisted(olds')))
  }

  /** One reconcile pass, after which every pod asked for becomes available: a region whose new
      workload has the desired number is saturated and cleaned, any other is rolled. */
  function Round(settings: Settings, desired: nat, r: Ready): Ready {
    if r.newest == desired then Cleaned(desired, r) else PassThenSettle(settings, desired, r)
  }

  function Rounds(settings: Settings, desired: nat, r: Ready, n: nat): Ready
    decreases n
  {
    if n == 0 then r else Rounds(settings, desired, Round(settings, desired, r), n - 1)
  }

  /** Both kinds of round are steps of the runs. */
  lemma RoundIsAStep(settings: Settings, desired: nat, r: Ready)
    ensures var full := Full(desired, r);
            exists step, r' :: RollingRuns.Next(settings, full, step, r') && r'.newest.Some?
                               && Round(settings, desired, r) == Rested(r')
  {
    var full := Full(desired, r);
    if r.newest == desired {
      CleanedIsDone(desired, r);
      var r' := full.(olds := RecreateRuns.Emptied(full.olds, {}, 0));
      assert RollingRuns.Next(settings, full, RollingRuns.Event(RecreateRuns.CleanSaturated({})), r');
    } else {
      FullIsListed(desired, r);
      var r' := RollingRuns.AfterPass(settings, full);
      assert Specs(full.olds) == r.olds;
      assert RollingRuns.Next(settings, full, RollingRuns.Pass, r');
    }
  }

  /** Replicas still to be moved. */
  function Distance(desired: nat, r: Ready): nat {
    Max(desired - r.newest, r.newest - desired) + Total(r.olds)
  }

  /** The olds' total after one pass, in closed form. */
  lemma OldsAfter(settings: Settings, desired: nat, r: Ready)
    ensures var newest := Subset(r.newest, r.newest, Held(r.newest));
            var olds' := RollOlds(MinAvailable(settings, desired), newest, AllAvailable(r.olds));
            Total(Specs(Persisted(olds')))
            == Max(0, Total(r.olds)
                      - Max(0, Total(r.olds) + r.newest - MinAvailable(settings, desired)))
  {
    var newest := Subset(r.newest, r.newest, Held(r.newest));
    var floor := MinAvailable(settings, desired);
    var olds := AllAvailable(r.olds);
    AvailableTotals(r.olds);
    FreshTotals(olds);
    CleanupIdle(olds, ViewTotal(olds) + r.newest - floor);
    RollDownExact(olds, ViewTotal(olds) + r.newest - floor);
    var olds' := RollOlds(floor, newest, olds);
    assert olds' == if Total(r.olds) == 0 || Total(r.olds) + r.newest - floor <= 0 then olds
                    else RollDown(olds, ViewTotal(olds) + r.newest - floor);
    PersistedTotals(olds');
    SpecsTotal(Persisted(olds'));
  }

  // ---------- one pass ----------

  /** There is something a pass may do: scale the new workload down; or, unless the settings stop
      it, scale it up within the surge or scale olds down within what may be unavailable. */
  predicate Moves(settings: Settings, desired: nat, r: Ready) {
    var surge, all := Resolve(settings.maxSurge, desired), r.newest + Total(r.olds);
    || r.newest > desired
    || (r.newest < desired && surge.Some? && all < desired + surge.value)
    || ((r.newest == desired || surge.Some?) && Total(r.olds) > 0 && all > MinAvailable(settings, desired))
  }

  /** Whatever the settings, a pass brings the region closer exactly when there is something it
      may do, and otherwise leaves it as it was. */
  lemma PassProgress(settings: Settings, desired: nat, r: Ready)
    ensures var r' := PassThenSettle(settings, desired, r);
            && (Distance(desired, r') < Distance(desired, r) <==> Moves(settings, desired, r))
            && (!Moves(settings, desired, r) ==> r'.newest == r.newest && Total(r'.olds) == Total(r.olds))
  {
    OldsAfter(settings, desired, r);
    AvailableTotals(r.olds);
  }

  // ---------- settings ----------

  /** What can be checked before a rollout: the desired number is zero; or the surge is given,
      readable and not negative, and surge and maxUnavailable together leave room to move. */
  predicate Finishing(settings: Settings, desired: nat) {
    var surge := Resolve(settings.maxSurge, desired);
    desired == 0 || (surge.Some? && surge.value >= 0 && surge.value + MaxUnavailable(settings, desired) > 0)
  }

  /** Where surge and maxUnavailable are not negative, there is no room to move exactly when the
      surge is zero and maxUnavailable cannot be read: its error is dropped and it counts as zero. */
  lemma NoRoomExactly(settings: Settings, desired: nat)
    requires desired > 0 && MaxUnavailable(settings, desired) >= 0
    requires Resolve(settings.maxSurge, desired).Some? && Resolve(settings.maxSurge, desired).value >= 0
    ensures !Finishing(settings, desired)
       <==> Resolve(settings.maxSurge, desired) == Some(0) && settings.maxUnavailable == Some(Malformed)
  {
  }

  lemma FinishingMoves(settings: Settings, desired: nat, r: Ready)
    requires Finishing(settings, desired) && r.newest != desired
    ensures Moves(settings, desired, r)
  {
  }

  // ---------- rollouts that end ----------

  ghost predicate Ends(settings: Settings, desired: nat, r: Ready) {
    exists n: nat :: Done(desired, Rounds(settings, desired, r, n))
  }

  /** The rollout ends, with the new workload at the desired number and every old at zero,
      after at most as many rounds as there are replicas to move. */
  lemma {:induction false} RolloutCompletes(settings: Settings, desired: nat, r: Ready, n: nat)
    requires Finishing(settings, desired) && n >= Distance(desired, r)
    ensures Done(desired, Rounds(settings, desired, r, n))
    decreases n
  {
    if n == 0 {
    } else {
      if r.newest == desired {
        CleanedIsDone(desired, r);
      } else {
        FinishingMoves(settings, desired, r);
        PassProgress(settings, desired, r);
      }
      RolloutCompletes(settings, desired, Round(settings, desired, r), n - 1);
    }
  }

  // ---------- rollouts that never end ----------

  /** A surge that is left out or cannot be read stops every pass: a new workload below the
      desired number never moves. */
  lemma {:induction false} NoSurgeNeverMoves(settings: Settings, desired: nat, r: Ready, n: nat)
    requires Resolve(settings.maxSurge, desired).None? && r.newest < desired
    ensures Rounds(settings, desired, r, n) == r
    decreases n
  {
    if n == 0 {
    } else {
      NoSurgeNeverMoves(settings, desired, r, n - 1);
    }
  }

  /** A region that is not saturated and that nothing may move stays as it is. */
  lemma {:induction false} StuckForever(settings: Settings, desired: nat, r: Ready, n: nat)
    requires r.newest != desired && !Moves(settings, desired, r)
    ensures var r' := Rounds(settings, desired, r, n);
            r'.newest == r.newest && Total(r'.olds) == Total(r.olds)
    decreases n
  {
    if n == 0 {
    } else {
      PassProgress(settings, desired, r);
      StuckForever(settings, desired, PassThenSettle(settings, desired, r), n - 1);
    }
  }

  /** A region the settings never finish, for each way they can fail: no usable surge; a ceiling
      below the desired number; a ceiling that is at or below the floor. */
  function Unfinishable(settings: Settings, desired: nat): Ready
    requires desired > 0
  {
    var surge := Resolve(settings.maxSurge, desired);
    if surge.None? then Ready(0, [])
    else if surge.value < 0 then Ready(desired - 1, [])
    else Ready(0, [desired + surge.value])
  }

  lemma NeverEnds(settings: Settings, desired: nat)
    requires !Finishing(settings, desired)
    ensures !Ends(settings, desired, Unfinishable(settings, desired))
  {
    var surge, r := Resolve(settings.maxSurge, desired), Unfinishable(settings, desired);
    assert surge.Some? && surge.value >= 0 ==> Total([desired + surge.value]) == desired + surge.value;
    forall n: nat ensures !Done(desired, Rounds(settings, desired, r, n)) {
      StuckForever(settings, desired, r, n);
    }
  }

  /** For all settings and desired numbers: every rollout ends exactly when the settings are
      finishing ones. */
  lemma RolloutsEndExactly(settings: Settings, desired: nat)
    ensures Finishing(settings, desired) <==> forall r :: Ends(settings, desired, r)
  {
    if Finishing(settings, desired) {
      forall r ensures Ends(settings, desired, r) {
        RolloutCompletes(settings, desired, r, Distance(desired, r));
      }
    } else {
      NeverEnds(settings, desired);
    }
  }
}
