/** Availability of a region under the ReCreate strategy over whole runs: controller passes,
    creation of the new workload, template changes, pods becoming available, and the cleanup
    of a saturated region, in any order. */
module RecreateRuns {
  import opened Basics
  import opened Workloads
  import opened RecreateSync

  datatype Region = Region(desired: nat, newest: Option<Workload>, olds: seq<Workload>) {
    function Available(): nat {
      CappedTotal(olds) + (if newest.Some? then newest.value.Capped() else 0)
    }

    predicate Settled() {
      newest.Some? ==> NewSettled(desired, newest.value.spec, newest.value.avail)
    }

    /** Nothing left to roll out: the new workload has the desired replicas, all available. */
    predicate Saturated() {
      newest.Some? && newest.value.spec == desired && newest.value.avail >= newest.value.spec
    }
  }

  /** One event. `Sync` and `Create` carry the rollout settings in force at that moment. */
  datatype Step =
    | Sync(strategy: RolloutStrategy, batch: nat)
    | Create(strategy: RolloutStrategy, batch: nat)
    | Retemplate(current: Option<nat>)
    | PodsProgress(newAvail: nat, oldAvails: seq<nat>)
    | CleanSaturated(dropped: set<nat>)

  function AfterSync(r: Region, strategy: RolloutStrategy, batch: nat): Region
    requires r.newest.Some?
  {
    var newest := Observe(r.newest.value);
    var (olds, ok) := SyncOlds(r.desired, newest.avail, ObserveAll(r.olds));
    var replicas := if ok then SyncNew(strategy, batch, r.desired, newest).stored.replicas else newest.view;
    Region(r.desired, Some(Workload(replicas, newest.avail)), Persisted(olds))
  }

  /** All workloads of the region, the current new one last. */
  function Everything(r: Region): seq<Workload> {
    r.olds + (if r.newest.Some? then [r.newest.value] else [])
  }

  /** A status may grow up to the spec, or drop replicas the spec gave up; no pod fails. */
  predicate Progress(w: Workload, avail: nat) {
    Min(w.spec, avail) >= w.Capped() && avail <= Max(w.spec, w.avail)
  }

  function Restatused(olds: seq<Workload>, avails: seq<nat>): seq<Workload>
    requires |avails| == |olds|
  {
    seq(|olds|, i requires 0 <= i < |olds| => olds[i].(avail := avails[i]))
  }

  /** A saturated region scales its olds to zero and may delete those that were empty. */
  function Emptied(olds: seq<Workload>, dropped: set<nat>, base: nat): seq<Workload> {
    if olds == [] then []
    else
      var rest := Emptied(olds[1..], dropped, base + 1);
      if olds[0] == Workload(0, 0) && base in dropped then rest
      else [Workload(0, olds[0].avail)] + rest
  }

  ghost predicate Next(r: Region, step: Step, r': Region) {
    match step
    case Sync(strategy, batch) =>
      r.newest.Some? && r' == AfterSync(r, strategy, batch)
    case Create(strategy, batch) =>
      && r.newest.None?
      && r' == r.(newest := Some(Workload(StepSize(strategy, batch, r.desired, 0), 0)))
    case Retemplate(None) =>
      r' == Region(r.desired, None, Everything(r))
    case Retemplate(Some(k)) =>
      var all := Everything(r);
      && k < |all|
      && r' == Region(r.desired, Some(all[k]), all[..k] + all[k + 1..])
    case PodsProgress(newAvail, oldAvails) =>
      && |oldAvails| == |r.olds|
      && (forall i :: 0 <= i < |r.olds| ==> Progress(r.olds[i], oldAvails[i]))
      && (r.newest.Some? ==> Progress(r.newest.value, newAvail))
      && r' == Region(
                 r.desired,
                 if r.newest.Some? then Some(r.newest.value.(avail := newAvail)) else None,
                 Restatused(r.olds, oldAvails))
    case CleanSaturated(dropped) =>
      r.Saturated() && r' == r.(olds := Emptied(r.olds, dropped, 0))
  }

  lemma {:induction false} ProgressTotal(olds: seq<Workload>, avails: seq<nat>)
    requires |avails| == |olds|
    requires forall i :: 0 <= i < |olds| ==> Progress(olds[i], avails[i])
    ensures CappedTotal(Restatused(olds, avails)) >= CappedTotal(olds)
  {
    if olds == [] {
    } else {
      var tail, atail := olds[1..], avails[1..];
      forall i | 0 <= i < |tail| ensures Progress(tail[i], atail[i]) {
        assert tail[i] == olds[i + 1] && atail[i] == avails[i + 1];
      }
      ProgressTotal(tail, atail);
      assert Restatused(olds, avails)[1..] == Restatused(tail, atail);
      assert Progress(olds[0], avails[0]);
    }
  }

  lemma EverythingTotal(r: Region)
    ensures CappedTotal(Everything(r)) == r.Available()
  {
    CappedConcat(r.olds, if r.newest.Some? then [r.newest.value] else []);
  }

  /** A pass in this state keeps the floor, whatever the olds; any other event does anyway. */
  predicate Safe(r: Region, step: Step) {
    step.Sync? && r.newest.Some? ==> SyncSafe(step.strategy, step.batch, r.desired, Observe(r.newest.value))
  }

  lemma SyncStepFloor(r: Region, strategy: RolloutStrategy, batch: nat)
    requires r.newest.Some? && SyncSafe(strategy, batch, r.desired, Observe(r.newest.value))
    ensures AfterSync(r, strategy, batch).Available() >= Min(r.desired, r.Available())
  {
    ObservedTotals(r.olds);
    SyncFloor(strategy, batch, r.desired, Observe(r.newest.value), ObserveAll(r.olds));
    PersistedTotals(SyncOlds(r.desired, r.newest.value.avail, ObserveAll(r.olds)).0);
  }

  lemma RetemplateFloor(r: Region, current: Option<nat>, r': Region)
    requires Next(r, Retemplate(current), r')
    ensures r'.Available() == r.Available()
  {
    EverythingTotal(r);
    if current.Some? {
      CappedRemove(Everything(r), current.value);
    }
  }

  lemma ProgressFloor(r: Region, newAvail: nat, oldAvails: seq<nat>, r': Region)
    requires Next(r, PodsProgress(newAvail, oldAvails), r')
    ensures r'.Available() >= r.Available()
  {
    ProgressTotal(r.olds, oldAvails);
  }

  lemma CleanFloor(r: Region, dropped: set<nat>, r': Region)
    requires Next(r, CleanSaturated(dropped), r')
    ensures r'.Available() >= r.desired
  {
  }

  /** Every safe event keeps the floor. */
  lemma StepFloor(r: Region, step: Step, r': Region)
    requires Safe(r, step) && Next(r, step, r')
    ensures r'.desired == r.desired
    ensures r'.Available() >= Min(r.desired, r.Available())
  {
    match step
    case Sync(strategy, batch) =>
      SyncStepFloor(r, strategy, batch);
    case Create(_, _) =>
    case Retemplate(current) =>
      RetemplateFloor(r, current, r');
    case PodsProgress(newAvail, oldAvails) =>
      ProgressFloor(r, newAvail, oldAvails, r');
    case CleanSaturated(dropped) =>
      CleanFloor(r, dropped, r');
  }

  ghost predicate Run(states: seq<Region>, steps: seq<Step>) {
    |states| == |steps| + 1 && forall i :: 0 <= i < |steps| ==> Next(states[i], steps[i], states[i + 1])
  }

  /** Over any run whose passes start from safe states, from any moment to any later one, the
      number of available replicas never falls below what it was then, or below the desired
      number. */
  lemma {:induction false} AvailabilityOverRuns(states: seq<Region>, steps: seq<Step>, i: nat, j: nat)
    requires Run(states, steps) && i <= j < |states|
    requires forall k :: 0 <= k < |steps| ==> Safe(states[k], steps[k])
    ensures states[j].desired == states[0].desired
    ensures states[j].Available() >= Min(states[0].desired, states[i].Available())
    decreases j
  {
    if j == 0 {
    } else {
      AvailabilityOverRuns(states, steps, Min(i, j - 1), j - 1);
      assert Next(states[j - 1], steps[j - 1], states[j]);
      StepFloor(states[j - 1], steps[j - 1], states[j]);
    }
  }

  /** The new workload of a template change, when there is one, reports no replicas its spec gave
      up, or its spec alone covers what is desired. */
  predicate SettledChange(r: Region, step: Step) {
    match step
    case Retemplate(Some(k)) =>
      var all := Everything(r);
      k < |all| ==> NewSettled(r.desired, all[k].spec, all[k].avail)
    case _ => true
  }

  /** In a settled region every pass is safe, and every event but a template change to an unsettled
      workload leaves it settled. */
  lemma SettledStep(r: Region, step: Step, r': Region)
    requires r.Settled() && SettledChange(r, step) && Next(r, step, r')
    ensures Safe(r, step) && r'.Settled()
  {
    if step.Sync? {
      SettledIsSafe(step.strategy, step.batch, r.desired, Observe(r.newest.value));
    }
  }

  /** So a run that starts settled, in particular one where no status exceeds its spec, keeps the
      floor whatever the settings of its passes. */
  lemma {:induction false} SettledRunsAreSafe(states: seq<Region>, steps: seq<Step>, n: nat)
    requires Run(states, steps) && states[0].Settled() && n < |states|
    requires forall k :: 0 <= k < |steps| ==> SettledChange(states[k], steps[k])
    ensures states[n].Settled() && (n < |steps| ==> Safe(states[n], steps[n]))
  {
    if n == 0 {
    } else {
      SettledRunsAreSafe(states, steps, n - 1);
      SettledStep(states[n - 1], steps[n - 1], states[n]);
    }
    if n < |steps| {
      assert Next(states[n], steps[n], states[n + 1]);
      SettledStep(states[n], steps[n], states[n + 1]);
    }
  }

  lemma AvailabilityWhenSettled(states: seq<Region>, steps: seq<Step>, i: nat, j: nat)
    requires Run(states, steps) && states[0].Settled() && i <= j < |states|
    requires forall k :: 0 <= k < |steps| ==> SettledChange(states[k], steps[k])
    ensures states[j].Available() >= Min(states[0].desired, states[i].Available())
  {
    forall k | 0 <= k < |steps| ensures Safe(states[k], steps[k]) {
      SettledRunsAreSafe(states, steps, k);
    }
    AvailabilityOverRuns(states, steps, i, j);
  }

  /** An unsafe pass: a spec already cut to 1 that still reports 3 available lets it cut the old
      workload too far. */
  lemma UnsafeCrossesFloor()
    ensures var r := Region(5, Some(Workload(1, 3)), [Workload(9, 9)]);
            && !Safe(r, Sync(Beta, 1)) && r.Available() == 10
            && AfterSync(r, Beta, 1).Available() == 4
  {
    var olds := ObserveAll([Workload(9, 9)]);
    assert olds == [Observe(Workload(9, 9))];
    assert ViewTotal(olds) == 9;
    assert Cleanup(olds[1..], 7) == CleanupResult([], 0, false);
    assert Cleanup(olds, 7) == CleanupResult(olds, 0, false);
    assert ScaleDown(olds, 7) == [Subset(9, 9, Held(2))];
    assert SyncOlds(5, 3, olds).0 == [Subset(9, 9, Held(2))];
    assert Persisted([Subset(9, 9, Held(2))]) == [Workload(2, 9)];
    assert AfterSync(Region(5, Some(Workload(1, 3)), [Workload(9, 9)]), Beta, 1)
        == Region(5, Some(Workload(2, 3)), [Workload(2, 9)]);
  }
}
