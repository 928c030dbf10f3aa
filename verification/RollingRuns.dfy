/** Both fences of the RollingUpdate strategy over whole runs of a region: passes, creation of
    the new workload, and everything else that happens to a region, in any order. */
module RollingRuns {
  import opened Basics
  import opened Workloads
  import opened RollingUpdate
  import RecreateRuns

  type Region = RecreateRuns.Region

  /** `Event` is anything but a pass and a creation: a template change, pods becoming available,
      the cleanup of a saturated region. */
  datatype Step = Pass | Create | Event(event: RecreateRuns.Step)

  function AfterPass(settings: Settings, r: Region): Region
    requires r.newest.Some?
  {
    match RollingPass(settings, r.desired, Observe(r.newest.value), ObserveAll(r.olds))
    case None => r
    case Some((newest, olds)) =>
      RecreateRuns.Region(
        r.desired,
        Some(Workload(if newest.stored.Held? then newest.stored.replicas else 0, newest.avail)),
        Persisted(olds))
  }

  /** Replicas a new workload is created with; None when the settings stop the pass. */
  function CreatedReplicas(settings: Settings, desired: nat, total: nat): Option<nat> {
    if desired > 0 then NewReplicas(settings, desired, total, 0)
    else if Resolve(settings.maxSurge, desired).Some? then Some(0)
    else None
  }

  ghost predicate Next(settings: Settings, r: Region, step: Step, r': Region) {
    match step
    case Pass => r.newest.Some? && r' == AfterPass(settings, r)
    case Create =>
      var replicas := CreatedReplicas(settings, r.desired, SpecTotal(r.olds));
      r.newest.None? && replicas.Some? && r' == r.(newest := Some(Workload(replicas.value, 0)))
    case Event(e) => !e.Sync? && !e.Create? && RecreateRuns.Next(r, e, r')
  }

  ghost predicate Run(settings: Settings, states: seq<Region>, steps: seq<Step>) {
    && |states| == |steps| + 1
    && forall i :: 0 <= i < |steps| ==> Next(settings, states[i], steps[i], states[i + 1])
  }

  // ---------- the surge fence ----------

  /** Replicas all workloads ask for. */
  function Asked(r: Region): nat {
    SpecTotal(RecreateRuns.Everything(r))
  }

  function Ceiling(settings: Settings, desired: nat): int {
    var surge := Resolve(settings.maxSurge, desired);
    if surge.Some? then desired + surge.value else 0
  }

  lemma AskedSplits(r: Region)
    ensures Asked(r) == SpecTotal(r.olds) + if r.newest.Some? then r.newest.value.spec else 0
  {
    SpecConcat(r.olds, if r.newest.Some? then [r.newest.value] else []);
  }

  lemma {:induction false} RestatusedSpecs(olds: seq<Workload>, avails: seq<nat>)
    requires |avails| == |olds|
    ensures SpecTotal(RecreateRuns.Restatused(olds, avails)) == SpecTotal(olds)
  {
    if olds == [] {
    } else {
      RestatusedSpecs(olds[1..], avails[1..]);
      assert RecreateRuns.Restatused(olds, avails)[1..] == RecreateRuns.Restatused(olds[1..], avails[1..]);
    }
  }

  lemma {:induction false} EmptiedSpecs(olds: seq<Workload>, dropped: set<nat>, base: nat)
    ensures SpecTotal(RecreateRuns.Emptied(olds, dropped, base)) == 0
  {
    if olds == [] {
    } else {
      EmptiedSpecs(olds[1..], dropped, base + 1);
    }
  }

  lemma PassAsked(settings: Settings, r: Region)
    requires r.newest.Some?
    ensures Asked(AfterPass(settings, r)) <= Max(Asked(r), Ceiling(settings, r.desired))
  {
    var newest, olds := Observe(r.newest.value), ObserveAll(r.olds);
    ObservedTotals(r.olds);
    var pass := RollingPass(settings, r.desired, newest, olds);
    if pass.Some? {
      SurgeFence(settings, r.desired, newest, olds);
      PersistedTotals(pass.value.1);
    }
    AskedSplits(r);
    AskedSplits(AfterPass(settings, r));
  }

  lemma EventAsked(r: Region, e: RecreateRuns.Step, r': Region)
    requires RecreateRuns.Next(r, e, r') && !e.Sync? && !e.Create?
    ensures r'.desired == r.desired && Asked(r') <= Asked(r)
  {
    match e
    case Retemplate(current) => RetemplateAsked(r, current, r');
    case PodsProgress(_, avails) =>
      AskedSplits(r);
      AskedSplits(r');
      RestatusedSpecs(r.olds, avails);
    case CleanSaturated(dropped) =>
      AskedSplits(r);
      AskedSplits(r');
      EmptiedSpecs(r.olds, dropped, 0);
  }

  lemma RetemplateAsked(r: Region, current: Option<nat>, r': Region)
    requires RecreateRuns.Next(r, RecreateRuns.Retemplate(current), r')
    ensures Asked(r') == Asked(r)
  {
    AskedSplits(r');
    if current.Some? {
      SpecRemove(RecreateRuns.Everything(r), current.value);
    }
  }

  lemma StepAsked(settings: Settings, r: Region, step: Step, r': Region)
    requires Next(settings, r, step, r')
    ensures r'.desired == r.desired && Asked(r') <= Max(Asked(r), Ceiling(settings, r.desired))
  {
    match step
    case Pass => PassAsked(settings, r);
    case Create =>
      AskedSplits(r);
      AskedSplits(r');
    case Event(e) => EventAsked(r, e, r');
  }

  /** Over any run the workloads never ask for more than they did at first, or than the desired
      number and the surge. */
  lemma {:induction false} SurgeOverRuns(settings: Settings, states: seq<Region>, steps: seq<Step>, n: nat)
    requires Run(settings, states, steps) && n < |states|
    ensures states[n].desired == states[0].desired
    ensures Asked(states[n]) <= Max(Asked(states[0]), Ceiling(settings, states[0].desired))
  {
    if n == 0 {
    } else {
      SurgeOverRuns(settings, states, steps, n - 1);
      StepAsked(settings, states[n - 1], steps[n - 1], states[n]);
    }
  }

  // ---------- the availability fence ----------

  /** The floor of a run: what the settings allow to be unavailable is missing, and never more
      than the desired number is promised. */
  function Floor(settings: Settings, desired: nat): int {
    Min(desired, MinAvailable(settings, desired))
  }

  /** What the olds ask for and the new workload has available does not exceed the floor. */
  predicate Low(settings: Settings, r: Region) {
    r.newest.Some? ==> r.newest.value.avail + SpecTotal(r.olds) <= MinAvailable(settings, r.desired)
  }

  /** The pass is stopped by the settings, or the new workload is fully available or alone reaches
      the floor, or there is nothing above the floor. */
  predicate Safe(settings: Settings, r: Region, step: Step) {
    step.Pass? && r.newest.Some? ==>
      || Stopped(settings, r.desired, Observe(r.newest.value))
      || r.newest.value.avail >= r.newest.value.spec
      || r.newest.value.avail >= MinAvailable(settings, r.desired)
      || Low(settings, r)
  }

  /** A pass that finds nothing above the floor scales only the new workload. */
  lemma LowPassKeepsOlds(settings: Settings, r: Region)
    requires r.newest.Some? && Low(settings, r)
    ensures AfterPass(settings, r).olds == r.olds
  {
    var newest, olds := Observe(r.newest.value), ObserveAll(r.olds);
    ObservedTotals(r.olds);
    if RollingPass(settings, r.desired, newest, olds).Some? {
      OldsKeptAtFloor(settings, r.desired, newest, olds);
    }
  }

  lemma LowPassFloor(settings: Settings, r: Region)
    requires r.newest.Some? && Low(settings, r)
    ensures AfterPass(settings, r).Available() >= Min(r.Available(), r.desired)
  {
    LowPassKeepsOlds(settings, r);
    var newest, olds := Observe(r.newest.value), ObserveAll(r.olds);
    if RollingPass(settings, r.desired, newest, olds).Some? {
      NewestExactly(settings, r.desired, newest, olds);
    }
  }

  lemma PassFloor(settings: Settings, r: Region)
    requires r.newest.Some? && Safe(settings, r, Pass)
    ensures AfterPass(settings, r).Available() >= Min(r.Available(), Floor(settings, r.desired))
  {
    if Low(settings, r) {
      LowPassFloor(settings, r);
    } else {
      FencedPassFloor(settings, r);
    }
  }

  lemma FencedPassFloor(settings: Settings, r: Region)
    requires r.newest.Some? && Safe(settings, r, Pass) && !Low(settings, r)
    ensures AfterPass(settings, r).Available() >= Min(r.Available(), Floor(settings, r.desired))
  {
    var newest, olds := Observe(r.newest.value), ObserveAll(r.olds);
    ObservedTotals(r.olds);
    AvailabilityFence(settings, r.desired, newest, olds);
    var pass := RollingPass(settings, r.desired, newest, olds);
    if pass.Some? {
      PersistedTotals(pass.value.1);
    }
  }

  lemma StepFloor(settings: Settings, r: Region, step: Step, r': Region)
    requires Next(settings, r, step, r') && Safe(settings, r, step)
    ensures r'.desired == r.desired
    ensures r'.Available() >= Min(r.Available(), Floor(settings, r.desired))
  {
    match step
    case Pass => PassFloor(settings, r);
    case Create =>
    case Event(e) => RecreateRuns.StepFloor(r, e, r');
  }

  /** Over any run whose passes start from safe states, availability does not fall below what it
      was at any earlier moment, or below the floor. */
  lemma {:induction false} AvailabilityOverRuns(settings: Settings, states: seq<Region>, steps: seq<Step>, i: nat, j: nat)
    requires Run(settings, states, steps) && i <= j < |states|
    requires forall k :: 0 <= k < |steps| ==> Safe(settings, states[k], steps[k])
    ensures states[j].desired == states[0].desired
    ensures states[j].Available() >= Min(states[i].Available(), Floor(settings, states[0].desired))
    decreases j
  {
    if j == 0 {
    } else {
      AvailabilityOverRuns(settings, states, steps, Min(i, j - 1), j - 1);
      StepFloor(settings, states[j - 1], steps[j - 1], states[j]);
    }
  }

  // ---------- behind the gate ----------

  /** The new workload does not ask for more than is desired. */
  predicate Below(r: Region) {
    r.newest.Some? ==> r.newest.value.spec <= r.desired
  }

  /** A pass goes through the gate; a template change does not make a workload the new one that
      asks for more than is desired. */
  predicate Gated(r: Region, step: Step) {
    match step
    case Pass => r.newest.Some? ==> TermReady(r.desired, Observe(r.newest.value))
    case Create => true
    case Event(Retemplate(Some(k))) =>
      var all := RecreateRuns.Everything(r);
      k < |all| ==> all[k].spec <= r.desired
    case Event(_) => true
  }

  lemma GatedStep(settings: Settings, r: Region, step: Step, r': Region)
    requires Next(settings, r, step, r') && Gated(r, step) && Below(r)
    ensures Safe(settings, r, step) && Below(r')
  {
  }

  lemma {:induction false} GatedRunsAreSafe(settings: Settings, states: seq<Region>, steps: seq<Step>, n: nat)
    requires Run(settings, states, steps) && Below(states[0]) && n < |states|
    requires forall k :: 0 <= k < |steps| ==> Gated(states[k], steps[k])
    ensures Below(states[n]) && (n < |steps| ==> Safe(settings, states[n], steps[n]))
  {
    if n == 0 {
    } else {
      GatedRunsAreSafe(settings, states, steps, n - 1);
      GatedStep(settings, states[n - 1], steps[n - 1], states[n]);
    }
    if n < |steps| {
      GatedStep(settings, states[n], steps[n], states[n + 1]);
    }
  }

  /** So the gate keeps the floor over every run that starts with the new workload at most at the
      desired number. */
  lemma AvailabilityBehindGate(settings: Settings, states: seq<Region>, steps: seq<Step>, i: nat, j: nat)
    requires Run(settings, states, steps) && Below(states[0]) && i <= j < |states|
    requires forall k :: 0 <= k < |steps| ==> Gated(states[k], steps[k])
    ensures states[j].Available() >= Min(states[i].Available(), Floor(settings, states[0].desired))
  {
    forall k | 0 <= k < |steps| ensures Safe(settings, states[k], steps[k]) {
      GatedRunsAreSafe(settings, states, steps, k);
    }
    AvailabilityOverRuns(settings, states, steps, i, j);
  }

  /** Above the desired number the gate lets passes through whatever is available. They keep the
      floor all the same while there is nothing above it. */
  lemma AvailabilityAboveDesired(settings: Settings, states: seq<Region>, steps: seq<Step>, i: nat, j: nat)
    requires Run(settings, states, steps) && i <= j < |states|
    requires forall k :: 0 <= k < |steps| && steps[k].Pass? ==>
               Gated(states[k], steps[k]) && (Below(states[k]) || Low(settings, states[k]))
    ensures states[j].Available() >= Min(states[i].Available(), Floor(settings, states[0].desired))
  {
    forall k | 0 <= k < |steps| ensures Safe(settings, states[k], steps[k]) {
      assert Next(settings, states[k], steps[k], states[k + 1]);
    }
    AvailabilityOverRuns(settings, states, steps, i, j);
  }

  ghost predicate SameSpecs(a: seq<Workload>, b: seq<Workload>) {
    |a| == |b| && forall i :: 0 <= i < |a| ==> a[i].spec == b[i].spec
  }

  /** And then no old loses a replica, through any number of passes while pods come and statuses
      catch up. */
  lemma {:induction false} OldsKeptOverRuns(settings: Settings, states: seq<Region>, steps: seq<Step>, n: nat)
    requires Run(settings, states, steps) && n < |states|
    requires forall k :: 0 <= k < |steps| ==>
               if steps[k].Pass? then Low(settings, states[k]) else steps[k].Event? && steps[k].event.PodsProgress?
    ensures SameSpecs(states[0].olds, states[n].olds)
  {
    if n == 0 {
    } else {
      OldsKeptOverRuns(settings, states, steps, n - 1);
      assert Next(settings, states[n - 1], steps[n - 1], states[n]);
      if steps[n - 1].Pass? {
        LowPassKeepsOlds(settings, states[n - 1]);
      }
    }
  }
}
