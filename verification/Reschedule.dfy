/** Rescheduling of an ExtendedDeployment: replicas of failed regions, and replicas whose pods
    find no resources, are planned into other regions; the plan goes into an annotation from
    which the desired replicas of each region are read back. */
module Reschedule {
  import opened Basics
  import opened Allocator

  // ---------- failed regions ----------

  /** The regions of `order` that did not fail, in that order. */
  function Survivors(order: seq<string>, failed: set<string>): (r: seq<string>)
    ensures forall n :: n in r <==> n in order && n !in failed
  {
    if order == [] then []
    else if order[0] in failed then Survivors(order[1..], failed)
    else [order[0]] + Survivors(order[1..], failed)
  }

  /** Failed regions are planned empty. */
  function Emptied(infos: Infos, order: seq<string>, failed: set<string>): (r: Infos)
    requires forall i :: 0 <= i < |order| ==> order[i] in infos
    ensures r.Keys == infos.Keys
    ensures forall n :: n in infos ==>
              r[n] == if n in order && n in failed then infos[n].(planned := 0) else infos[n]
  {
    map n | n in infos :: if n in order && n in failed then infos[n].(planned := 0) else infos[n]
  }

  lemma EmptiedOne(infos: Infos, order: seq<string>, failed: set<string>, i: nat)
    requires i < |order| && forall i :: 0 <= i < |order| ==> order[i] in infos
    ensures var before, n := Emptied(infos, order[..i], failed), order[i];
            Emptied(infos, order[..i + 1], failed)
            == if n in failed then before[n := infos[n].(planned := 0)] else before
  {
    assert order[..i + 1] == order[..i] + [order[i]];
  }

  function Displaced(infos: Infos, order: seq<string>, failed: set<string>): int
    requires forall i :: 0 <= i < |order| ==> order[i] in infos
  {
    if order == [] then 0
    else (if order[0] in failed then infos[order[0]].config else 0) + Displaced(infos, order[1..], failed)
  }

  function Reschedulable(infos: Infos, targets: seq<string>, n: int): Outcome
    requires Listed(infos, targets)
  {
    Greedy(infos, targets, Max(0, n))
  }

  lemma {:induction false} SurvivorsListed(infos: Infos, order: seq<string>, failed: set<string>)
    requires Listed(infos, order)
    ensures Listed(infos, Survivors(order, failed))
  {
    if order == [] {
    } else {
      SurvivorsListed(infos, order[1..], failed);
    }
  }

  function FailoverOutcome(infos: Infos, order: seq<string>, failed: set<string>): Outcome
    requires Listed(infos, order)
  {
    SurvivorsListed(infos, order, failed);
    Reschedulable(Emptied(infos, order, failed), Survivors(order, failed), Displaced(infos, order, failed))
  }

  // ---------- regions short of resources ----------

  /** Regions that may receive: none of their pods is pending and they have given nothing away. */
  function Receivers(infos: Infos, order: seq<string>, pending: map<string, nat>): (r: seq<string>)
    requires forall i :: 0 <= i < |order| ==> order[i] in infos
    ensures forall n :: n in r <==> n in order && n !in pending && infos[n].planned >= infos[n].config
  {
    if order == [] then []
    else
      var rest := Receivers(infos, order[1..], pending);
      if order[0] in pending || infos[order[0]].planned < infos[order[0]].config then rest
      else [order[0]] + rest
  }

  lemma {:induction false} ReceiversListed(infos: Infos, order: seq<string>, pending: map<string, nat>)
    requires Listed(infos, order)
    ensures Listed(infos, Receivers(infos, order, pending))
  {
    if order == [] {
    } else {
      ReceiversListed(infos, order[1..], pending);
    }
  }

  /** Pods of the region that did start. */
  function Started(infos: Infos, pending: map<string, nat>, r: string): int
    requires r in infos && r in pending
  {
    infos[r].running - pending[r]
  }

  /** The region planned with the pods it started. */
  function Replan(infos: Infos, pending: map<string, nat>, r: string): (o: Infos)
    requires r in infos && r in pending
    ensures o.Keys == infos.Keys
  {
    infos[r := infos[r].(planned := Started(infos, pending, r))]
  }

  /** Replicas the region cannot start. */
  function Out(infos: Infos, pending: map<string, nat>, r: string): nat
    requires r in infos && r in pending
  {
    Max(0, infos[r].config - Started(infos, pending, r))
  }

  function ShortageOf(infos: Infos, targets: seq<string>, pending: map<string, nat>, r: string): (o: Outcome)
    requires Listed(infos, targets) && r in infos && r in pending
    ensures o.infos.Keys == infos.Keys
  {
    Greedy(Replan(infos, pending, r), targets, Out(infos, pending, r))
  }

  /** Visiting the regions with pending pods in the given order. */
  function ShortageOutcome(infos: Infos, targets: seq<string>, pending: map<string, nat>, visit: seq<string>): (o: Outcome)
    requires Listed(infos, targets)
    requires forall i :: 0 <= i < |visit| ==> visit[i] in infos && visit[i] in pending
    ensures o.infos.Keys == infos.Keys
    decreases |visit|
  {
    if visit == [] then Outcome(infos, true)
    else
      var g := ShortageOf(infos, targets, pending, visit[0]);
      if !g.ok then g else ShortageOutcome(g.infos, targets, pending, visit[1..])
  }

  function ShortagePhase(infos: Infos, order: seq<string>, pending: map<string, nat>, visit: seq<string>): Outcome
    requires Listed(infos, order)
    requires forall i :: 0 <= i < |visit| ==> visit[i] in infos && visit[i] in pending
  {
    ReceiversListed(infos, order, pending);
    ShortageOutcome(infos, Receivers(infos, order, pending), pending, visit)
  }

  // ---------- the methods ----------

  lemma BestStep(infos: Infos, targets: seq<string>, k: nat)
    requires 0 < k < |targets| && forall i :: 0 <= i < |targets| ==> targets[i] in infos
    ensures var b := Best(infos, targets[..k]);
            && b in infos
            && Best(infos, targets[..k + 1]) == if infos[targets[k]].room > infos[b].room then targets[k] else b
  {
    assert targets[..k + 1][..k] == targets[..k];
  }

  method FindBest(regions: Infos, targets: seq<string>) returns (best: string)
    requires targets != [] && forall i :: 0 <= i < |targets| ==> targets[i] in regions
    ensures best == Best(regions, targets)
  {
    best := targets[0];
    assert targets[..1] == [targets[0]];
    for k := 1 to |targets|
      invariant best in regions && best == Best(regions, targets[..k])
    {
      BestStep(regions, targets, k);
      if regions[targets[k]].room > regions[best].room {
        best := targets[k];
      }
    }
    assert targets[..|targets|] == targets;
  }

  lemma FailedStep(infos: Infos, order: seq<string>, failed: set<string>, i: nat)
    requires i < |order| && forall i :: 0 <= i < |order| ==> order[i] in infos
    ensures var name, left := order[i], order[i + 1..];
      && Survivors(order[i..], failed)
         == (if name in failed then Survivors(left, failed) else [name] + Survivors(left, failed))
      && Displaced(infos, order[i..], failed)
         == (if name in failed then infos[name].config else 0) + Displaced(infos, left, failed)
  {
    assert order[i..][1..] == order[i + 1..];
  }

  lemma ReceiversStep(infos: Infos, order: seq<string>, pending: map<string, nat>, i: nat)
    requires i < |order| && forall i :: 0 <= i < |order| ==> order[i] in infos
    ensures var name, left := order[i], Receivers(infos, order[i + 1..], pending);
      Receivers(infos, order[i..], pending)
      == if name in pending || infos[name].planned < infos[name].config then left else [name] + left
  {
    assert order[i..][1..] == order[i + 1..];
  }

  /** What the loop below has done after `i` regions. */
  ghost predicate TakenOut(
    regions: Infos, order: seq<string>, failed: set<string>, i: nat, emptied: Infos, targets: seq<string>, num: int)
    requires Listed(regions, order)
  {
    && i <= |order|
    && emptied == Emptied(regions, order[..i], failed)
    && num + Displaced(regions, order[i..], failed) == Displaced(regions, order, failed)
    && targets + Survivors(order[i..], failed) == Survivors(order, failed)
  }

  lemma TakeOutStep(
    regions: Infos, order: seq<string>, failed: set<string>, i: nat, emptied: Infos, targets: seq<string>, num: int)
    requires Listed(regions, order) && i < |order| && TakenOut(regions, order, failed, i, emptied, targets, num)
    ensures var name := order[i];
            && name in emptied && emptied[name].config == regions[name].config
            && (name in failed ==>
                  TakenOut(regions, order, failed, i + 1, emptied[name := emptied[name].(planned := 0)],
                           targets, num + emptied[name].config))
            && (name !in failed ==>
                  TakenOut(regions, order, failed, i + 1, emptied, targets + [name], num))
  {
    EmptiedOne(regions, order, failed, i);
    FailedStep(regions, order, failed, i);
    MoveHead(targets, order[i], Survivors(order[i + 1..], failed));
  }

  /** Empties the failed regions, and splits off the others and the number of replicas to move. */
  method TakeOutFailed(regions: Infos, failed: set<string>, order: seq<string>)
    returns (emptied: Infos, targets: seq<string>, num: int)
    requires Listed(regions, order)
    ensures emptied == Emptied(regions, order, failed)
    ensures targets == Survivors(order, failed) && num == Displaced(regions, order, failed)
  {
    emptied, targets, num := regions, [], 0;
    for i := 0 to |order|
      invariant TakenOut(regions, order, failed, i, emptied, targets, num)
    {
      var name := order[i];
      TakeOutStep(regions, order, failed, i, emptied, targets, num);
      if name in failed {
        num := num + emptied[name].config;
        emptied := emptied[name := emptied[name].(planned := 0)];
      } else {
        targets := targets + [name];
      }
    }
    assert order[..|order|] == order;
  }

  method FindReceivers(regions: Infos, order: seq<string>, pending: map<string, nat>) returns (targets: seq<string>)
    requires Listed(regions, order)
    ensures targets == Receivers(regions, order, pending)
  {
    targets := [];
    for i := 0 to |order|
      invariant targets + Receivers(regions, order[i..], pending) == Receivers(regions, order, pending)
    {
      var name := order[i];
      ReceiversStep(regions, order, pending, i);
      MoveHead(targets, name, Receivers(regions, order[i + 1..], pending));
      if name !in pending && regions[name].planned >= regions[name].config {
        targets := targets + [name];
      }
    }
  }

  class ScheduleInfo {
    var regions: Infos

    constructor (regions: Infos)
      ensures this.regions == regions
    {
      this.regions := regions;
    }

    method Reschedule(targets: seq<string>, num: int) returns (ok: bool)
      requires Listed(regions, targets)
      modifies this
      ensures Outcome(regions, ok) == Reschedulable(old(regions), targets, num)
    {
      ghost var outcome := Reschedulable(regions, targets, num);
      var left := num;
      while left > 0
        invariant Listed(regions, targets)
        invariant outcome == Greedy(regions, targets, Max(0, left))
      {
        if targets == [] {
          return false;
        }
        var best := FindBest(regions, targets);
        if regions[best].room <= 0 {
          return false;
        }
        regions, left := Place(regions, best), left - 1;
      }
      return true;
    }

    /** `order` is the order in which the regions are visited. */
    method RescheduleFailedRegions(failed: set<string>, order: seq<string>) returns (ok: bool)
      requires Listed(regions, order)
      modifies this
      ensures Outcome(regions, ok) == FailoverOutcome(old(regions), order, failed)
    {
      var emptied, targets, num := TakeOutFailed(regions, failed, order);
      SurvivorsListed(regions, order, failed);
      regions := emptied;
      ok := Reschedule(targets, num);
    }

    method RescheduleInsufficientPods(pending: map<string, nat>, order: seq<string>, visit: seq<string>) returns (ok: bool)
      requires Listed(regions, order)
      requires forall i :: 0 <= i < |visit| ==> visit[i] in regions && visit[i] in pending
      modifies this
      ensures Outcome(regions, ok) == ShortagePhase(old(regions), order, pending, visit)
    {
      ReceiversListed(regions, order, pending);
      var targets := FindReceivers(regions, order, pending);
      ok := MoveOut(pending, targets, visit);
    }

    /** One region: what it started stays planned there, the rest goes to the targets. */
    method MoveOutOf(pending: map<string, nat>, targets: seq<string>, r: string) returns (ok: bool)
      requires Listed(regions, targets) && r in regions && r in pending
      modifies this
      ensures Outcome(regions, ok) == ShortageOf(old(regions), targets, pending, r)
    {
      var config, started := regions[r].config, regions[r].running - pending[r];
      regions := regions[r := regions[r].(planned := started)];
      ok := Reschedule(targets, config - started);
    }

    method MoveOut(pending: map<string, nat>, targets: seq<string>, visit: seq<string>) returns (ok: bool)
      requires Listed(regions, targets)
      requires forall i :: 0 <= i < |visit| ==> visit[i] in regions && visit[i] in pending
      modifies this
      ensures Outcome(regions, ok) == ShortageOutcome(old(regions), targets, pending, visit)
    {
      ghost var outcome := ShortageOutcome(regions, targets, pending, visit);
      var left := visit;
      while left != []
        invariant Listed(regions, targets)
        invariant forall i :: 0 <= i < |left| ==> left[i] in regions && left[i] in pending
        invariant outcome == ShortageOutcome(regions, targets, pending, left)
        decreases |left|
      {
        ok := MoveOutOf(pending, targets, left[0]);
        if !ok {
          return;
        }
        left := left[1..];
      }
      return true;
    }
  }

  // ---------- the annotation ----------

  /** What the annotation says of a region: configured replicas, and how many more (or fewer). */
  datatype ScheduleReplicas = ScheduleReplicas(config: int, schedule: int) {
    function Desired(): int {
      config + schedule
    }
  }

  function Annotation(infos: Infos): map<string, ScheduleReplicas> {
    map n | n in infos :: ScheduleReplicas(infos[n].config, infos[n].planned - infos[n].config)
  }

  /** Desired replicas of a region, read back through the annotation. */
  function DesiredOf(configured: Infos, annotation: map<string, ScheduleReplicas>, n: string): int
    requires n in configured
  {
    if n in annotation then annotation[n].Desired() else configured[n].config
  }

  function DesiredSum(configured: Infos, annotation: map<string, ScheduleReplicas>, names: seq<string>): int
    requires forall i :: 0 <= i < |names| ==> names[i] in configured
  {
    if names == [] then 0
    else DesiredOf(configured, annotation, names[0]) + DesiredSum(configured, annotation, names[1..])
  }

  /** Region by region, and in total, the plan that was written is the plan that is read. */
  lemma {:induction false} AnnotationRoundTrip(configured: Infos, infos: Infos, names: seq<string>)
    requires Listed(configured, names) && infos.Keys == configured.Keys
    ensures forall n :: n in configured ==> DesiredOf(configured, Annotation(infos), n) == infos[n].planned
    ensures DesiredSum(configured, Annotation(infos), names) == Sum(Planned, infos, names)
    ensures forall n :: n in infos ==> Annotation(infos)[n].config == infos[n].config
    ensures forall n :: n in configured ==> DesiredOf(configured, map[], n) == configured[n].config
  {
    if names == [] {
    } else {
      AnnotationRoundTrip(configured, infos, names[1..]);
    }
  }

  // ---------- conservation ----------

  /** A fresh schedule plans every region as configured. */
  predicate AsConfigured(infos: Infos) {
    forall n :: n in infos ==> infos[n].planned == infos[n].config
  }

  lemma {:induction false} PlannedAsConfigured(infos: Infos, names: seq<string>)
    requires Listed(infos, names) && AsConfigured(infos)
    ensures Sum(Planned, infos, names) == Sum(Configured, infos, names)
  {
    if names == [] {
    } else {
      PlannedAsConfigured(infos, names[1..]);
    }
  }

  /** What the allocator adds to its targets it adds to any list of regions that holds them. */
  lemma {:induction false} GreedyAddsTo(infos: Infos, targets: seq<string>, n: nat, names: seq<string>)
    requires Listed(infos, targets) && Listed(infos, names) && Greedy(infos, targets, n).ok
    requires Within(targets, names)
    ensures Sum(Planned, Greedy(infos, targets, n).infos, names) == Sum(Planned, infos, names) + n
    decreases n
  {
    if n == 0 {
    } else {
      var b := Best(infos, targets);
      SumUpdate(Planned, infos, names, b, Place(infos, b)[b]);
      GreedyAddsTo(Place(infos, b), targets, n - 1, names);
    }
  }

  lemma {:induction false} EmptiedSum(infos: Infos, order: seq<string>, failed: set<string>, names: seq<string>)
    requires Listed(infos, order) && Listed(infos, names) && AsConfigured(infos)
    requires forall i :: 0 <= i < |names| ==> names[i] in order
    ensures Sum(Planned, Emptied(infos, order, failed), names)
         == Sum(Configured, infos, names) - Displaced(infos, names, failed)
  {
    if names == [] {
    } else {
      EmptiedSum(infos, order, failed, names[1..]);
    }
  }

  lemma {:induction false} DisplacedNonNegative(infos: Infos, names: seq<string>, failed: set<string>)
    requires Listed(infos, names) && forall n :: n in infos ==> infos[n].config >= 0
    ensures Displaced(infos, names, failed) >= 0
  {
    if names == [] {
    } else {
      DisplacedNonNegative(infos, names[1..], failed);
    }
  }

  /** Failover conserves replicas: read back through the annotation, the desired replicas of all
      regions add up to the configured ones, and the failed regions are desired empty. */
  lemma FailoverConserves(infos: Infos, order: seq<string>, failed: set<string>)
    requires Listed(infos, order) && AsConfigured(infos) && forall n :: n in infos ==> infos[n].config >= 0
    requires FailoverOutcome(infos, order, failed).ok
    ensures var after := FailoverOutcome(infos, order, failed).infos;
            && after.Keys == infos.Keys
            && DesiredSum(infos, Annotation(after), order) == Sum(Configured, infos, order)
            && forall n :: n in order && n in failed ==> Annotation(after)[n].Desired() == 0
  {
    FailoverPlans(infos, order, failed);
    FailoverEmpties(infos, order, failed);
    AnnotationRoundTrip(infos, FailoverOutcome(infos, order, failed).infos, order);
  }

  lemma FailoverPlans(infos: Infos, order: seq<string>, failed: set<string>)
    requires Listed(infos, order) && AsConfigured(infos) && forall n :: n in infos ==> infos[n].config >= 0
    requires FailoverOutcome(infos, order, failed).ok
    ensures var after := FailoverOutcome(infos, order, failed).infos;
            after.Keys == infos.Keys && Sum(Planned, after, order) == Sum(Configured, infos, order)
  {
    SurvivorsListed(infos, order, failed);
    DisplacedNonNegative(infos, order, failed);
    EmptiedSum(infos, order, failed, order);
    GreedyAddsTo(Emptied(infos, order, failed), Survivors(order, failed), Displaced(infos, order, failed), order);
  }

  lemma FailoverEmpties(infos: Infos, order: seq<string>, failed: set<string>)
    requires Listed(infos, order)
    ensures var after := FailoverOutcome(infos, order, failed).infos;
            after.Keys == infos.Keys && forall n :: n in order && n in failed ==> after[n].planned == 0
  {
    var emptied, targets := Emptied(infos, order, failed), Survivors(order, failed);
    SurvivorsListed(infos, order, failed);
    forall n | n in order && n in failed
      ensures FailoverOutcome(infos, order, failed).infos[n].planned == 0
    {
      GreedyPerRegion(emptied, targets, Max(0, Displaced(infos, order, failed)), n);
    }
  }

  /** Failover succeeds exactly when the regions that did not fail have room for what is displaced. */
  lemma FailoverSucceeds(infos: Infos, order: seq<string>, failed: set<string>)
    requires Listed(infos, order)
    ensures FailoverOutcome(infos, order, failed).ok
       <==> Displaced(infos, order, failed) <= Sum(Room, infos, Survivors(order, failed))
  {
    var emptied, targets := Emptied(infos, order, failed), Survivors(order, failed);
    SurvivorsListed(infos, order, failed);
    GreedyExact(emptied, targets, Max(0, Displaced(infos, order, failed)));
    SameRoom(infos, emptied, targets);
  }

  lemma {:induction false} SameRoom(a: Infos, b: Infos, names: seq<string>)
    requires forall i :: 0 <= i < |names| ==> names[i] in a && names[i] in b && a[names[i]].room == b[names[i]].room
    ensures Sum(Room, a, names) == Sum(Room, b, names) >= 0
  {
    if names == [] {
    } else {
      SameRoom(a, b, names[1..]);
    }
  }

  /** Replicas the shortage phase adds to the plan of all regions together. */
  function Drift(infos: Infos, pending: map<string, nat>, visit: seq<string>): int
    requires forall i :: 0 <= i < |visit| ==> visit[i] in infos && visit[i] in pending
  {
    if visit == [] then 0
    else Max(infos[visit[0]].config, Started(infos, pending, visit[0])) - infos[visit[0]].planned
         + Drift(infos, pending, visit[1..])
  }

  lemma {:induction false} DriftFrame(a: Infos, b: Infos, pending: map<string, nat>, visit: seq<string>)
    requires forall i :: 0 <= i < |visit| ==>
               visit[i] in a && visit[i] in b && visit[i] in pending && a[visit[i]] == b[visit[i]]
    ensures Drift(a, pending, visit) == Drift(b, pending, visit)
  {
    if visit == [] {
    } else {
      DriftFrame(a, b, pending, visit[1..]);
    }
  }

  lemma ReplanSum(infos: Infos, pending: map<string, nat>, r: string, names: seq<string>)
    requires Listed(infos, names) && r in infos && r in pending && r in names
    ensures Listed(Replan(infos, pending, r), names)
    ensures Sum(Planned, Replan(infos, pending, r), names)
         == Sum(Planned, infos, names) + Started(infos, pending, r) - infos[r].planned
  {
    SumUpdate(Planned, infos, names, r, infos[r].(planned := Started(infos, pending, r)));
  }

  /** One region of the shortage phase: its old plan is replaced by its configured replicas, or by
      those it started if these are more. */
  lemma ShortageOfBalance(infos: Infos, targets: seq<string>, pending: map<string, nat>, r: string, names: seq<string>)
    requires Listed(infos, targets) && Listed(infos, names)
    requires r in infos && r in pending && r in names && Within(targets, names)
    requires ShortageOf(infos, targets, pending, r).ok
    ensures Sum(Planned, ShortageOf(infos, targets, pending, r).infos, names)
         == Sum(Planned, infos, names) + Max(infos[r].config, Started(infos, pending, r)) - infos[r].planned
  {
    ReplanSum(infos, pending, r, names);
    GreedyAddsTo(Replan(infos, pending, r), targets, Out(infos, pending, r), names);
  }

  /** The other short regions are untouched. */
  lemma ShortageOfDrift(infos: Infos, targets: seq<string>, pending: map<string, nat>, r: string, rest: seq<string>)
    requires Listed(infos, targets) && r in infos && r in pending
    requires forall i :: 0 <= i < |rest| ==> rest[i] in infos && rest[i] in pending && rest[i] !in targets && rest[i] != r
    ensures Drift(ShortageOf(infos, targets, pending, r).infos, pending, rest) == Drift(infos, pending, rest)
  {
    GreedyLeaves(Replan(infos, pending, r), targets, Out(infos, pending, r));
    DriftFrame(ShortageOf(infos, targets, pending, r).infos, infos, pending, rest);
  }

  /** The exact balance of the shortage phase, from any plan: each visited region's old plan is
      replaced by its configured replicas, or by those it started if these are more. */
  lemma {:induction false} ShortageBalance(
    infos: Infos, targets: seq<string>, pending: map<string, nat>, visit: seq<string>, names: seq<string>)
    requires Listed(infos, targets) && Listed(infos, names) && Listed(infos, visit)
    requires forall i :: 0 <= i < |visit| ==> visit[i] in pending && visit[i] in names && visit[i] !in targets
    requires Within(targets, names)
    requires ShortageOutcome(infos, targets, pending, visit).ok
    ensures Sum(Planned, ShortageOutcome(infos, targets, pending, visit).infos, names)
         == Sum(Planned, infos, names) + Drift(infos, pending, visit)
    decreases |visit|
  {
    if visit == [] {
    } else {
      var r, rest := visit[0], visit[1..];
      assert forall i :: 0 <= i < |rest| ==> rest[i] == visit[i + 1];
      ShortageOfBalance(infos, targets, pending, r, names);
      ShortageOfDrift(infos, targets, pending, r, rest);
      ShortageBalance(ShortageOf(infos, targets, pending, r).infos, targets, pending, rest, names);
    }
  }

  /** So the phase conserves the plan exactly when the drift is zero; in particular when every
      visited region is still planned as configured and has not started more than that. */
  lemma ShortageConserves(infos: Infos, order: seq<string>, pending: map<string, nat>, visit: seq<string>)
    requires Listed(infos, order) && Listed(infos, visit)
    requires forall i :: 0 <= i < |visit| ==> visit[i] in pending && visit[i] in order
    requires ShortagePhase(infos, order, pending, visit).ok
    ensures var after := ShortagePhase(infos, order, pending, visit).infos;
            && after.Keys == infos.Keys
            && (DesiredSum(infos, Annotation(after), order) == Sum(Planned, infos, order)
                <==> Drift(infos, pending, visit) == 0)
            && (AsConfigured(infos)
                && (forall i :: 0 <= i < |visit| ==> Started(infos, pending, visit[i]) <= infos[visit[i]].config)
                ==> DesiredSum(infos, Annotation(after), order) == Sum(Configured, infos, order))
  {
    var targets := Receivers(infos, order, pending);
    ReceiversListed(infos, order, pending);
    ShortageBalance(infos, targets, pending, visit, order);
    AnnotationRoundTrip(infos, ShortageOutcome(infos, targets, pending, visit).infos, order);
    if AsConfigured(infos) && forall i :: 0 <= i < |visit| ==> Started(infos, pending, visit[i]) <= infos[visit[i]].config {
      NoDrift(infos, pending, visit);
      PlannedAsConfigured(infos, order);
    }
  }

  lemma {:induction false} NoDrift(infos: Infos, pending: map<string, nat>, visit: seq<string>)
    requires AsConfigured(infos)
    requires forall i :: 0 <= i < |visit| ==>
               visit[i] in infos && visit[i] in pending && Started(infos, pending, visit[i]) <= infos[visit[i]].config
    ensures Drift(infos, pending, visit) == 0
  {
    if visit == [] {
    } else {
      NoDrift(infos, pending, visit[1..]);
    }
  }

  // ---------- what the shortage phase plans ----------

  /** What the visited regions cannot start of what they are configured with. */
  function Owed(infos: Infos, pending: map<string, nat>, visit: seq<string>): nat
    requires forall i :: 0 <= i < |visit| ==> visit[i] in infos && visit[i] in pending
  {
    if visit == [] then 0
    else
      var r := infos[visit[0]];
      Max(0, r.config - (r.running - pending[visit[0]])) + Owed(infos, pending, visit[1..])
  }

  lemma {:induction false} OwedFrame(a: Infos, b: Infos, pending: map<string, nat>, visit: seq<string>)
    requires forall i :: 0 <= i < |visit| ==>
               && visit[i] in a && visit[i] in b && visit[i] in pending
               && a[visit[i]].config == b[visit[i]].config && a[visit[i]].running == b[visit[i]].running
    ensures Owed(a, pending, visit) == Owed(b, pending, visit)
  {
    if visit == [] {
    } else {
      OwedFrame(a, b, pending, visit[1..]);
    }
  }

  /** One region that is not a target. */
  lemma ShortageOfPlans(infos: Infos, targets: seq<string>, pending: map<string, nat>, r: string)
    requires Listed(infos, targets) && r in infos && r in pending && r !in targets
    requires ShortageOf(infos, targets, pending, r).ok
    ensures var next := ShortageOf(infos, targets, pending, r).infos;
            && next[r] == infos[r].(planned := infos[r].running - pending[r])
            && (forall n :: n in infos && n !in targets && n != r ==> next[n] == infos[n])
            && Sum(Planned, next, targets)
               == Sum(Planned, infos, targets) + Max(0, infos[r].config - (infos[r].running - pending[r]))
  {
    var one, n := Replan(infos, pending, r), Out(infos, pending, r);
    GreedyLeaves(one, targets, n);
    GreedyExact(one, targets, n);
    SumUpdate(Planned, infos, targets, r, one[r]);
  }

  lemma {:induction false} OutcomePlans(
    infos: Infos, targets: seq<string>, pending: map<string, nat>, visit: seq<string>, n: string)
    requires Listed(infos, targets) && Listed(infos, visit) && n in infos && n !in targets
    requires forall i :: 0 <= i < |visit| ==> visit[i] in pending && visit[i] !in targets
    requires ShortageOutcome(infos, targets, pending, visit).ok
    ensures ShortageOutcome(infos, targets, pending, visit).infos[n]
         == if n in visit then infos[n].(planned := infos[n].running - pending[n]) else infos[n]
    decreases |visit|
  {
    if visit == [] {
    } else {
      var r, rest := visit[0], visit[1..];
      assert n in visit <==> n == r || n in rest;
      ShortageOfPlans(infos, targets, pending, r);
      OutcomePlans(ShortageOf(infos, targets, pending, r).infos, targets, pending, rest, n);
    }
  }

  lemma {:induction false} OutcomeGains(infos: Infos, targets: seq<string>, pending: map<string, nat>, visit: seq<string>)
    requires Listed(infos, targets) && Listed(infos, visit)
    requires forall i :: 0 <= i < |visit| ==> visit[i] in pending && visit[i] !in targets
    requires ShortageOutcome(infos, targets, pending, visit).ok
    ensures Sum(Planned, ShortageOutcome(infos, targets, pending, visit).infos, targets)
         == Sum(Planned, infos, targets) + Owed(infos, pending, visit)
    decreases |visit|
  {
    if visit == [] {
    } else {
      var r, rest := visit[0], visit[1..];
      var next := ShortageOf(infos, targets, pending, r).infos;
      assert forall i :: 0 <= i < |rest| ==> rest[i] == visit[i + 1];
      ShortageOfPlans(infos, targets, pending, r);
      OwedFrame(next, infos, pending, rest);
      OutcomeGains(next, targets, pending, rest);
    }
  }

  /** After the phase every visited region is planned with the pods it has running less the pending
      ones; the regions that may receive have together been given what all of those cannot start;
      any other region is planned as before. */
  lemma ShortagePlans(infos: Infos, order: seq<string>, pending: map<string, nat>, visit: seq<string>)
    requires Listed(infos, order) && Listed(infos, visit) && forall i :: 0 <= i < |visit| ==> visit[i] in pending
    requires ShortagePhase(infos, order, pending, visit).ok
    ensures var after, targets := ShortagePhase(infos, order, pending, visit).infos, Receivers(infos, order, pending);
            && after.Keys == infos.Keys && Listed(infos, targets) && Listed(after, targets)
            && (forall i :: 0 <= i < |visit| ==>
                  after[visit[i]].planned == infos[visit[i]].running - pending[visit[i]])
            && (forall n :: n in infos && n !in targets && n !in visit ==> after[n] == infos[n])
            && Sum(Planned, after, targets) == Sum(Planned, infos, targets) + Owed(infos, pending, visit)
  {
    var targets := Receivers(infos, order, pending);
    ReceiversListed(infos, order, pending);
    forall n | n in infos && n !in targets
      ensures ShortageOutcome(infos, targets, pending, visit).infos[n]
           == if n in visit then infos[n].(planned := infos[n].running - pending[n]) else infos[n]
    {
      OutcomePlans(infos, targets, pending, visit, n);
    }
    OutcomeGains(infos, targets, pending, visit);
  }
}
