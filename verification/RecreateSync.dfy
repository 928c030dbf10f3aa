/** One ReCreate pass over a region: cleanup of unhealthy old replicas, scale-down of the
    olds, one step of the new workload. */
module RecreateSync {
  import opened Basics
  import opened Workloads

  datatype RolloutStrategy = Group | Beta | Unset

  const BETA_STEP_SIZE: int := 1

  /** Signed number of replicas one pass may add (or remove, when negative). */
  function StepSize(strategy: RolloutStrategy, batch: int, desired: int, replicas: int): (step: int)
    ensures batch >= 0 && replicas <= desired ==> 0 <= step <= desired - replicas
    ensures batch >= 0 && replicas >= desired ==> desired - replicas <= step <= 0
    ensures batch >= 1 && replicas != desired && !strategy.Unset? ==> step != 0
    ensures batch >= 1 ==> -batch <= step <= batch
  {
    var limit := match strategy
      case Group => batch
      case Beta => if replicas == 0 then BETA_STEP_SIZE else batch
      case Unset => 0;
    var diff := desired - replicas;
    if diff < 0 then -Min(limit, -diff) else Min(limit, diff)
  }

  datatype CleanupResult = CleanupResult(olds: seq<Subset>, count: int, failed: bool)

  /** Cleanup with `budget` removals left. An old that reports more available replicas than
      its spec makes the pass fail where it stands. */
  function Cleanup(olds: seq<Subset>, budget: int): CleanupResult {
    if olds == [] || budget <= 0 then CleanupResult(olds, 0, false)
    else
      var o := olds[0];
      if o.view < o.avail then CleanupResult(olds, 0, true)
      else
        var cut := Min(o.view - o.avail, budget);
        var rest := Cleanup(olds[1..], budget - cut);
        CleanupResult([Cut(o, cut)] + rest.olds, cut + rest.count, rest.failed)
  }

  /** An old whose last replica is cut is deleted and its in-memory copy stays as it was;
      a healthy one is left alone. */
  function Cut(o: Subset, cut: nat): Subset
    requires cut <= o.view
  {
    if cut == 0 then o
    else if o.view == cut then o.(stored := Gone)
    else o.(view := o.view - cut, stored := Held(o.view - cut))
  }

  /** The scale-down loop of the pass: an old not larger than what is left to remove is
      skipped and only subtracted; the first larger one takes the remainder. */
  function ScaleDown(olds: seq<Subset>, need: nat): seq<Subset> {
    if olds == [] then []
    else
      var o := olds[0];
      if o.stored.Gone? then [o] + ScaleDown(olds[1..], need)
      else if o.view > need then [o.(stored := Held(o.view - need))] + olds[1..]
      else [o] + ScaleDown(olds[1..], need - o.view)
  }

  /** Outcome of a pass on the olds, and whether it failed before touching the new workload. */
  function SyncOlds(desired: nat, newAvail: nat, olds: seq<Subset>): (seq<Subset>, bool) {
    var excess := ViewTotal(olds) + newAvail - desired;
    AfterCleanup(Cleanup(olds, excess), excess)
  }

  function AfterCleanup(c: CleanupResult, excess: int): (seq<Subset>, bool) {
    var need := excess - c.count;
    if c.failed then (c.olds, false)
    else (if need > 0 then ScaleDown(c.olds, need) else c.olds, true)
  }

  function SyncNew(strategy: RolloutStrategy, batch: nat, desired: nat, newest: Subset): (s: Subset)
    ensures s.view == newest.view && s.avail == newest.avail && s.stored.Held?
    ensures newest.view <= desired ==> newest.view <= s.stored.replicas <= desired
    ensures newest.view >= desired ==> desired <= s.stored.replicas <= newest.view
  {
    newest.(stored := Held(newest.view + StepSize(strategy, batch, desired, newest.view)))
  }

  /** `Cleanup` from the `i`-th old on. */
  ghost function CleanupFrom(listed: seq<Subset>, i: nat, budget: int): CleanupResult
    requires i <= |listed|
    decreases |listed| - i
  {
    if i == |listed| || budget <= 0 then CleanupResult(listed[i..], 0, false)
    else
      var o := listed[i];
      if o.view < o.avail then CleanupResult(listed[i..], 0, true)
      else
        var cut := Min(o.view - o.avail, budget);
        var rest := CleanupFrom(listed, i + 1, budget - cut);
        CleanupResult([Cut(o, cut)] + rest.olds, cut + rest.count, rest.failed)
  }

  lemma {:induction false} CleanupFromIs(listed: seq<Subset>, i: nat, budget: int)
    requires i <= |listed|
    ensures CleanupFrom(listed, i, budget) == Cleanup(listed[i..], budget)
    decreases |listed| - i
  {
    if i == |listed| || budget <= 0 || listed[i].view < listed[i].avail {
    } else {
      assert listed[i..][1..] == listed[i + 1..];
      CleanupFromIs(listed, i + 1, budget - Min(listed[i].view - listed[i].avail, budget));
    }
  }

  /** The loop of the cleanup has produced `done` from as many listed olds and removed `total`. */
  ghost predicate CleanupDone(listed: seq<Subset>, max: int, done: seq<Subset>, total: int) {
    && |done| <= |listed|
    && var d := CleanupFrom(listed, |done|, max - total);
       Cleanup(listed, max) == CleanupResult(done + d.olds, total + d.count, d.failed)
  }

  lemma CleanupFromStart(listed: seq<Subset>, max: int)
    ensures CleanupDone(listed, max, [], 0)
  {
    assert listed[0..] == listed;
    CleanupFromIs(listed, 0, max);
  }

  lemma CleanupStep(listed: seq<Subset>, max: int, done: seq<Subset>, total: int, o: Subset, cut: nat)
    requires CleanupDone(listed, max, done, total) && |done| < |listed| && total < max
    requires o == listed[|done|] && o.avail <= o.view
    requires cut == Min(o.view - o.avail, max - total)
    ensures CleanupDone(listed, max, done + [Cut(o, cut)], total + cut)
  {
    MoveHead(done, Cut(o, cut), CleanupFrom(listed, |done| + 1, max - total - cut).olds);
  }

  lemma CleanupStops(listed: seq<Subset>, max: int, done: seq<Subset>, total: int)
    requires CleanupDone(listed, max, done, total)
    requires |done| == |listed| || total >= max || listed[|done|].view < listed[|done|].avail
    ensures var c := Cleanup(listed, max);
            && c.olds == done + listed[|done|..] && c.count == total
            && (c.failed <==> |done| < |listed| && total < max)
  {
  }

  // ---------- the methods ----------

  /** Writes the API server only. Scaling a workload that is gone fails; asking for what the
      in-memory copy already says is not sent at all. */
  method ScaleSubset(s: Subset, replicas: nat) returns (s': Subset, ok: bool)
    ensures ok == (s.view == replicas || s.stored.Held?)
    ensures s' == if s.view == replicas || s.stored.Gone? then s else s.(stored := Held(replicas))
  {
    if s.view == replicas {
      return s, true;
    }
    if s.stored.Gone? {
      return s, false;
    }
    return s.(stored := Held(replicas)), true;
  }

  method ReplicasCount(subsets: seq<Subset>) returns (count: nat)
    ensures count == ViewTotal(subsets)
  {
    count := 0;
    for i := 0 to |subsets|
      invariant count + ViewTotal(subsets[i..]) == ViewTotal(subsets)
    {
      count := count + subsets[i].view;
    }
  }

  /** Cleanup of one old: nothing to remove, all of it, or some. */
  method RemoveReplicas(o: Subset, scaleDown: nat) returns (o': Subset)
    requires o.Fresh() && scaleDown <= o.view
    ensures o' == Cut(o, scaleDown)
  {
    if scaleDown == 0 {
      return o;
    }
    var replicas := o.view - scaleDown;
    if replicas == 0 {
      return o.(stored := Gone);
    }
    var scaled, _ := ScaleSubset(o, replicas);
    return scaled.(view := replicas);
  }

  /** One turn of the loop below. */
  method CleanupOne(listed: seq<Subset>, maxCleanup: int, updated: seq<Subset>, total: int)
    returns (updated': seq<Subset>, total': int)
    requires CleanupDone(listed, maxCleanup, updated, total) && |updated| < |listed| && total < maxCleanup
    requires listed[|updated|].Fresh() && listed[|updated|].avail <= listed[|updated|].view
    ensures CleanupDone(listed, maxCleanup, updated', total') && |updated'| == |updated| + 1
  {
    var o := listed[|updated|];
    var scaleDown := Min(o.view - o.avail, maxCleanup - total);
    CleanupStep(listed, maxCleanup, updated, total, o, scaleDown);
    o := RemoveReplicas(o, scaleDown);
    updated', total' := updated + [o], total + scaleDown;
  }

  /** The loop of the cleanup: it ends with the olds, with the budget, or at an old that reports
      more available replicas than its spec. */
  method CleanupLoop(listed: seq<Subset>, maxCleanup: int) returns (updated: seq<Subset>, total: int)
    requires AllFresh(listed)
    ensures CleanupDone(listed, maxCleanup, updated, total)
    ensures |updated| == |listed| || total >= maxCleanup || listed[|updated|].view < listed[|updated|].avail
  {
    updated, total := [], 0;
    CleanupFromStart(listed, maxCleanup);
    while |updated| < |listed| && total < maxCleanup
      invariant CleanupDone(listed, maxCleanup, updated, total)
    {
      var o := listed[|updated|];
      if o.view < o.avail {
        return;
      }
      updated, total := CleanupOne(listed, maxCleanup, updated, total);
    }
  }

  /** The controller's in-memory region during one pass. */
  class RegionControl {
    const desired: nat
    var newest: Subset
    var olds: seq<Subset>

    constructor (desired: nat, newest: Workload, olds: seq<Workload>)
      ensures this.desired == desired
      ensures this.newest == Observe(newest) && this.olds == ObserveAll(olds)
    {
      this.desired := desired;
      this.newest := Observe(newest);
      this.olds := ObserveAll(olds);
    }

    method CleanupUnhealthyReplicas(maxCleanup: int) returns (count: int, ok: bool)
      requires AllFresh(olds)
      modifies this`olds
      ensures var c := Cleanup(old(olds), maxCleanup);
              olds == c.olds && ok == !c.failed && count == if ok then c.count else 0
    {
      var updated;
      updated, count := CleanupLoop(olds, maxCleanup);
      CleanupStops(olds, maxCleanup, updated, count);
      ok := |updated| == |olds| || count >= maxCleanup;
      olds := updated + olds[|updated|..];
      count := if ok then count else 0;
    }

    method RegionSyncOnce(strategy: RolloutStrategy, batch: nat) returns (ok: bool)
      requires AllFresh(olds) && newest.Fresh()
      modifies this
      ensures (olds, ok) == SyncOlds(desired, old(newest.avail), old(olds))
      ensures newest == if ok then SyncNew(strategy, batch, desired, old(newest)) else old(newest)
    {
      ghost var listed := olds;
      var oldReplicas := ReplicasCount(olds);
      var maxCleanup := oldReplicas + newest.avail - desired;
      var count;
      count, ok := CleanupUnhealthyReplicas(maxCleanup);
      if !ok {
        return;
      }
      CleanupKeepsViews(listed, maxCleanup);
      if maxCleanup - count > 0 {
        ScaleDownOlds(maxCleanup - count);
      }
      var scaled, _ := ScaleSubset(newest, newest.view + StepSize(strategy, batch, desired, newest.view));
      newest := scaled;
    }

    method ScaleDownOlds(needed: nat)
      requires Tracked(olds)
      modifies this`olds
      ensures olds == ScaleDown(old(olds), needed)
    {
      var listed, need, updated := olds, needed, [];
      assert listed[0..] == listed;
      while |updated| < |listed|
        invariant ScaleDownDone(listed, needed, updated, need)
      {
        var o, left := listed[|updated|], need;
        ScaleDownStep(listed, |updated|, need);
        if o.stored.Held? {
          if o.view > need {
            var o', _ := ScaleSubset(o, o.view - need);
            MoveHead(updated, o', listed[|updated| + 1..]);
            olds := updated + [o'] + listed[|updated| + 1..];
            return;
          }
          left := need - o.view;
        }
        ScaleDownAdvance(listed, needed, updated, need, o, left);
        updated, need := updated + [o], left;
      }
      olds := updated;
    }
  }

  /** The loop has produced `done` from as many olds and has `left` to remove. */
  ghost predicate ScaleDownDone(olds: seq<Subset>, needed: nat, done: seq<Subset>, left: int) {
    && |done| <= |olds| && left >= 0
    && ScaleDown(olds, needed) == done + ScaleDown(olds[|done|..], left)
  }

  lemma ScaleDownAdvance(olds: seq<Subset>, needed: nat, done: seq<Subset>, left: nat, o: Subset, left': nat)
    requires ScaleDownDone(olds, needed, done, left) && |done| < |olds|
    requires ScaleDown(olds[|done|..], left) == [o] + ScaleDown(olds[|done| + 1..], left')
    ensures ScaleDownDone(olds, needed, done + [o], left')
  {
    MoveHead(done, o, ScaleDown(olds[|done| + 1..], left'));
  }

  lemma ScaleDownStep(olds: seq<Subset>, i: nat, need: nat)
    requires i < |olds|
    ensures var o, left := olds[i], olds[i + 1..];
      ScaleDown(olds[i..], need)
        == if o.stored.Gone? then [o] + ScaleDown(left, need)
           else if o.view > need then [o.(stored := Held(o.view - need))] + left
           else [o] + ScaleDown(left, need - o.view)
  {
    assert olds[i..][1..] == olds[i + 1..];
  }

  /** Every old is either deleted or as the API server has it. */
  predicate Tracked(olds: seq<Subset>) {
    forall i :: 0 <= i < |olds| ==> olds[i].Fresh() || olds[i].stored.Gone?
  }

  /** After cleanup every old is either deleted or as the API server has it. */
  lemma {:induction false} CleanupKeepsViews(olds: seq<Subset>, budget: int)
    requires AllFresh(olds)
    ensures Tracked(Cleanup(olds, budget).olds)
  {
    if olds == [] || budget <= 0 || olds[0].view < olds[0].avail {
    } else {
      var cut := Min(olds[0].view - olds[0].avail, budget);
      CleanupKeepsViews(olds[1..], budget - cut);
      assert Cleanup(olds, budget).olds == [Cut(olds[0], cut)] + Cleanup(olds[1..], budget - cut).olds;
    }
  }

  // ---------- what a pass keeps ----------

  predicate Healthy(o: Subset) {
    o.stored.Gone? || (o.Fresh() && o.view == o.avail)
  }

  predicate AllHealthy(olds: seq<Subset>) {
    forall i :: 0 <= i < |olds| ==> Healthy(olds[i])
  }

  /** What `CleanupRemovesUnhealthyOnly` says of a cleanup. */
  ghost predicate Clean(olds: seq<Subset>, budget: int, c: CleanupResult) {
    && ServingTotal(c.olds) == ServingTotal(olds)
    && LiveTotal(c.olds) == ViewTotal(olds) - c.count
    && 0 <= c.count <= Max(budget, 0)
    && (!c.failed && c.count < budget ==> AllHealthy(c.olds))
  }

  /** Cleanup removes unhealthy replicas only: nothing available is lost. It removes at most
      its budget, and when it stops short of it every remaining old is fully healthy. */
  lemma {:induction false} CleanupRemovesUnhealthyOnly(olds: seq<Subset>, budget: int)
    requires AllFresh(olds)
    ensures Clean(olds, budget, Cleanup(olds, budget))
  {
    if olds == [] || budget <= 0 || olds[0].view < olds[0].avail {
      FreshTotals(olds);
    } else {
      var cut := Min(olds[0].view - olds[0].avail, budget);
      CleanupRemovesUnhealthyOnly(olds[1..], budget - cut);
      var rest := Cleanup(olds[1..], budget - cut);
      CleanStep(olds, budget, cut, rest);
      assert Cleanup(olds, budget) == CleanupResult([Cut(olds[0], cut)] + rest.olds, cut + rest.count, rest.failed);
    }
  }

  lemma CleanStep(olds: seq<Subset>, budget: int, cut: nat, rest: CleanupResult)
    requires olds != [] && olds[0].Fresh() && budget > 0 && olds[0].avail <= olds[0].view
    requires cut == Min(olds[0].view - olds[0].avail, budget)
    requires Clean(olds[1..], budget - cut, rest)
    ensures Clean(olds, budget, CleanupResult([Cut(olds[0], cut)] + rest.olds, cut + rest.count, rest.failed))
  {
    CutTotals(olds[0], cut, rest.olds);
  }

  lemma CutTotals(o: Subset, cut: nat, rest: seq<Subset>)
    requires o.Fresh() && cut <= o.view - o.avail
    ensures ServingTotal([Cut(o, cut)] + rest) == o.Capped() + ServingTotal(rest)
    ensures LiveTotal([Cut(o, cut)] + rest) == o.view - cut + LiveTotal(rest)
    ensures cut == o.view - o.avail && AllHealthy(rest) ==> AllHealthy([Cut(o, cut)] + rest)
  {
    PrependTotals(Cut(o, cut), rest);
  }

  lemma PrependTotals(o: Subset, rest: seq<Subset>)
    ensures ServingTotal([o] + rest) == o.Capped() + ServingTotal(rest)
    ensures LiveTotal([o] + rest) == (if o.stored.Gone? then 0 else o.view) + LiveTotal(rest)
    ensures AllHealthy([o] + rest) <==> Healthy(o) && AllHealthy(rest)
  {
    var all := [o] + rest;
    assert all[1..] == rest;
    if AllHealthy(all) {
      assert Healthy(all[0]);
      assert forall i :: 0 <= i < |rest| ==> rest[i] == all[i + 1];
    }
  }

  /** On healthy olds the scale-down loop either does nothing or leaves the available total
      it was asked to leave, plus the skipped olds. */
  lemma {:induction false} ScaleDownFloor(olds: seq<Subset>, need: nat)
    requires AllHealthy(olds)
    ensures var after := ServingTotal(ScaleDown(olds, need));
            after == ServingTotal(olds) || after >= LiveTotal(olds) - need
    ensures ServingTotal(olds) == LiveTotal(olds)
    ensures ServingTotal(ScaleDown(olds, need)) <= ServingTotal(olds)
  {
    if olds == [] {
    } else {
      var o := olds[0];
      assert Healthy(o);
      if o.stored.Held? && o.view > need {
        HealthyTotals(olds[1..]);
        assert ScaleDown(olds, need)[1..] == olds[1..];
      } else {
        var need' := if o.stored.Gone? then need else need - o.view;
        ScaleDownFloor(olds[1..], need');
        assert ScaleDown(olds, need)[1..] == ScaleDown(olds[1..], need');
      }
    }
  }

  lemma {:induction false} HealthyTotals(olds: seq<Subset>)
    requires AllHealthy(olds)
    ensures ServingTotal(olds) == LiveTotal(olds)
  {
    if olds == [] {
    } else {
      assert Healthy(olds[0]);
      HealthyTotals(olds[1..]);
    }
  }

  /** A new workload whose status does not count replicas that its spec gave up, unless its
      spec alone already covers what is desired. */
  predicate NewSettled(desired: nat, spec: nat, avail: nat) {
    avail <= spec || spec >= desired
  }

  /** A pass leaves the olds' available replicas as they were, or enough of them to make up
      what is desired together with the new workload's. */
  lemma SyncOldsFloor(desired: nat, newAvail: nat, olds: seq<Subset>)
    requires AllFresh(olds)
    ensures var after := SyncOlds(desired, newAvail, olds);
            || ServingTotal(after.0) == ServingTotal(olds)
            || (after.1 && ServingTotal(after.0) + newAvail >= desired)
  {
    var excess := ViewTotal(olds) + newAvail - desired;
    CleanupRemovesUnhealthyOnly(olds, excess);
    var c := Cleanup(olds, excess);
    FloorAfterCleanup(olds, excess, c);
    assert SyncOlds(desired, newAvail, olds) == AfterCleanup(c, excess);
  }

  lemma FloorAfterCleanup(olds: seq<Subset>, excess: int, c: CleanupResult)
    requires Clean(olds, excess, c)
    ensures var after := AfterCleanup(c, excess);
            || ServingTotal(after.0) == ServingTotal(olds)
            || (after.1 && ServingTotal(after.0) >= ViewTotal(olds) - excess)
  {
    if !c.failed && c.count < excess {
      ScaleDownFloor(c.olds, excess - c.count);
    }
  }

  /** What a caller can check before the pass: the new workload alone has what is desired, or its
      status counts no more replicas than its spec will ask for after the step. */
  predicate SyncSafe(strategy: RolloutStrategy, batch: nat, desired: nat, newest: Subset) {
    newest.avail >= desired || newest.avail <= newest.view + StepSize(strategy, batch, desired, newest.view)
  }

  /** The pass does not take the available total below what it was or what is desired. */
  ghost predicate SyncKeepsFloor(strategy: RolloutStrategy, batch: nat, desired: nat, newest: Subset, olds: seq<Subset>) {
    var (olds', ok) := SyncOlds(desired, newest.avail, olds);
    var newest' := if ok then SyncNew(strategy, batch, desired, newest) else newest;
    newest'.Capped() + ServingTotal(olds') >= Min(desired, newest.Capped() + ServingTotal(olds))
  }

  /** Asked to remove all there is, the scale-down loop skips every old. */
  lemma {:induction false} ScaleDownSkips(olds: seq<Subset>, need: nat)
    requires Tracked(olds) && need >= LiveTotal(olds)
    ensures ScaleDown(olds, need) == olds
  {
    if olds == [] {
    } else {
      ScaleDownSkips(olds[1..], if olds[0].stored.Gone? then need else need - olds[0].view);
    }
  }

  /** When the new workload alone has what is desired, no old loses an available replica. */
  lemma CoveredKeepsOlds(desired: nat, newAvail: nat, olds: seq<Subset>)
    requires AllFresh(olds) && newAvail >= desired
    ensures ServingTotal(SyncOlds(desired, newAvail, olds).0) == ServingTotal(olds)
  {
    var excess := ViewTotal(olds) + newAvail - desired;
    var c := Cleanup(olds, excess);
    CleanupRemovesUnhealthyOnly(olds, excess);
    CleanupKeepsViews(olds, excess);
    if excess - c.count > 0 {
      ScaleDownSkips(c.olds, excess - c.count);
    }
  }

  lemma SyncFloor(strategy: RolloutStrategy, batch: nat, desired: nat, newest: Subset, olds: seq<Subset>)
    requires AllFresh(olds) && newest.Fresh()
    requires SyncSafe(strategy, batch, desired, newest)
    ensures SyncKeepsFloor(strategy, batch, desired, newest, olds)
  {
    SyncOldsFloor(desired, newest.avail, olds);
    if newest.avail >= desired {
      CoveredKeepsOlds(desired, newest.avail, olds);
    }
  }

  /** Otherwise a healthy old as large as what is desired is cut too far. */
  lemma SyncCrossesFloor(strategy: RolloutStrategy, batch: nat, desired: nat, newest: Subset)
    requires newest.Fresh() && !SyncSafe(strategy, batch, desired, newest)
    ensures !SyncKeepsFloor(strategy, batch, desired, newest, [Subset(desired, desired, Held(desired))])
  {
    var o := Subset(desired, desired, Held(desired));
    var olds := [o];
    assert ViewTotal(olds) == desired && ServingTotal(olds) == desired;
    assert Cleanup(olds, newest.avail) == CleanupResult(olds, 0, false) by {
      assert Cleanup(olds[1..], newest.avail) == CleanupResult([], 0, false);
    }
    assert newest.avail > 0 ==> ScaleDown(olds, newest.avail) == [o.(stored := Held(desired - newest.avail))];
    assert ServingTotal([o.(stored := Held(desired - newest.avail))]) == desired - newest.avail;
  }

  /** One pass keeps the floor for every list of olds exactly under that condition. */
  lemma SyncFloorExactly(strategy: RolloutStrategy, batch: nat, desired: nat, newest: Subset)
    requires newest.Fresh()
    ensures SyncSafe(strategy, batch, desired, newest)
       <==> forall olds :: AllFresh(olds) ==> SyncKeepsFloor(strategy, batch, desired, newest, olds)
  {
    if SyncSafe(strategy, batch, desired, newest) {
      forall olds | AllFresh(olds) ensures SyncKeepsFloor(strategy, batch, desired, newest, olds) {
        SyncFloor(strategy, batch, desired, newest, olds);
      }
    } else {
      SyncCrossesFloor(strategy, batch, desired, newest);
      assert AllFresh([Subset(desired, desired, Held(desired))]);
    }
  }

  /** A settled new workload is safe to sync, whatever the rollout settings, and stays settled. */
  lemma SettledIsSafe(strategy: RolloutStrategy, batch: nat, desired: nat, newest: Subset)
    requires NewSettled(desired, newest.view, newest.avail)
    ensures SyncSafe(strategy, batch, desired, newest)
    ensures NewSettled(desired, SyncNew(strategy, batch, desired, newest).stored.replicas, newest.avail)
  {
  }

  // ---------- what is left, in full ----------

  /** What a cleanup leaves of old workloads, told without subsets: unhealthy replicas go, in order
      and as far as the budget reaches, and a workload that loses its last replica goes with it. */
  function Surviving(ws: seq<Workload>, budget: int): seq<Workload> {
    if ws == [] then []
    else
      var removed := Max(0, Min(ws[0].spec - ws[0].avail, budget));
      var left := ws[0].spec - removed;
      var rest := Surviving(ws[1..], budget - removed);
      if ws[0].spec > 0 && left == 0 then rest else [Workload(left, ws[0].avail)] + rest
  }

  predicate NoneOver(ws: seq<Workload>) {
    forall i :: 0 <= i < |ws| ==> ws[i].avail <= ws[i].spec
  }

  function Unhealthy(ws: seq<Workload>): int {
    if ws == [] then 0 else ws[0].spec - ws[0].avail + Unhealthy(ws[1..])
  }

  lemma {:induction false} SurvivingAll(ws: seq<Workload>, budget: int)
    requires budget <= 0
    ensures Surviving(ws, budget) == ws
  {
    if ws == [] {
    } else {
      SurvivingAll(ws[1..], budget);
    }
  }

  /** What the next listing has of the olds after a cleanup. */
  function CleanedUp(ws: seq<Workload>, budget: int): seq<Workload> {
    Persisted(Cleanup(ObserveAll(ws), budget).olds)
  }

  lemma CleanedUpFirst(ws: seq<Workload>, budget: int)
    requires ws != [] && NoneOver(ws)
    ensures var removed := Max(0, Min(ws[0].spec - ws[0].avail, budget));
            var left, rest := ws[0].spec - removed, CleanedUp(ws[1..], budget - removed);
            CleanedUp(ws, budget) == if ws[0].spec > 0 && left == 0 then rest else [Workload(left, ws[0].avail)] + rest
  {
    var cut := Max(0, Min(ws[0].spec - ws[0].avail, budget));
    CleanupOfFirst(ws, budget);
    PersistedFirst(Cut(Observe(ws[0]), cut), Cleanup(ObserveAll(ws[1..]), budget - cut).olds);
  }

  /** The cleanup deletes exactly the olds whose replicas it removed to the last, and the next
      listing is without them. */
  lemma {:induction false} CleanupSurvivors(ws: seq<Workload>, budget: int)
    requires NoneOver(ws)
    ensures CleanedUp(ws, budget) == Surviving(ws, budget)
  {
    if ws == [] {
    } else {
      CleanedUpFirst(ws, budget);
      CleanupSurvivors(ws[1..], budget - Max(0, Min(ws[0].spec - ws[0].avail, budget)));
    }
  }

  lemma PersistedFirst(o: Subset, rest: seq<Subset>)
    ensures Persisted([o] + rest)
         == if o.stored.Gone? then Persisted(rest) else [Workload(o.stored.replicas, o.avail)] + Persisted(rest)
  {
    assert ([o] + rest)[1..] == rest;
  }

  /** It removes all the unhealthy replicas its budget reaches, and does not fail. */
  lemma {:induction false} CleanupCounts(ws: seq<Workload>, budget: int)
    requires NoneOver(ws)
    ensures Cleanup(ObserveAll(ws), budget).count == Max(0, Min(Unhealthy(ws), budget))
    ensures !Cleanup(ObserveAll(ws), budget).failed && Unhealthy(ws) >= 0
  {
    if ws == [] {
    } else {
      CleanupCounts(ws[1..], budget - Max(0, Min(ws[0].spec - ws[0].avail, budget)));
      CleanupOfFirst(ws, budget);
    }
  }

  lemma CleanupOfFirst(ws: seq<Workload>, budget: int)
    requires ws != [] && ws[0].avail <= ws[0].spec
    ensures var cut := Max(0, Min(ws[0].spec - ws[0].avail, budget));
            var c, rest := Cleanup(ObserveAll(ws), budget), Cleanup(ObserveAll(ws[1..]), budget - cut);
            && c.olds == [Cut(Observe(ws[0]), cut)] + rest.olds
            && c.count == cut + rest.count && c.failed == rest.failed
  {
    var olds := ObserveAll(ws);
    assert olds[1..] == ObserveAll(ws[1..]);
    if budget <= 0 {
      assert olds == [olds[0]] + olds[1..];
    }
  }

  /** An old that had replicas is deleted, or is left with some: none stays behind at zero. */
  lemma {:induction false} NoneLeftEmpty(olds: seq<Subset>, budget: int)
    requires AllFresh(olds)
    ensures |Cleanup(olds, budget).olds| == |olds|
    ensures forall i :: 0 <= i < |olds| ==>
              var o := Cleanup(olds, budget).olds[i];
              if olds[i].view == 0 then o == olds[i] else o.stored.Gone? || o.stored.replicas > 0
  {
    if olds == [] || budget <= 0 || olds[0].view < olds[0].avail {
    } else {
      NoneLeftEmpty(olds[1..], budget - Min(olds[0].view - olds[0].avail, budget));
    }
  }

  /** The cleanup fails at an old that reports more available replicas than its spec, when there is
      budget left for it. */
  lemma CleanupFails(ws: seq<Workload>, over: Workload, rest: seq<Workload>, budget: int)
    requires NoneOver(ws) && over.avail > over.spec
    ensures Cleanup(ObserveAll(ws + [over] + rest), budget).failed <==> Unhealthy(ws) < budget
    decreases |ws|
  {
    var all := ws + [over] + rest;
    var olds := ObserveAll(all);
    if ws == [] {
      assert all[0] == over;
    } else {
      var cut := Max(0, Min(ws[0].spec - ws[0].avail, budget));
      UnhealthyNonNegative(ws[1..]);
      assert all[0] == ws[0] && all[1..] == ws[1..] + [over] + rest;
      assert olds[1..] == ObserveAll(all[1..]);
      CleanupFails(ws[1..], over, rest, budget - cut);
    }
  }

  lemma {:induction false} UnhealthyNonNegative(ws: seq<Workload>)
    requires NoneOver(ws)
    ensures Unhealthy(ws) >= 0
  {
    if ws == [] {
    } else {
      UnhealthyNonNegative(ws[1..]);
    }
  }

  /** Old `k` is the first that is larger than what is then left to remove. */
  predicate FirstTooLarge(olds: seq<Subset>, need: nat, k: nat) {
    && k < |olds| && olds[k].stored.Held? && olds[k].view > need - LiveTotal(olds[..k])
    && forall i :: 0 <= i < k ==> Fits(olds, need, i)
  }

  predicate Fits(olds: seq<Subset>, need: nat, i: nat)
    requires i < |olds|
  {
    olds[i].stored.Gone? || olds[i].view <= need - LiveTotal(olds[..i])
  }

  lemma FitsOneOn(olds: seq<Subset>, need: nat, i: nat)
    requires olds != [] && i < |olds| - 1 && Fits(olds, need, 0)
    ensures var left := if olds[0].stored.Gone? then need else need - olds[0].view;
            && LiveTotal(olds[..i + 1]) + left == LiveTotal(olds[1..][..i]) + need
            && (Fits(olds, need, i + 1) <==> Fits(olds[1..], left, i))
  {
    assert olds[..i + 1][1..] == olds[1..][..i];
  }

  /** Scale-down takes what is left from the first old that is larger, and nothing from any other;
      when there is none, nothing at all. */
  lemma {:induction false} ScaleDownExactly(olds: seq<Subset>, need: nat, k: nat)
    requires FirstTooLarge(olds, need, k)
    ensures LiveTotal(olds[..k]) <= need
    ensures ScaleDown(olds, need)
         == olds[k := olds[k].(stored := Held(olds[k].view - (need - LiveTotal(olds[..k]))))]
    decreases |olds|
  {
    if k == 0 {
      assert olds[..0] == [];
      assert ScaleDown(olds, need) == [olds[0].(stored := Held(olds[0].view - need))] + olds[1..];
    } else {
      assert Fits(olds, need, 0) && olds[..0] == [];
      var left := if olds[0].stored.Gone? then need else need - olds[0].view;
      FitsOneOn(olds, need, k - 1);
      forall i | 0 <= i < k - 1 ensures Fits(olds[1..], left, i) {
        FitsOneOn(olds, need, i);
        assert Fits(olds, need, i + 1);
      }
      ScaleDownExactly(olds[1..], left, k - 1);
    }
  }

  lemma {:induction false} ScaleDownNothing(olds: seq<Subset>, need: nat)
    requires forall i :: 0 <= i < |olds| ==> Fits(olds, need, i)
    ensures ScaleDown(olds, need) == olds
    decreases |olds|
  {
    if olds == [] {
    } else {
      assert Fits(olds, need, 0) && olds[..0] == [];
      var left := if olds[0].stored.Gone? then need else need - olds[0].view;
      forall i | 0 <= i < |olds| - 1 ensures Fits(olds[1..], left, i) {
        FitsOneOn(olds, need, i);
        assert Fits(olds, need, i + 1);
      }
      ScaleDownNothing(olds[1..], left);
    }
  }

  /** A pass in full: the excess of spec over what is desired beside the new workload's available
      replicas is taken from unhealthy replicas, */
  lemma SyncCleans(desired: nat, newAvail: nat, ws: seq<Workload>)
    requires NoneOver(ws) && SpecTotal(ws) + newAvail - desired <= Unhealthy(ws)
    ensures SyncOlds(desired, newAvail, ObserveAll(ws)).1
    ensures Persisted(SyncOlds(desired, newAvail, ObserveAll(ws)).0)
         == Surviving(ws, SpecTotal(ws) + newAvail - desired)
  {
    var excess := SpecTotal(ws) + newAvail - desired;
    SyncOldsIs(desired, newAvail, ws);
    CleanupCounts(ws, excess);
    CountedCleanup(Cleanup(ObserveAll(ws), excess), excess, Unhealthy(ws));
    CleanupSurvivors(ws, excess);
  }

  /** and only what they do not cover is scaled down. */
  lemma SyncScalesDown(desired: nat, newAvail: nat, ws: seq<Workload>)
    requires NoneOver(ws) && SpecTotal(ws) + newAvail - desired > Unhealthy(ws)
    ensures var excess := SpecTotal(ws) + newAvail - desired;
            && SyncOlds(desired, newAvail, ObserveAll(ws)).1
            && Unhealthy(ws) >= 0
            && SyncOlds(desired, newAvail, ObserveAll(ws)).0
               == ScaleDown(Cleanup(ObserveAll(ws), excess).olds, excess - Unhealthy(ws))
  {
    var excess := SpecTotal(ws) + newAvail - desired;
    SyncOldsIs(desired, newAvail, ws);
    CleanupCounts(ws, excess);
    CountedCleanup(Cleanup(ObserveAll(ws), excess), excess, Unhealthy(ws));
  }

  lemma SyncOldsIs(desired: nat, newAvail: nat, ws: seq<Workload>)
    ensures var excess := SpecTotal(ws) + newAvail - desired;
            SyncOlds(desired, newAvail, ObserveAll(ws)) == AfterCleanup(Cleanup(ObserveAll(ws), excess), excess)
  {
    ObservedTotals(ws);
  }

  lemma CountedCleanup(c: CleanupResult, excess: int, unhealthy: nat)
    requires !c.failed && c.count == Max(0, Min(unhealthy, excess))
    ensures AfterCleanup(c, excess)
         == (if excess <= unhealthy then c.olds else ScaleDown(c.olds, excess - unhealthy), true)
  {
  }

  lemma FrontFirst<T>(x: T, a: seq<T>, b: seq<T>)
    ensures ([x] + a) + b == [x] + (a + b)
  {
  }

  lemma CleanupHead(olds: seq<Subset>, budget: int)
    requires olds != [] && budget > 0 && olds[0].avail <= olds[0].view
    ensures var cut := Min(olds[0].view - olds[0].avail, budget);
            && Kept(olds, budget) == [Cut(olds[0], cut)] + Kept(olds[1..], budget - cut)
            && Cleanup(olds, budget).count == cut + Cleanup(olds[1..], budget - cut).count
  {
  }

  /** What the loop leaves of the olds, on its own. */
  function Kept(olds: seq<Subset>, budget: int): seq<Subset> {
    Cleanup(olds, budget).olds
  }

  lemma {:induction false} FailsAfter(olds: seq<Subset>, tail: seq<Subset>, budget: int)
    requires forall i :: 0 <= i < |olds| ==> olds[i].avail <= olds[i].view
    requires tail != [] && tail[0].view < tail[0].avail && Cleanup(olds, budget).count < budget
    ensures Kept(olds + tail, budget) == Kept(olds, budget) + tail
    decreases |olds|
  {
    if olds == [] {
      assert olds + tail == tail;
    } else {
      var o, all := olds[0], olds + tail;
      var cut := Min(o.view - o.avail, budget);
      assert all[0] == o && all[1..] == olds[1..] + tail;
      CleanupHead(olds, budget);
      CleanupHead(all, budget);
      FailsAfter(olds[1..], tail, budget - cut);
      FrontFirst(Cut(o, cut), Kept(olds[1..], budget - cut), tail);
    }
  }

  /** A failing cleanup has removed what it reached before the old that makes it fail, and nothing
      behind it. */
  lemma FailedCleanup(ws: seq<Workload>, tail: seq<Workload>, budget: int)
    requires NoneOver(ws) && tail != [] && tail[0].avail > tail[0].spec && Unhealthy(ws) < budget
    ensures Cleanup(ObserveAll(ws + tail), budget).olds == Cleanup(ObserveAll(ws), budget).olds + ObserveAll(tail)
  {
    CleanupCounts(ws, budget);
    FailsAfter(ObserveAll(ws), ObserveAll(tail), budget);
    assert ObserveAll(ws + tail) == ObserveAll(ws) + ObserveAll(tail);
  }

  /** And it ends the pass: nothing is scaled down, and the new workload is not touched. */
  lemma SyncFails(desired: nat, newAvail: nat, ws: seq<Workload>, over: Workload, rest: seq<Workload>)
    requires NoneOver(ws) && over.avail > over.spec
    requires Unhealthy(ws) < SpecTotal(ws + [over] + rest) + newAvail - desired
    ensures var all := ws + [over] + rest;
            SyncOlds(desired, newAvail, ObserveAll(all))
            == (Cleanup(ObserveAll(ws), SpecTotal(all) + newAvail - desired).olds + ObserveAll([over] + rest), false)
  {
    var all := ws + [over] + rest;
    var excess := SpecTotal(all) + newAvail - desired;
    SyncOldsIs(desired, newAvail, all);
    CleanupFails(ws, over, rest, excess);
    assert all == ws + ([over] + rest);
    FailedCleanup(ws, [over] + rest, excess);
  }
}
