/** One RollingUpdate pass over a region, its two fences, and its convergence. */
module RollingUpdate {
  import opened Basics
  import opened Workloads
  import opened RecreateSync

  // ---------- fenceposts ----------

  /** A count, a percentage of the desired replicas, or text that is neither. */
  datatype IntOrPercent = IntVal(count: int) | Percent(percent: int) | Malformed

  /** Settings of the rolling update; either bound may be left out. */
  datatype Settings = Settings(maxSurge: Option<IntOrPercent>, maxUnavailable: Option<IntOrPercent>)

  /** Percentages round up. */
  function Resolve(x: Option<IntOrPercent>, total: nat): Option<int> {
    match x
    case None => None
    case Some(IntVal(n)) => Some(n)
    case Some(Percent(p)) => Some((p * total + 99) / 100)
    case Some(Malformed) => None
  }

  function OrZero(x: Option<IntOrPercent>): Option<IntOrPercent> {
    if x.None? then Some(IntVal(0)) else x
  }

  /** The pair (surge, unavailable), never (0, 0). */
  function ResolveFenceposts(settings: Settings, desired: nat): (r: Option<(int, int)>)
    ensures r.Some? ==> r.value != (0, 0)
    ensures r.None? <==> settings.maxSurge == Some(Malformed) || settings.maxUnavailable == Some(Malformed)
  {
    match (Resolve(OrZero(settings.maxSurge), desired), Resolve(OrZero(settings.maxUnavailable), desired))
    case (Some(surge), Some(unavailable)) =>
      Some((surge, if surge == 0 && unavailable == 0 then 1 else unavailable))
    case _ => None
  }

  /** Settings that do not parse count as zero here: the error is dropped. */
  function MaxUnavailable(settings: Settings, desired: nat): int {
    if desired == 0 then 0
    else match ResolveFenceposts(settings, desired)
      case Some((_, unavailable)) => unavailable
      case None => 0
  }

  function MinAvailable(settings: Settings, desired: nat): int {
    desired - MaxUnavailable(settings, desired)
  }

  /** Replicas for a new workload that is below `desired`, when the region's spec total is `total`. */
  function NewReplicas(settings: Settings, desired: nat, total: nat, view: nat): (r: Option<nat>)
    requires view < desired
    ensures r.Some? <==> Resolve(settings.maxSurge, desired).Some?
    ensures r.Some? ==> view <= r.value <= desired
  {
    match Resolve(settings.maxSurge, desired)
    case None => None
    case Some(surge) =>
      if total >= desired + surge then Some(view)
      else Some(view + Min(desired + surge - total, desired - view))
  }

  // ---------- the pass ----------

  /** The new workload after its turn; None when the settings stop the pass. */
  function RollNew(settings: Settings, desired: nat, newest: Subset, oldTotal: nat): Option<Subset> {
    if newest.view == desired then Some(newest)
    else if newest.view > desired then Some(newest.(stored := Held(desired)))
    else match NewReplicas(settings, desired, oldTotal + newest.view, newest.view)
      case None => None
      case Some(n) => Some(newest.(stored := Held(n)))
  }

  /** Scale-down of the olds that were listed at the start of the pass, so including those
      the cleanup deleted: reaching one of those ends the loop. */
  function RollDown(olds: seq<Subset>, budget: int): seq<Subset> {
    if olds == [] || budget <= 0 then olds
    else
      var o := olds[0];
      if o.view == 0 then [o] + RollDown(olds[1..], budget)
      else if o.stored.Gone? then olds
      else
        var cut := Min(o.view, budget);
        [o.(stored := Held(o.view - cut))] + RollDown(olds[1..], budget - cut)
  }

  function RollOlds(floor: int, newest: Subset, olds: seq<Subset>): seq<Subset> {
    var maxScaleDown := ViewTotal(olds) + newest.avail - floor;
    if ViewTotal(olds) == 0 || maxScaleDown <= 0 then olds
    else
      RollAfterCleanup(floor, newest, Cleanup(olds, maxScaleDown))
  }

  function RollAfterCleanup(floor: int, newest: Subset, c: CleanupResult): seq<Subset> {
    if c.failed then c.olds else RollDown(c.olds, LiveTotal(c.olds) + newest.view - floor)
  }

  /** The pass on a listed region: (newest, olds), or None when the settings stop it at once. */
  function RollingPass(settings: Settings, desired: nat, newest: Subset, olds: seq<Subset>)
    : Option<(Subset, seq<Subset>)>
  {
    match RollNew(settings, desired, newest, ViewTotal(olds))
    case None => None
    case Some(newest') => Some((newest', RollOlds(MinAvailable(settings, desired), newest, olds)))
  }

  // ---------- the methods ----------

  method LiveCount(subsets: seq<Subset>) returns (count: nat)
    ensures count == LiveTotal(subsets)
  {
    count := 0;
    for i := 0 to |subsets|
      invariant count + LiveTotal(subsets[i..]) == LiveTotal(subsets)
    {
      if subsets[i].stored.Held? {
        count := count + subsets[i].view;
      }
    }
  }

  method ReconcileNewSubset(region: RegionControl, settings: Settings) returns (ok: bool)
    requires region.newest.Fresh()
    modifies region`newest
    ensures var n := RollNew(settings, region.desired, old(region.newest), ViewTotal(region.olds));
            ok == n.Some? && region.newest == if ok then n.value else old(region.newest)
  {
    var newest := region.newest;
    if newest.view == region.desired {
      return true;
    }
    var replicas := region.desired;
    if newest.view < region.desired {
      var total := ReplicasCount(region.olds);
      match NewReplicas(settings, region.desired, total + newest.view, newest.view) {
        case None => return false;
        case Some(n) => replicas := n;
      }
    }
    region.newest, ok := ScaleSubset(newest, replicas);
  }

  lemma RollDownStep(olds: seq<Subset>, i: nat, budget: int)
    requires i < |olds| && budget > 0
    ensures var o, cut := olds[i], Min(olds[i].view, budget);
      RollDown(olds[i..], budget)
        == if o.view == 0 then [o] + RollDown(olds[i + 1..], budget)
           else if o.stored.Gone? then olds[i..]
           else [o.(stored := Held(o.view - cut))] + RollDown(olds[i + 1..], budget - cut)
  {
    assert olds[i..][1..] == olds[i + 1..];
  }

  /** The loop has produced `done` from as many olds and has `left` to remove. */
  ghost predicate RollDownDone(olds: seq<Subset>, budget: int, done: seq<Subset>, left: int) {
    |done| <= |olds| && RollDown(olds, budget) == done + RollDown(olds[|done|..], left)
  }

  lemma RollDownAdvance(olds: seq<Subset>, budget: int, done: seq<Subset>, left: int, o: Subset, left': int)
    requires RollDownDone(olds, budget, done, left) && |done| < |olds|
    requires RollDown(olds[|done|..], left) == [o] + RollDown(olds[|done| + 1..], left')
    ensures RollDownDone(olds, budget, done + [o], left')
  {
    MoveHead(done, o, RollDown(olds[|done| + 1..], left'));
  }

  method ScaleDownOldSubsets(olds: seq<Subset>, budget: int) returns (olds': seq<Subset>)
    requires Tracked(olds)
    ensures olds' == RollDown(olds, budget)
  {
    olds' := [];
    var left, i := budget, 0;
    assert olds[0..] == olds;
    while i < |olds| && left > 0
      invariant |olds'| == i <= |olds|
      invariant RollDownDone(olds, budget, olds', left)
    {
      var o, left' := olds[i], left;
      RollDownStep(olds, i, left);
      if o.view != 0 {
        var cut := Min(o.view, left);
        var scaled, ok := ScaleSubset(o, o.view - cut);
        if !ok {
          return olds' + olds[i..];
        }
        o, left' := scaled, left - cut;
      }
      RollDownAdvance(olds, budget, olds', left, o, left');
      olds', i, left := olds' + [o], i + 1, left';
    }
    olds' := olds' + olds[i..];
  }

  /** `newest` is the new workload as listed: its scale-up earlier in the pass is not seen here. */
  method ReconcileOldSubsets(region: RegionControl, newest: Subset, settings: Settings)
    requires AllFresh(region.olds)
    modifies region`olds
    ensures region.olds == RollOlds(MinAvailable(settings, region.desired), newest, old(region.olds))
  {
    var total := ReplicasCount(region.olds);
    if total == 0 {
      return;
    }
    var floor := region.desired - MaxUnavailable(settings, region.desired);
    var maxScaleDown := total + newest.view - floor - (newest.view - newest.avail);
    if maxScaleDown <= 0 {
      return;
    }
    CleanupKeepsViews(region.olds, maxScaleDown);
    var _, ok := region.CleanupUnhealthyReplicas(maxScaleDown);
    if !ok {
      return;
    }
    var available := LiveCount(region.olds);
    region.olds := ScaleDownOldSubsets(region.olds, available + newest.view - floor);
  }

  method RollRegion(region: RegionControl, settings: Settings) returns (ok: bool)
    requires AllFresh(region.olds) && region.newest.Fresh()
    modifies region
    ensures var p := RollingPass(settings, region.desired, old(region.newest), old(region.olds));
            && ok == p.Some?
            && (region.newest, region.olds) == if ok then p.value else old((region.newest, region.olds))
  {
    var listed := region.newest;
    ok := ReconcileNewSubset(region, settings);
    if ok {
      ReconcileOldSubsets(region, listed, settings);
    }
  }

  // ---------- fences ----------

  /** Scaling down removes exactly the budget from healthy olds, or all there is, or stops early;
      it never removes more available replicas than the budget. */
  lemma {:induction false} RollDownBounds(olds: seq<Subset>, budget: int)
    requires Tracked(olds)
    ensures ServingTotal(RollDown(olds, budget)) >= ServingTotal(olds) - Max(budget, 0)
    ensures StoredTotal(RollDown(olds, budget)) <= StoredTotal(olds)
    ensures ServingTotal(RollDown(olds, budget)) <= ServingTotal(olds)
  {
    if olds == [] || budget <= 0 {
    } else {
      var o := olds[0];
      if o.view == 0 {
        RollDownBounds(olds[1..], budget);
        assert RollDown(olds, budget)[1..] == RollDown(olds[1..], budget);
      } else if o.stored.Held? {
        var cut := Min(o.view, budget);
        RollDownBounds(olds[1..], budget - cut);
        assert RollDown(olds, budget)[1..] == RollDown(olds[1..], budget - cut);
      }
    }
  }

  lemma {:induction false} CleanupShrinks(olds: seq<Subset>, budget: int)
    requires AllFresh(olds)
    ensures StoredTotal(Cleanup(olds, budget).olds) <= StoredTotal(olds)
  {
    if olds == [] || budget <= 0 || olds[0].view < olds[0].avail {
    } else {
      var cut := Min(olds[0].view - olds[0].avail, budget);
      CleanupShrinks(olds[1..], budget - cut);
      assert Cleanup(olds, budget).olds[1..] == Cleanup(olds[1..], budget - cut).olds;
    }
  }

  /** The spec total after a pass is at most what it was, or the desired replicas plus the surge. */
  lemma SurgeFence(settings: Settings, desired: nat, newest: Subset, olds: seq<Subset>)
    requires AllFresh(olds) && newest.Fresh()
    requires RollingPass(settings, desired, newest, olds).Some?
    ensures var (newest', olds') := RollingPass(settings, desired, newest, olds).value;
            var before := newest.view + ViewTotal(olds);
            var after := newest'.stored.replicas + StoredTotal(olds');
            && (newest.view >= desired ==> after <= before)
            && (newest.view < desired ==>
                  after <= Max(before, desired + Resolve(settings.maxSurge, desired).value))
  {
    FreshTotals(olds);
    var floor := MinAvailable(settings, desired);
    OldsShrink(floor, newest, olds);
  }

  lemma OldsShrink(floor: int, newest: Subset, olds: seq<Subset>)
    requires AllFresh(olds)
    ensures StoredTotal(RollOlds(floor, newest, olds)) <= StoredTotal(olds)
    ensures ServingTotal(RollOlds(floor, newest, olds)) <= ServingTotal(olds)
  {
    var maxScaleDown := ViewTotal(olds) + newest.avail - floor;
    if ViewTotal(olds) != 0 && maxScaleDown > 0 {
      CleanupShrinks(olds, maxScaleDown);
      CleanupRemovesUnhealthyOnly(olds, maxScaleDown);
      CleanupKeepsViews(olds, maxScaleDown);
      var c := Cleanup(olds, maxScaleDown);
      RollDownBounds(c.olds, LiveTotal(c.olds) + newest.view - floor);
    }
  }

  /** What a pass leaves of the olds' available replicas: all of them, or enough for the floor,
      short of it by at most the replicas the new workload has asked for and not got. */
  ghost predicate Left(floor: int, newest: Subset, olds: seq<Subset>, olds': seq<Subset>) {
    || ServingTotal(olds') >= ServingTotal(olds) - Max(newest.view - newest.avail, 0)
    || ServingTotal(olds') + newest.view >= floor
  }

  lemma OldsFloor(floor: int, newest: Subset, olds: seq<Subset>)
    requires AllFresh(olds)
    ensures Left(floor, newest, olds, RollOlds(floor, newest, olds))
  {
    var maxScaleDown := ViewTotal(olds) + newest.avail - floor;
    if ViewTotal(olds) != 0 && maxScaleDown > 0 {
      CleanupRemovesUnhealthyOnly(olds, maxScaleDown);
      CleanupKeepsViews(olds, maxScaleDown);
      var c := Cleanup(olds, maxScaleDown);
      FloorAfterCleaning(floor, newest, olds, c);
      assert RollOlds(floor, newest, olds) == RollAfterCleanup(floor, newest, c);
    }
  }

  lemma FloorAfterCleaning(floor: int, newest: Subset, olds: seq<Subset>, c: CleanupResult)
    requires Clean(olds, ViewTotal(olds) + newest.avail - floor, c) && Tracked(c.olds)
    requires ViewTotal(olds) + newest.avail - floor > 0
    ensures Left(floor, newest, olds, RollAfterCleanup(floor, newest, c))
  {
    if !c.failed {
      RollDownBounds(c.olds, LiveTotal(c.olds) + newest.view - floor);
      if c.count < ViewTotal(olds) + newest.avail - floor {
        HealthyTotals(c.olds);
      }
    }
  }

  /** Available replicas after a pass from a listed region. */
  function AvailableAfter(settings: Settings, desired: nat, newest: Subset, olds: seq<Subset>): nat {
    match RollingPass(settings, desired, newest, olds)
    case None => newest.Capped() + ServingTotal(olds)
    case Some((newest', olds')) => newest'.Capped() + ServingTotal(olds')
  }

  /** In every state, the floor is missed by at most what the new workload is missing. A floor
      above the desired number (maxUnavailable is not checked for its sign) is only kept as far
      as that number when the new workload is being scaled down to it. */
  lemma AvailabilityFence(settings: Settings, desired: nat, newest: Subset, olds: seq<Subset>)
    requires AllFresh(olds) && newest.Fresh()
    ensures var floor := MinAvailable(settings, desired);
            AvailableAfter(settings, desired, newest, olds)
            >= Min(newest.Capped() + ServingTotal(olds),
                   if newest.view <= desired then floor else Min(floor, desired))
               - Max(newest.view - newest.avail, 0)
  {
    OldsFloor(MinAvailable(settings, desired), newest, olds);
  }

  /** The settings end the pass before it touches anything. */
  predicate Stopped(settings: Settings, desired: nat, newest: Subset) {
    newest.view < desired && Resolve(settings.maxSurge, desired).None?
  }

  /** What a caller can check before the pass: the settings stop it; or the new workload is fully
      available or alone reaches the floor, and is not scaled down below it. */
  predicate FloorSafe(settings: Settings, desired: nat, newest: Subset) {
    var floor := MinAvailable(settings, desired);
    || Stopped(settings, desired, newest)
    || ((newest.avail >= newest.view || newest.avail >= floor) && (newest.view <= desired || floor <= desired))
  }

  ghost predicate FloorKept(settings: Settings, desired: nat, newest: Subset, olds: seq<Subset>) {
    AvailableAfter(settings, desired, newest, olds)
    >= Min(newest.Capped() + ServingTotal(olds), MinAvailable(settings, desired))
  }

  lemma FloorHolds(settings: Settings, desired: nat, newest: Subset, olds: seq<Subset>)
    requires AllFresh(olds) && newest.Fresh()
    requires FloorSafe(settings, desired, newest)
    ensures FloorKept(settings, desired, newest, olds)
  {
    if newest.avail >= newest.view {
      AvailabilityFence(settings, desired, newest, olds);
    }
  }

  /** One healthy old large enough makes the pass cross the floor when the new workload is short
      of both its spec and the floor. */
  lemma FloorCrossed(settings: Settings, desired: nat, newest: Subset, size: nat)
    requires newest.Fresh() && !Stopped(settings, desired, newest)
    requires newest.avail < newest.view && newest.avail < MinAvailable(settings, desired) < size
    ensures !FloorKept(settings, desired, newest, [Subset(size, size, Held(size))])
  {
    var floor := MinAvailable(settings, desired);
    var o := Subset(size, size, Held(size));
    var olds := [o];
    var excess := size + newest.avail - floor;
    assert ViewTotal(olds) == size && ServingTotal(olds) == size && LiveTotal(olds) == size;
    assert Cleanup(olds, excess) == CleanupResult(olds, 0, false) by {
      assert Cleanup(olds[1..], excess) == CleanupResult([], 0, false);
    }
    var budget := size + newest.view - floor;
    var cut := Min(size, budget);
    assert RollDown(olds[1..], budget - cut) == [];
    assert RollDown(olds, budget) == [o.(stored := Held(size - cut))];
    assert RollOlds(floor, newest, olds) == [o.(stored := Held(size - cut))];
    assert ServingTotal([o.(stored := Held(size - cut))]) == size - cut;
  }

  /** Scaling the new workload down to a desired number below the floor crosses it by itself. */
  lemma FloorCrossedAlone(settings: Settings, desired: nat, newest: Subset)
    requires newest.Fresh() && newest.view > desired && newest.avail > desired
    requires MinAvailable(settings, desired) > desired
    ensures !FloorKept(settings, desired, newest, [])
  {
    assert RollOlds(MinAvailable(settings, desired), newest, []) == [];
  }

  /** The pass keeps the availability floor for every list of olds exactly under that condition. */
  lemma FloorExactly(settings: Settings, desired: nat, newest: Subset)
    requires newest.Fresh()
    ensures FloorSafe(settings, desired, newest)
       <==> forall olds :: AllFresh(olds) ==> FloorKept(settings, desired, newest, olds)
  {
    if FloorSafe(settings, desired, newest) {
      forall olds | AllFresh(olds) ensures FloorKept(settings, desired, newest, olds) {
        FloorHolds(settings, desired, newest, olds);
      }
    } else if newest.avail < newest.view && newest.avail < MinAvailable(settings, desired) {
      var size := MinAvailable(settings, desired) + 1;
      FloorCrossed(settings, desired, newest, size);
      assert AllFresh([Subset(size, size, Held(size))]);
    } else {
      FloorCrossedAlone(settings, desired, newest);
      assert AllFresh([]);
    }
  }

  /** The gate in front of the pass: a region being scaled down passes it whatever is available. */
  predicate TermReady(desired: nat, newest: Subset) {
    desired < newest.view || newest.avail >= newest.view
  }

  /** The gate gives the floor while the new workload is not above the desired number; above it,
      it lets through passes that cross the floor. */
  lemma GateGivesFloor(settings: Settings, desired: nat, newest: Subset, olds: seq<Subset>)
    requires AllFresh(olds) && newest.Fresh()
    requires TermReady(desired, newest) && newest.view <= desired
    ensures FloorKept(settings, desired, newest, olds)
  {
    FloorHolds(settings, desired, newest, olds);
  }

  lemma GateMissesScaleDown()
    ensures var settings := Settings(Some(IntVal(1)), Some(IntVal(0)));
            var newest := Subset(5, 1, Held(5));
            && TermReady(3, newest)
            && !FloorKept(settings, 3, newest, [Subset(5, 5, Held(5))])
  {
    FloorCrossed(Settings(Some(IntVal(1)), Some(IntVal(0))), 3, Subset(5, 1, Held(5)), 5);
  }

  // ---------- a pass, in full ----------

  /** Percentages of the desired replicas round up; a count stands for itself. */
  lemma ResolvesTo(x: Option<IntOrPercent>, total: nat)
    ensures forall n :: x == Some(IntVal(n)) ==> Resolve(x, total) == Some(n)
    ensures forall p :: x == Some(Percent(p)) ==>
              Resolve(x, total).Some? && 100 * (Resolve(x, total).value - 1) < p * total <= 100 * Resolve(x, total).value
    ensures x == None || x == Some(Malformed) ==> Resolve(x, total).None?
  {
  }

  /** A bound that is left out counts as zero here; two zeros let one replica be unavailable, and
      otherwise both count as they are. */
  lemma FencepostsExactly(settings: Settings, desired: nat, surge: int, unavailable: int)
    requires if settings.maxSurge.None? then surge == 0 else Resolve(settings.maxSurge, desired) == Some(surge)
    requires if settings.maxUnavailable.None? then unavailable == 0
             else Resolve(settings.maxUnavailable, desired) == Some(unavailable)
    ensures ResolveFenceposts(settings, desired)
         == Some(if surge == 0 && unavailable == 0 then (0, 1) else (surge, unavailable))
    ensures desired > 0 ==>
              MaxUnavailable(settings, desired) == if surge == 0 && unavailable == 0 then 1 else unavailable
    ensures desired == 0 ==> MaxUnavailable(settings, desired) == 0
  {
  }

  /** The new workload after a pass: at the desired number, or below it and at the ceiling, or
      where it was because there was no room under the ceiling. */
  lemma NewestExactly(settings: Settings, desired: nat, newest: Subset, olds: seq<Subset>)
    requires newest.Fresh() && RollingPass(settings, desired, newest, olds).Some?
    ensures var after := RollingPass(settings, desired, newest, olds).value.0;
            && after.view == newest.view && after.avail == newest.avail && after.stored.Held?
            && var n := after.stored.replicas;
               if newest.view >= desired then n == desired
               else
                 var ceiling := desired + Resolve(settings.maxSurge, desired).value;
                 && newest.view <= n <= desired
                 && (n == desired || ViewTotal(olds) + n >= ceiling)
                 && (n == newest.view || ViewTotal(olds) + n <= ceiling)
  {
  }

  /** A pass that finds no more than the floor, counting what the olds ask for and what the new
      workload has available, leaves the olds alone. */
  lemma OldsKeptAtFloor(settings: Settings, desired: nat, newest: Subset, olds: seq<Subset>)
    requires AllFresh(olds) && RollingPass(settings, desired, newest, olds).Some?
    requires newest.avail + ViewTotal(olds) <= MinAvailable(settings, desired)
    ensures RollingPass(settings, desired, newest, olds).value.1 == olds
  {
  }

  lemma RollOldsIs(floor: int, newest: Subset, ws: seq<Workload>)
    requires SpecTotal(ws) > 0 && newest.avail + SpecTotal(ws) > floor
    ensures RollOlds(floor, newest, ObserveAll(ws))
         == RollAfterCleanup(floor, newest, Cleanup(ObserveAll(ws), newest.avail + SpecTotal(ws) - floor))
  {
    ObservedTotals(ws);
  }

  lemma RollsAbove(floor: int, newest: Subset, ws: seq<Workload>, excess: int)
    requires NoneOver(ws) && SpecTotal(ws) > 0 && excess == newest.avail + SpecTotal(ws) - floor && excess > 0
    ensures RollOlds(floor, newest, ObserveAll(ws))
         == RollDown(Cleanup(ObserveAll(ws), excess).olds, SpecTotal(ws) - Min(Unhealthy(ws), excess) + newest.view - floor)
  {
    RollOldsIs(floor, newest, ws);
    CleanupCounts(ws, excess);
    CleanupLeaves(ws, excess);
  }

  lemma CleanupLeaves(ws: seq<Workload>, excess: int)
    ensures LiveTotal(Cleanup(ObserveAll(ws), excess).olds) == SpecTotal(ws) - Cleanup(ObserveAll(ws), excess).count
  {
    ObservedTotals(ws);
    CleanupRemovesUnhealthyOnly(ObserveAll(ws), excess);
  }

  lemma PassOlds(settings: Settings, desired: nat, newest: Subset, olds: seq<Subset>)
    requires RollingPass(settings, desired, newest, olds).Some?
    ensures RollingPass(settings, desired, newest, olds).value.1
         == RollOlds(MinAvailable(settings, desired), newest, olds)
  {
  }

  /** Otherwise what is above the floor is taken from unhealthy replicas first, as far as they go;
      then the olds are scaled down to what the new workload's spec leaves to the floor. */
  lemma OldsAboveFloor(settings: Settings, desired: nat, newest: Subset, ws: seq<Workload>, excess: int)
    requires NoneOver(ws) && SpecTotal(ws) > 0
    requires RollingPass(settings, desired, newest, ObserveAll(ws)).Some?
    requires excess == newest.avail + SpecTotal(ws) - MinAvailable(settings, desired) && excess > 0
    ensures RollingPass(settings, desired, newest, ObserveAll(ws)).value.1
         == RollDown(Cleanup(ObserveAll(ws), excess).olds,
                     SpecTotal(ws) - Min(Unhealthy(ws), excess) + newest.view - MinAvailable(settings, desired))
  {
    PassOlds(settings, desired, newest, ObserveAll(ws));
    RollsAbove(MinAvailable(settings, desired), newest, ws, excess);
  }

  lemma {:induction false} RollDownExact(olds: seq<Subset>, budget: int)
    requires AllFresh(olds)
    ensures StoredTotal(RollDown(olds, budget)) == Max(0, ViewTotal(olds) - Max(budget, 0))
  {
    if olds == [] || budget <= 0 {
      FreshTotals(olds);
    } else {
      var o := olds[0];
      assert o.Fresh();
      var cut := if o.view == 0 then 0 else Min(o.view, budget);
      RollDownExact(olds[1..], budget - cut);
      assert RollDown(olds, budget)[1..] == RollDown(olds[1..], budget - cut);
    }
  }

  /** Olds are scaled down one after the other, each as far as the budget then reaches. */
  lemma {:induction false} RollDownAt(olds: seq<Subset>, budget: int, i: nat)
    requires AllFresh(olds) && i < |olds|
    ensures |RollDown(olds, budget)| == |olds|
    ensures RollDown(olds, budget)[i]
         == olds[i].(stored := Held(olds[i].view - Max(0, Min(olds[i].view, budget - ViewTotal(olds[..i])))))
    decreases |olds|
  {
    var o := olds[0];
    assert o.Fresh() && olds[i].Fresh();
    if budget <= 0 {
      assert ViewTotal(olds[..i]) >= 0;
    } else {
      var left := if o.view == 0 then budget else budget - Min(o.view, budget);
      RollDownLength(olds[1..], left);
      if i > 0 {
        RollDownAt(olds[1..], left, i - 1);
        assert olds[..i][1..] == olds[1..][..i - 1];
      } else {
        assert olds[..0] == [];
      }
    }
  }

  lemma {:induction false} RollDownLength(olds: seq<Subset>, budget: int)
    ensures |RollDown(olds, budget)| == |olds|
  {
    if olds == [] || budget <= 0 || (olds[0].view != 0 && olds[0].stored.Gone?) {
    } else {
      RollDownLength(olds[1..], if olds[0].view == 0 then budget else budget - Min(olds[0].view, budget));
    }
  }

  /** The loop does not get past an old that the cleanup has deleted. */
  lemma RollDownStops(before: seq<Subset>, gone: Subset, rest: seq<Subset>, budget: int)
    requires AllFresh(before) && gone.stored.Gone? && gone.view > 0
    ensures RollDown(before + [gone] + rest, budget) == RollDown(before, budget) + [gone] + rest
    decreases |before|
  {
    var all := before + [gone] + rest;
    if before == [] {
      assert all[0] == gone;
    } else if budget > 0 {
      var o := before[0];
      assert o.Fresh() && all[0] == o && all[1..] == before[1..] + [gone] + rest;
      RollDownStops(before[1..], gone, rest, if o.view == 0 then budget else budget - Min(o.view, budget));
    }
  }

  /** A cleanup that fails, at an old that reports more available replicas than its spec, ends the
      olds' part of the pass. */
  lemma OldsWhenCleanupFails(
    settings: Settings, desired: nat, newest: Subset, ws: seq<Workload>, over: Workload, rest: seq<Workload>,
    all: seq<Workload>, excess: int)
    requires NoneOver(ws) && over.avail > over.spec && all == ws + [over] + rest && SpecTotal(all) > 0
    requires RollingPass(settings, desired, newest, ObserveAll(all)).Some?
    requires excess == newest.avail + SpecTotal(all) - MinAvailable(settings, desired) && excess > Unhealthy(ws)
    ensures RollingPass(settings, desired, newest, ObserveAll(all)).value.1
         == Cleanup(ObserveAll(ws), excess).olds + ObserveAll([over] + rest)
  {
    PassOlds(settings, desired, newest, ObserveAll(all));
    RollsUntilFailure(MinAvailable(settings, desired), newest, ws, over, rest, all, excess);
  }

  lemma RollsUntilFailure(
    floor: int, newest: Subset, ws: seq<Workload>, over: Workload, rest: seq<Workload>, all: seq<Workload>, excess: int)
    requires NoneOver(ws) && over.avail > over.spec && all == ws + [over] + rest && SpecTotal(all) > 0
    requires excess == newest.avail + SpecTotal(all) - floor && excess > Unhealthy(ws)
    ensures RollOlds(floor, newest, ObserveAll(all)) == Cleanup(ObserveAll(ws), excess).olds + ObserveAll([over] + rest)
  {
    UnhealthyNonNegative(ws);
    CleanupFails(ws, over, rest, excess);
    assert all == ws + ([over] + rest);
    FailedCleanup(ws, [over] + rest, excess);
    RollOldsIs(floor, newest, all);
  }
}
