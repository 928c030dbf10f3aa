/** Regions in which every pod that is asked for is available, and how such a region ends a
    rollout: once the new workload has the desired number, a reconcile pass no longer rolls but
    cleans up. */
module FullRegions {
  import opened Basics
  import opened Workloads
  import opened RecreateSync
  import opened RecreateRuns

  datatype Ready = Ready(newest: nat, olds: seq<nat>)

  function Total(specs: seq<nat>): nat {
    if specs == [] then 0 else specs[0] + Total(specs[1..])
  }

  predicate Done(desired: nat, r: Ready) {
    r.newest == desired && Total(r.olds) == 0
  }

  function Full(desired: nat, r: Ready): Region {
    Region(desired, Some(Workload(r.newest, r.newest)),
           seq(|r.olds|, i requires 0 <= i < |r.olds| => Workload(r.olds[i], r.olds[i])))
  }

  function Specs(ws: seq<Workload>): seq<nat> {
    seq(|ws|, i requires 0 <= i < |ws| => ws[i].spec)
  }

  /** The region once every pod that is asked for has become available. */
  function Rested(r: Region): Ready
    requires r.newest.Some?
  {
    Ready(r.newest.value.spec, Specs(r.olds))
  }

  /** A saturated region is cleaned: its olds are scaled to zero. */
  function Cleaned(desired: nat, r: Ready): Ready {
    var full := Full(desired, r);
    Rested(full.(olds := Emptied(full.olds, {}, 0)))
  }

  lemma CleanedIsDone(desired: nat, r: Ready)
    requires r.newest == desired
    ensures Done(desired, Cleaned(desired, r))
    ensures var full := Full(desired, r);
            full.Saturated() && Next(full, CleanSaturated({}), full.(olds := Emptied(full.olds, {}, 0)))
  {
    EmptiedTotal(Full(desired, r).olds, {}, 0);
  }

  lemma {:induction false} EmptiedTotal(olds: seq<Workload>, dropped: set<nat>, base: nat)
    ensures Total(Specs(Emptied(olds, dropped, base))) == 0
  {
    if olds == [] {
    } else {
      EmptiedTotal(olds[1..], dropped, base + 1);
      var rest := Emptied(olds[1..], dropped, base + 1);
      assert Specs([Workload(0, olds[0].avail)] + rest)[1..] == Specs(rest);
    }
  }

  // ---------- as a pass lists them ----------

  function AllAvailable(specs: seq<nat>): (ss: seq<Subset>)
    ensures |ss| == |specs|
    ensures forall i :: 0 <= i < |specs| ==> ss[i] == Subset(specs[i], specs[i], Held(specs[i]))
  {
    seq(|specs|, i requires 0 <= i < |specs| => Subset(specs[i], specs[i], Held(specs[i])))
  }

  lemma FullIsListed(desired: nat, r: Ready)
    ensures Observe(Full(desired, r).newest.value) == Subset(r.newest, r.newest, Held(r.newest))
    ensures ObserveAll(Full(desired, r).olds) == AllAvailable(r.olds)
  {
  }

  lemma {:induction false} AvailableTotals(specs: seq<nat>)
    ensures var ss := AllAvailable(specs);
            AllFresh(ss) && AllHealthy(ss) && ViewTotal(ss) == Total(specs)
  {
    if specs == [] {
    } else {
      AvailableTotals(specs[1..]);
      assert AllAvailable(specs)[1..] == AllAvailable(specs[1..]);
    }
  }

  lemma {:induction false} SpecsTotal(ws: seq<Workload>)
    ensures Total(Specs(ws)) == SpecTotal(ws)
  {
    if ws == [] {
    } else {
      SpecsTotal(ws[1..]);
      assert Specs(ws)[1..] == Specs(ws[1..]);
    }
  }

  /** There is nothing to clean up among olds whose pods are all available. */
  lemma {:induction false} CleanupIdle(olds: seq<Subset>, budget: int)
    requires AllFresh(olds) && forall i :: 0 <= i < |olds| ==> olds[i].view == olds[i].avail
    ensures Cleanup(olds, budget) == CleanupResult(olds, 0, false)
  {
    if olds == [] || budget <= 0 {
    } else {
      CleanupIdle(olds[1..], budget);
    }
  }
}
