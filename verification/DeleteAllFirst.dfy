/** The DeleteAllFirst strategy: no two versions of a region run together, unless the cleanup of a
    region that wants no replicas deletes a workload whose pods have not gone yet. */
module DeleteAllFirst {
  import opened Basics

  /** A workload: replicas asked for, replicas and available replicas in its status (which may
      lag), and the pods that really exist and are controlled by it. */
  datatype Pool = Pool(spec: nat, reported: nat, available: nat, pods: nat) {
    predicate Active() {
      spec != 0 || pods != 0
    }
  }

  datatype Region = Region(newest: Option<Pool>, olds: seq<Pool>) {
    function Everything(): seq<Pool> {
      olds + (if newest.Some? then [newest.value] else [])
    }
  }

  // ---------- the pass ----------

  predicate AnyScaled(olds: seq<Pool>) {
    exists i :: 0 <= i < |olds| && olds[i].spec != 0
  }

  function Stopped(olds: seq<Pool>): (r: seq<Pool>)
    ensures |r| == |olds|
    ensures forall i :: 0 <= i < |olds| ==> r[i] == olds[i].(spec := 0)
  {
    seq(|olds|, i requires 0 <= i < |olds| => olds[i].(spec := 0))
  }

  /** No old reports a replica or has a pod, and the pods of every old could be listed. */
  predicate KnownDrained(olds: seq<Pool>, unlisted: set<nat>) {
    forall i :: 0 <= i < |olds| ==>
      i !in unlisted && olds[i].reported == 0 && olds[i].available == 0 && olds[i].pods == 0
  }

  /** `unlisted` holds the olds whose pods the pass fails to list. */
  function Rollout(r: Region, desired: nat, unlisted: set<nat>): Region {
    if AnyScaled(r.olds) then r.(olds := Stopped(r.olds))
    else if !KnownDrained(r.olds, unlisted) then r
    else r.(newest := Some(if r.newest.None? then Pool(desired, 0, 0, 0)
                           else r.newest.value.(spec := desired)))
  }

  // ---------- the cleanup of a saturated region ----------

  /** An old that the cleanup may delete: it asks for nothing and reports nothing available. Its
      pods are not looked at. */
  predicate Empty(p: Pool) {
    p.spec == 0 && p.available == 0
  }

  /** The olds that are deleted when `limit` of them are kept, oldest first. */
  function Deletable(olds: seq<Pool>, limit: nat): set<nat> {
    set i: nat | i < |olds| && i < |olds| - limit && Empty(olds[i])
  }

  /** The olds that are not deleted, scaled to zero. */
  function Kept(olds: seq<Pool>, dropped: set<nat>): seq<Pool> {
    if olds == [] then []
    else
      var n := |olds| - 1;
      Kept(olds[..n], dropped) + if n in dropped then [] else [olds[n].(spec := 0)]
  }

  function Dropped(olds: seq<Pool>, dropped: set<nat>): seq<Pool> {
    if olds == [] then []
    else
      var n := |olds| - 1;
      Dropped(olds[..n], dropped) + if n in dropped then [olds[n]] else []
  }

  class Control {
    var newest: Option<Pool>
    var olds: seq<Pool>

    function State(): Region reads this {
      Region(newest, olds)
    }

    constructor (r: Region)
      ensures State() == r
    {
      newest, olds := r.newest, r.olds;
    }

    method ScaleDownOlds() returns (scaled: bool)
      modifies this`olds
      ensures scaled == AnyScaled(old(olds))
      ensures olds == if scaled then Stopped(old(olds)) else old(olds)
    {
      scaled := false;
      var i := 0;
      while i < |olds|
        invariant 0 <= i <= |olds| == |old(olds)|
        invariant scaled == exists k :: 0 <= k < i && old(olds)[k].spec != 0
        invariant forall k :: 0 <= k < i ==> olds[k] == old(olds)[k].(spec := 0)
        invariant forall k :: i <= k < |olds| ==> olds[k] == old(olds)[k]
      {
        if olds[i].spec != 0 {
          olds := olds[i := olds[i].(spec := 0)];
          scaled := true;
        }
        i := i + 1;
      }
    }

    /** Whether an old still runs pods; `ok` is false when that could not be told. */
    method OldPodsRunning(unlisted: set<nat>) returns (running: bool, ok: bool)
      ensures !running && ok <==> KnownDrained(olds, unlisted)
    {
      var reported, available := 0, 0;
      for i := 0 to |olds|
        invariant reported == 0 <==> forall k :: 0 <= k < i ==> olds[k].reported == 0
        invariant available == 0 <==> forall k :: 0 <= k < i ==> olds[k].available == 0
        invariant reported >= 0 && available >= 0
      {
        reported, available := reported + olds[i].reported, available + olds[i].available;
      }
      if reported > 0 || available > 0 {
        return true, true;
      }
      ok := true;
      for i := 0 to |olds|
        invariant ok <==> forall k :: 0 <= k < i ==> k !in unlisted
        invariant forall k :: 0 <= k < i && k !in unlisted ==> olds[k].pods == 0
      {
        if i in unlisted {
          ok := false;
        } else if olds[i].pods > 0 {
          return true, true;
        }
      }
      return false, ok;
    }

    method RolloutDeleteAllFirst(desired: nat, unlisted: set<nat>)
      modifies this
      ensures State() == Rollout(old(State()), desired, unlisted)
    {
      var scaled := ScaleDownOlds();
      if scaled {
        return;
      }
      var running, ok := OldPodsRunning(unlisted);
      if running || !ok {
        return;
      }
      if newest.None? {
        newest := Some(Pool(desired, 0, 0, 0));
      } else if newest.value.spec != desired {
        newest := Some(newest.value.(spec := desired));
      }
    }

    /** The cleanup of a saturated region, with its olds in revision order. A spec that is scaled
        in this pass is still seen as it was listed. */
    method CleanSaturated(limit: nat) returns (deleted: seq<Pool>)
      modifies this`olds
      ensures var dropped := Deletable(old(olds), limit);
              olds == Kept(old(olds), dropped) && deleted == Dropped(old(olds), dropped)
    {
      var listed, kept := olds, [];
      ghost var dropped := Deletable(listed, limit);
      deleted := [];
      for i := 0 to |listed|
        invariant kept == Kept(listed[..i], dropped) && deleted == Dropped(listed[..i], dropped)
      {
        assert listed[..i + 1][..i] == listed[..i];
        if i < |listed| - limit && listed[i].spec == 0 && listed[i].available == 0 {
          deleted := deleted + [listed[i]];
        } else {
          kept := kept + [listed[i].(spec := 0)];
        }
      }
      assert listed[..|listed|] == listed;
      olds := kept;
    }
  }

  // ---------- runs ----------

  /** The region as the controller sees it, and the workloads it has deleted, whose pods go in
      their own time. */
  datatype World = World(region: Region, gone: seq<Pool>) {
    function Everything(): seq<Pool> {
      region.Everything() + gone
    }
  }

  /** A pass, the cleanup of the region when it is saturated, a template change (which makes another
      workload, or none, the new one), or the cluster creating pods a spec asks for, removing
      pods, and updating statuses. */
  datatype Step =
    | Pass(desired: nat, unlisted: set<nat>)
    | Clean(desired: nat, limit: nat)
    | Retemplate(current: Option<nat>)
    | Cluster(next: World)

  /** Pods appear only where the spec asks for some. */
  predicate Evolves(p: Pool, p': Pool) {
    p'.spec == p.spec && (p'.pods > p.pods ==> p.spec > 0)
  }

  predicate AllEvolve(ps: seq<Pool>, ps': seq<Pool>) {
    |ps'| == |ps| && forall i :: 0 <= i < |ps| ==> Evolves(ps[i], ps'[i])
  }

  /** The new workload asks for the desired number and reports it available. */
  predicate Saturated(r: Region, desired: nat) {
    r.newest.Some? && r.newest.value.spec == desired && r.newest.value.available >= desired
  }

  function Cleaned(w: World, limit: nat): World {
    var dropped := Deletable(w.region.olds, limit);
    World(w.region.(olds := Kept(w.region.olds, dropped)), w.gone + Dropped(w.region.olds, dropped))
  }

  ghost predicate Next(w: World, step: Step, w': World) {
    match step
    case Pass(desired, unlisted) => w' == w.(region := Rollout(w.region, desired, unlisted))
    case Clean(desired, limit) => Saturated(w.region, desired) && w' == Cleaned(w, limit)
    case Retemplate(None) => w' == w.(region := Region(None, w.region.Everything()))
    case Retemplate(Some(k)) =>
      var all := w.region.Everything();
      k < |all| && w' == w.(region := Region(Some(all[k]), all[..k] + all[k + 1..]))
    case Cluster(next) =>
      && w' == next
      && AllEvolve(w.region.olds, w'.region.olds)
      && (w'.region.newest.Some? <==> w.region.newest.Some?)
      && (w.region.newest.Some? ==> Evolves(w.region.newest.value, w'.region.newest.value))
      && AllEvolve(w.gone, w'.gone)
  }

  // ---------- counting active workloads ----------

  function Actives(ps: seq<Pool>): nat {
    if ps == [] then 0 else (if ps[0].Active() then 1 else 0) + Actives(ps[1..])
  }

  lemma {:induction false} ActivesConcat(xs: seq<Pool>, ys: seq<Pool>)
    ensures Actives(xs + ys) == Actives(xs) + Actives(ys)
  {
    if xs == [] {
      assert xs + ys == ys;
    } else {
      ActivesConcat(xs[1..], ys);
      assert (xs + ys)[1..] == xs[1..] + ys;
    }
  }

  lemma {:induction false} FewerActives(ps: seq<Pool>, ps': seq<Pool>)
    requires |ps'| == |ps| && forall i :: 0 <= i < |ps| ==> (ps'[i].Active() ==> ps[i].Active())
    ensures Actives(ps') <= Actives(ps)
  {
    if ps == [] {
    } else {
      FewerActives(ps[1..], ps'[1..]);
    }
  }

  lemma {:induction false} NoActives(ps: seq<Pool>)
    ensures Actives(ps) == 0 <==> forall i :: 0 <= i < |ps| ==> !ps[i].Active()
  {
    if ps == [] {
    } else {
      NoActives(ps[1..]);
      assert forall i :: 0 < i < |ps| ==> ps[i] == ps[1..][i - 1];
    }
  }

  lemma ActivesRemove(ps: seq<Pool>, k: nat)
    requires k < |ps|
    ensures Actives(ps) == Actives(ps[..k] + ps[k + 1..]) + if ps[k].Active() then 1 else 0
  {
    ActivesConcat(ps[..k], ps[k..]);
    ActivesConcat(ps[..k], ps[k + 1..]);
    assert ps == ps[..k] + ps[k..];
  }

  /** Splitting the olds into kept and deleted ones makes none active. */
  lemma {:induction false} SplitActives(olds: seq<Pool>, dropped: set<nat>)
    ensures Actives(Kept(olds, dropped)) + Actives(Dropped(olds, dropped)) <= Actives(olds)
  {
    if olds == [] {
    } else {
      var n := |olds| - 1;
      var o := olds[n];
      SplitActives(olds[..n], dropped);
      assert olds == olds[..n] + [o];
      ActivesConcat(olds[..n], [o]);
      ActivesConcat(Kept(olds[..n], dropped), if n in dropped then [] else [o.(spec := 0)]);
      ActivesConcat(Dropped(olds[..n], dropped), if n in dropped then [o] else []);
    }
  }

  // ---------- exclusivity ----------

  /** At most one workload, deleted ones included, asks for replicas or has pods. */
  predicate Exclusive(w: World) {
    Actives(w.Everything()) <= 1
  }

  /** In other words: no two of them do. */
  lemma {:induction false} ExclusiveMeansPairs(ps: seq<Pool>)
    ensures Actives(ps) <= 1 <==> forall i, j :: 0 <= i < j < |ps| ==> !(ps[i].Active() && ps[j].Active())
  {
    if ps == [] {
    } else {
      var rest := ps[1..];
      ExclusiveMeansPairs(rest);
      NoActives(rest);
      assert forall i :: 0 < i < |ps| ==> ps[i] == rest[i - 1];
      assert forall i :: 0 <= i < |rest| ==> rest[i] == ps[i + 1];
      if Actives(ps) > 1 && ps[0].Active() {
        var j :| 0 <= j < |rest| && rest[j].Active();
        assert ps[0].Active() && ps[j + 1].Active();
      }
    }
  }

  /** The cleanup deletes no workload that still has pods. */
  predicate DropsNoPods(r: Region, limit: nat) {
    Actives(Dropped(r.olds, Deletable(r.olds, limit))) == 0
  }

  /** What keeps a run exclusive: no deleted workload has pods. */
  predicate Sound(w: World) {
    Exclusive(w) && Actives(w.gone) == 0
  }

  /** A step is safe unless it deletes a workload that still has pods. */
  predicate Safe(w: World, step: Step) {
    step.Clean? ==> DropsNoPods(w.region, step.limit)
  }

  lemma Counted(w: World)
    ensures Actives(w.region.Everything()) + Actives(w.gone) == Actives(w.Everything())
    ensures Actives(w.region.Everything())
         == Actives(w.region.olds) + if w.region.newest.Some? && w.region.newest.value.Active() then 1 else 0
  {
    ActivesConcat(w.region.Everything(), w.gone);
    ActivesConcat(w.region.olds, if w.region.newest.Some? then [w.region.newest.value] else []);
  }

  /** A pass gives the new workload replicas only when no old is active. */
  lemma ScaleUpOnlyWhenDrained(r: Region, desired: nat, unlisted: set<nat>)
    requires Rollout(r, desired, unlisted).newest != r.newest
    ensures Actives(r.olds) == 0 && Rollout(r, desired, unlisted).olds == r.olds
  {
    NoActives(r.olds);
  }

  /** The old asks for nothing, reports nothing, has no pod, and its pods could be listed. */
  predicate Gone(r: Region, unlisted: set<nat>, i: nat)
    requires i < |r.olds|
  {
    && r.olds[i].spec == 0 && r.olds[i].reported == 0 && r.olds[i].available == 0 && r.olds[i].pods == 0
    && i !in unlisted
  }

  /** A pass in full: after it no old asks for replicas; the new workload is given exactly the
      desired number when every old was gone before, and is not touched when one was not. */
  lemma RolloutExactly(r: Region, desired: nat, unlisted: set<nat>)
    ensures var after := Rollout(r, desired, unlisted);
            && |after.olds| == |r.olds|
            && (forall i :: 0 <= i < |r.olds| ==> after.olds[i] == r.olds[i].(spec := 0))
            && (if forall i :: 0 <= i < |r.olds| ==> Gone(r, unlisted, i) then
                  && after.newest.Some? && after.newest.value.spec == desired
                  && (r.newest.Some? ==> after.newest == Some(r.newest.value.(spec := desired)))
                  && (r.newest.None? ==> after.newest == Some(Pool(desired, 0, 0, 0)))
                else after.newest == r.newest)
  {
    if AnyScaled(r.olds) {
      var i :| 0 <= i < |r.olds| && r.olds[i].spec != 0;
      assert !Gone(r, unlisted, i);
    } else {
      assert forall i :: 0 <= i < |r.olds| ==> r.olds[i] == r.olds[i].(spec := 0);
      if !KnownDrained(r.olds, unlisted) {
        var i :| 0 <= i < |r.olds| && !(i !in unlisted && r.olds[i].reported == 0
                                        && r.olds[i].available == 0 && r.olds[i].pods == 0);
        assert !Gone(r, unlisted, i);
      }
    }
  }

  /** The olds once their pods are gone and their statuses have caught up. */
  function Drained(r: Region): Region {
    r.(olds := seq(|r.olds|, i requires 0 <= i < |r.olds| => Pool(r.olds[i].spec, 0, 0, 0)))
  }

  /** So a rollout takes two passes: one to stop the olds, and, once they are drained, one that gives
      the new workload its desired replicas. */
  lemma TwoPassesFinish(r: Region, desired: nat)
    ensures var last := Rollout(Drained(Rollout(r, desired, {})), desired, {});
            && last.newest.Some? && last.newest.value.spec == desired
            && forall i :: 0 <= i < |last.olds| ==> !last.olds[i].Active()
  {
    var mid := Drained(Rollout(r, desired, {}));
    if AnyScaled(r.olds) {
      assert forall i :: 0 <= i < |mid.olds| ==> mid.olds[i].spec == 0;
    }
    assert !AnyScaled(mid.olds) && KnownDrained(mid.olds, {});
  }

  /** While replicas are wanted, the cleanup is safe: the new workload is active, so no old is. */
  lemma CleanWhileWanted(w: World, desired: nat, limit: nat)
    requires Exclusive(w) && Saturated(w.region, desired) && desired > 0
    ensures DropsNoPods(w.region, limit)
  {
    Counted(w);
    SplitActives(w.region.olds, Deletable(w.region.olds, limit));
  }

  lemma PassExclusive(w: World, desired: nat, unlisted: set<nat>)
    requires Sound(w)
    ensures Sound(w.(region := Rollout(w.region, desired, unlisted)))
  {
    var w' := w.(region := Rollout(w.region, desired, unlisted));
    Counted(w);
    Counted(w');
    if w'.region.newest != w.region.newest {
      ScaleUpOnlyWhenDrained(w.region, desired, unlisted);
    } else {
      FewerActives(w.region.olds, w'.region.olds);
    }
  }

  lemma CleanExclusive(w: World, limit: nat)
    requires Sound(w) && DropsNoPods(w.region, limit)
    ensures Sound(Cleaned(w, limit))
  {
    var dropped := Deletable(w.region.olds, limit);
    Counted(w);
    Counted(Cleaned(w, limit));
    SplitActives(w.region.olds, dropped);
    ActivesConcat(w.gone, Dropped(w.region.olds, dropped));
  }

  lemma ClusterExclusive(w: World, w': World)
    requires Sound(w) && Next(w, Cluster(w'), w')
    ensures Sound(w')
  {
    Counted(w);
    Counted(w');
    FewerActives(w.region.olds, w'.region.olds);
    FewerActives(w.gone, w'.gone);
  }

  lemma StepExclusive(w: World, step: Step, w': World)
    requires Sound(w) && Safe(w, step) && Next(w, step, w')
    ensures Sound(w')
  {
    Counted(w);
    Counted(w');
    match step
    case Pass(desired, unlisted) => PassExclusive(w, desired, unlisted);
    case Clean(_, limit) => CleanExclusive(w, limit);
    case Retemplate(None) =>
    case Retemplate(Some(k)) => ActivesRemove(w.region.Everything(), k);
    case Cluster(next) => ClusterExclusive(w, next);
  }

  ghost predicate Run(states: seq<World>, steps: seq<Step>) {
    |states| == |steps| + 1 && forall i :: 0 <= i < |steps| ==> Next(states[i], steps[i], states[i + 1])
  }

  /** Exclusivity holds throughout any run of safe steps that starts with it, whatever the template
      changes. */
  lemma {:induction false} ExclusiveOverRuns(states: seq<World>, steps: seq<Step>, n: nat)
    requires Run(states, steps) && n < |states| && Sound(states[0])
    requires forall i :: 0 <= i < |steps| ==> Safe(states[i], steps[i])
    ensures Sound(states[n]) && Exclusive(states[n])
  {
    if n == 0 {
    } else {
      ExclusiveOverRuns(states, steps, n - 1);
      assert Next(states[n - 1], steps[n - 1], states[n]);
      StepExclusive(states[n - 1], steps[n - 1], states[n]);
    }
  }

  // ---------- the unsafe cleanup ----------

  /** Whatever happens from here on, as long as no further cleanup deletes a workload with pods. */
  ghost predicate StaysExclusive(w: World) {
    forall states, steps ::
      (Run(states, steps) && states[0] == w && forall i :: 0 <= i < |steps| ==> Safe(states[i], steps[i]))
      ==> Exclusive(states[|steps|])
  }

  /** The statuses of the olds have caught up. */
  function Quiet(w: World): World {
    var olds := w.region.olds;
    w.(region := w.region.(olds :=
      seq(|olds|, i requires 0 <= i < |olds| => olds[i].(reported := 0, available := 0))))
  }

  /** With the olds drained, and a deleted workload's pods still there, the next replicas wanted
      start beside them. */
  lemma GonePodsOverlap(w: World)
    requires w.region.newest.Some? && Actives(w.region.olds) == 0 && Actives(w.gone) > 0
    ensures var q := Quiet(w);
            var w' := q.(region := Rollout(q.region, 1, {}));
            Run([w, q, w'], [Cluster(q), Pass(1, {})]) && !Exclusive(w')
  {
    var q := Quiet(w);
    var w' := q.(region := Rollout(q.region, 1, {}));
    NoActives(w.region.olds);
    assert Next(w, Cluster(q), q);
    assert KnownDrained(q.region.olds, {}) && !AnyScaled(q.region.olds);
    Counted(w');
  }

  lemma UnsafeOverlaps(w: World, limit: nat)
    requires Sound(w) && w.region.newest.Some? && !DropsNoPods(w.region, limit)
    ensures !StaysExclusive(Cleaned(w, limit))
  {
    var olds, dropped := w.region.olds, Deletable(w.region.olds, limit);
    var w1 := Cleaned(w, limit);
    Counted(w);
    SplitActives(olds, dropped);
    ActivesConcat(w.gone, Dropped(olds, dropped));
    GonePodsOverlap(w1);
    var q := Quiet(w1);
    var states := [w1, q, q.(region := Rollout(q.region, 1, {}))];
    var steps := [Cluster(q), Pass(1, {})];
    assert Run(states, steps) && states[0] == w1 && !Exclusive(states[|steps|]);
    assert forall i :: 0 <= i < |steps| ==> Safe(states[i], steps[i]);
  }

  /** The cleanup of a saturated region keeps exclusivity for good exactly when it deletes no
      workload that still has pods; and it deletes none while replicas are wanted. */
  lemma CleanExactly(w: World, desired: nat, limit: nat)
    requires Sound(w) && Saturated(w.region, desired)
    ensures DropsNoPods(w.region, limit) <==> StaysExclusive(Cleaned(w, limit))
    ensures desired > 0 ==> DropsNoPods(w.region, limit)
  {
    if desired > 0 {
      CleanWhileWanted(w, desired, limit);
    }
    if DropsNoPods(w.region, limit) {
      CleanExclusive(w, limit);
      forall states, steps |
        Run(states, steps) && states[0] == Cleaned(w, limit) && forall i :: 0 <= i < |steps| ==> Safe(states[i], steps[i])
        ensures Exclusive(states[|steps|])
      {
        ExclusiveOverRuns(states, steps, |steps|);
      }
    } else {
      UnsafeOverlaps(w, limit);
    }
  }

  /** A run into it: the template goes back to an empty version while nothing is wanted; the other
      version is scaled to zero, and deleted before its pod is gone. */
  const EMPTY := Pool(0, 0, 0, 0)
  const LEAVING := Pool(0, 0, 0, 1)
  const RUNNING := World(Region(Some(Pool(1, 1, 1, 1)), [EMPTY]), [])
  const BACK := World(Region(Some(EMPTY), [Pool(1, 1, 1, 1)]), [])
  const LOWERED := World(Region(Some(EMPTY), [Pool(0, 1, 1, 1)]), [])
  const UNAVAILABLE := World(Region(Some(EMPTY), [LEAVING]), [])
  const DELETED := World(Region(Some(EMPTY), []), [LEAVING])

  lemma GoBackSteps()
    ensures Next(RUNNING, Retemplate(Some(0)), BACK)
    ensures Next(BACK, Clean(0, 0), LOWERED)
    ensures Next(LOWERED, Cluster(UNAVAILABLE), UNAVAILABLE)
    ensures Next(UNAVAILABLE, Clean(0, 0), DELETED) && DELETED == Cleaned(UNAVAILABLE, 0)
  {
    CleanOne(Pool(1, 1, 1, 1));
    CleanOne(LEAVING);
  }

  lemma GoBackSound()
    ensures Sound(RUNNING) && Sound(UNAVAILABLE) && !DropsNoPods(UNAVAILABLE.region, 0)
  {
    CleanOne(LEAVING);
    assert Actives([Pool(1, 1, 1, 1)]) == 1 && Actives([EMPTY]) == 0 && Actives([LEAVING]) == 1;
    Counted(RUNNING);
    Counted(UNAVAILABLE);
  }

  lemma GoBackAndLower()
    ensures Sound(RUNNING) && !StaysExclusive(DELETED)
    ensures Run([RUNNING, BACK, LOWERED, UNAVAILABLE, DELETED],
                [Retemplate(Some(0)), Clean(0, 0), Cluster(UNAVAILABLE), Clean(0, 0)])
  {
    GoBackSteps();
    GoBackSound();
    UnsafeOverlaps(UNAVAILABLE, 0);
  }

  lemma CleanOne(p: Pool)
    ensures var dropped := Deletable([p], 0);
            && Kept([p], dropped) == (if Empty(p) then [] else [p.(spec := 0)])
            && Dropped([p], dropped) == (if Empty(p) then [p] else [])
  {
    assert [p][..0] == [];
    assert 0 in Deletable([p], 0) <==> Empty(p);
  }

  // ---------- which olds the cleanup deletes ----------

  function Empties(olds: seq<Pool>): seq<Pool> {
    if olds == [] then []
    else
      var n := |olds| - 1;
      Empties(olds[..n]) + if Empty(olds[n]) then [olds[n]] else []
  }

  function NonEmpties(olds: seq<Pool>): seq<Pool> {
    if olds == [] then []
    else
      var n := |olds| - 1;
      NonEmpties(olds[..n]) + if Empty(olds[n]) then [] else [olds[n].(spec := 0)]
  }

  /** With the olds in revision order the newest `limit` of them are kept, and of the others exactly
      the empty ones are deleted. */
  lemma {:induction false} DeletesOldest(older: seq<Pool>, newer: seq<Pool>, dropped: set<nat>)
    requires forall i: nat :: i in dropped <==> i < |older| && Empty(older[i])
    ensures Dropped(older + newer, dropped) == Empties(older)
    ensures Kept(older + newer, dropped) == NonEmpties(older) + Stopped(newer)
    decreases |older| + |newer|
  {
    var olds := older + newer;
    if olds == [] {
    } else if newer != [] {
      var n := |newer| - 1;
      assert olds[..|olds| - 1] == older + newer[..n];
      assert Stopped(newer) == Stopped(newer[..n]) + [newer[n].(spec := 0)];
      DeletesOldest(older, newer[..n], dropped);
    } else {
      var n := |older| - 1;
      assert olds == older && older[..n] + [] == older[..n];
      var fewer := dropped - {n};
      DeletesOldest(older[..n], [], fewer);
      SameBelow(older[..n], dropped, fewer);
    }
  }

  lemma {:induction false} SameBelow(olds: seq<Pool>, a: set<nat>, b: set<nat>)
    requires forall i: nat :: i < |olds| ==> (i in a <==> i in b)
    ensures Kept(olds, a) == Kept(olds, b) && Dropped(olds, a) == Dropped(olds, b)
  {
    if olds == [] {
    } else {
      SameBelow(olds[..|olds| - 1], a, b);
    }
  }

  lemma CleanupKeepsNewest(older: seq<Pool>, newer: seq<Pool>)
    ensures var olds, dropped := older + newer, Deletable(older + newer, |newer|);
            && Dropped(olds, dropped) == Empties(older)
            && Kept(olds, dropped) == NonEmpties(older) + Stopped(newer)
  {
    var olds := older + newer;
    forall i: nat ensures i in Deletable(olds, |newer|) <==> i < |older| && Empty(older[i]) {
      assert i < |older| ==> olds[i] == older[i];
    }
    DeletesOldest(older, newer, Deletable(olds, |newer|));
  }
}
