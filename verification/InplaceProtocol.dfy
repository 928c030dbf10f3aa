/** The in-place update of a whole InplaceSet: the ExtendedDeployment controller raises the
    number of pods to update, the InplaceSet controller updates that many pods and reports how
    many of them are available. */
module InplaceProtocol {
  import opened Basics
  import opened PodUpdate
  import RecreateSync

  // ---------- the InplaceSet controller ----------

  function TriedCount(pods: seq<Pod>, u: Update): nat {
    if pods == [] then 0 else (if Tried(pods[0], u) then 1 else 0) + TriedCount(pods[1..], u)
  }

  function CountedCount(pods: seq<Pod>, hash: string): nat {
    if pods == [] then 0 else (if Counted(pods[0], hash) then 1 else 0) + CountedCount(pods[1..], hash)
  }

  function AvailableCount(pods: seq<Pod>): nat {
    if pods == [] then 0 else (if pods[0].available then 1 else 0) + AvailableCount(pods[1..])
  }

  /** What goes wrong in a sync: the write of the pod with index `refresh` fails while pods are
      refreshed; try number `attempt` fails, and if `marked` only after the pod was marked. */
  datatype Faults = Faults(refresh: Option<nat>, attempt: Option<nat>, marked: bool)

  /** The first pod, from the `i`-th on, whose refresh fails; it ends the sync. */
  function StopAt(pods: seq<Pod>, fault: Option<nat>, i: nat): (k: nat)
    requires i <= |pods|
    ensures i <= k <= |pods|
    ensures forall j :: i <= j < k ==> !CannotRefresh(pods[j]) && fault != Some(j)
    ensures k < |pods| ==> CannotRefresh(pods[k]) || fault == Some(k)
    decreases |pods| - i
  {
    if i == |pods| || CannotRefresh(pods[i]) || fault == Some(i) then i else StopAt(pods, fault, i + 1)
  }

  function RefreshUpTo(pods: seq<Pod>, now: int, stop: nat): (r: seq<Pod>)
    ensures |r| == |pods|
    ensures forall i :: 0 <= i < |pods| ==> r[i] == if i < stop then Refreshed(pods[i], now) else pods[i]
  {
    seq(|pods|, i requires 0 <= i < |pods| => if i < stop then Refreshed(pods[i], now) else pods[i])
  }

  /** The first `need` pods not yet tried are given the update. */
  function TryFirst(pods: seq<Pod>, u: Update, seconds: int, now: int, need: int): seq<Pod> {
    if pods == [] || need <= 0 then pods
    else if Tried(pods[0], u) then [pods[0]] + TryFirst(pods[1..], u, seconds, now, need)
    else [TryUpdate(pods[0], u, seconds, now, false)] + TryFirst(pods[1..], u, seconds, now, need - 1)
  }

  /** The first pod not yet tried is marked not ready, and its update fails. */
  function MarkFirst(pods: seq<Pod>, u: Update): seq<Pod> {
    if pods == [] then []
    else if Tried(pods[0], u) then [pods[0]] + MarkFirst(pods[1..], u)
    else [TryUpdate(pods[0], u, 0, 0, true)] + pods[1..]
  }

  /** The tries of one sync; the first that fails is the last. */
  function TrySome(pods: seq<Pod>, u: Update, seconds: int, now: int, need: int, faults: Faults): seq<Pod> {
    if faults.attempt.Some? && faults.attempt.value < need then
      var done := TryFirst(pods, u, seconds, now, faults.attempt.value);
      if faults.marked then MarkFirst(done, u) else done
    else TryFirst(pods, u, seconds, now, need)
  }

  /** Pods still to be given the update when `num` are to be updated. */
  function Need(pods: seq<Pod>, u: Update, num: nat): int {
    Min(num, |pods|) - TriedCount(pods, u)
  }

  /** How a sync goes: the grace period, the time, whether the set's own strategy is ReCreate (then
      it updates no pod in place), and what fails. */
  datatype How = How(seconds: int, now: int, recreate: bool, faults: Faults) {
    predicate Clean() {
      !recreate && faults.refresh.None? && faults.attempt.None?
    }
  }

  /** One sync: refresh, then give the update to the pods that need it. The second component says
      whether it got far enough to report. */
  function SyncPods(pods: seq<Pod>, u: Update, num: nat, how: How): (seq<Pod>, bool) {
    var stop := StopAt(pods, how.faults.refresh, 0);
    var current := RefreshUpTo(pods, how.now, stop);
    if stop < |pods| then (current, false)
    else
      var need := if how.recreate then 0 else Need(pods, u, num);
      (TrySome(current, u, how.seconds, how.now, need, how.faults), true)
  }

  /** The loop has produced `done` from as many pods and has `left` more to give the update. */
  ghost predicate TryDone(pods: seq<Pod>, u: Update, seconds: int, now: int, need: int, done: seq<Pod>, left: int) {
    && |done| <= |pods|
    && TryFirst(pods, u, seconds, now, need) == done + TryFirst(pods[|done|..], u, seconds, now, left)
  }

  lemma TryAdvance(pods: seq<Pod>, u: Update, seconds: int, now: int, need: int, done: seq<Pod>, left: int)
    requires TryDone(pods, u, seconds, now, need, done, left) && |done| < |pods| && left > 0
    ensures var p := pods[|done|];
            TryDone(pods, u, seconds, now, need,
                    done + [if Tried(p, u) then p else TryUpdate(p, u, seconds, now, false)],
                    if Tried(p, u) then left else left - 1)
  {
    var p := pods[|done|];
    var p' := if Tried(p, u) then p else TryUpdate(p, u, seconds, now, false);
    var left' := if Tried(p, u) then left else left - 1;
    assert pods[|done|..][1..] == pods[|done| + 1..];
    MoveHead(done, p', TryFirst(pods[|done| + 1..], u, seconds, now, left'));
  }

  /** One turn of the loop below. */
  method UpdateNext(pods: seq<Pod>, u: Update, seconds: int, now: int, need: int, updated: seq<Pod>, left: int)
    returns (updated': seq<Pod>, left': int)
    requires TryDone(pods, u, seconds, now, need, updated, left) && |updated| < |pods| && left > 0
    ensures TryDone(pods, u, seconds, now, need, updated', left') && |updated'| == |updated| + 1
  {
    TryAdvance(pods, u, seconds, now, need, updated, left);
    var pod := pods[|updated|];
    left' := left;
    if !Tried(pod, u) {
      var control := new PodControl(pod);
      control.TryInplaceUpdate(u, seconds, now);
      pod, left' := control.pod, left - 1;
    }
    updated' := updated + [pod];
  }

  /** Gives the update to the first `need` pods that do not have it. */
  method UpdatePods(pods: seq<Pod>, u: Update, seconds: int, now: int, need: int) returns (updated: seq<Pod>)
    ensures updated == TryFirst(pods, u, seconds, now, need)
  {
    var left := need;
    updated := [];
    assert pods[0..] == pods;
    while |updated| < |pods| && left > 0
      invariant TryDone(pods, u, seconds, now, need, updated, left)
    {
      updated, left := UpdateNext(pods, u, seconds, now, need, updated, left);
    }
    updated := updated + pods[|updated|..];
  }

  /** The try that fails: the pod is marked not ready, if it has the gate, and that is all. */
  method FailTry(pods: seq<Pod>, u: Update) returns (updated: seq<Pod>)
    ensures updated == MarkFirst(pods, u)
  {
    var i := 0;
    assert pods[0..] == pods;
    while i < |pods| && Tried(pods[i], u)
      invariant i <= |pods| && MarkFirst(pods, u) == pods[..i] + MarkFirst(pods[i..], u)
    {
      MarkStep(pods, u, i);
      i := i + 1;
    }
    if i == |pods| {
      assert pods[..i] == pods;
      return pods;
    }
    MarkStep(pods, u, i);
    var control := new PodControl(pods[i]);
    if pods[i].gated {
      control.UpdateReadyCondition();
    }
    MoveHead(pods[..i], control.pod, pods[i + 1..]);
    updated := pods[..i] + [control.pod] + pods[i + 1..];
  }

  lemma MarkStep(pods: seq<Pod>, u: Update, i: nat)
    requires i < |pods|
    ensures Tried(pods[i], u) ==> MarkFirst(pods[i..], u) == [pods[i]] + MarkFirst(pods[i + 1..], u)
    ensures Tried(pods[i], u) ==>
              pods[..i] + MarkFirst(pods[i..], u) == pods[..i + 1] + MarkFirst(pods[i + 1..], u)
    ensures !Tried(pods[i], u) ==>
              MarkFirst(pods[i..], u) == [TryUpdate(pods[i], u, 0, 0, true)] + pods[i + 1..]
  {
    assert pods[i..][1..] == pods[i + 1..];
    assert pods[..i] + [pods[i]] == pods[..i + 1];
    MoveHead(pods[..i], pods[i], MarkFirst(pods[i + 1..], u));
  }

  class InplaceSetControl {
    var pods: seq<Pod>

    constructor (pods: seq<Pod>)
      ensures this.pods == pods
    {
      this.pods := pods;
    }

    method NotTried(u: Update) returns (indices: seq<nat>)
      ensures |indices| == |pods| - TriedCount(pods, u)
      ensures forall i :: 0 <= i < |indices| ==> indices[i] < |pods| && !Tried(pods[indices[i]], u)
      ensures forall i, j :: 0 <= i < j < |indices| ==> indices[i] < indices[j]
    {
      indices := [];
      for i := 0 to |pods|
        invariant forall k :: 0 <= k < |indices| ==> indices[k] < i && !Tried(pods[indices[k]], u)
        invariant forall k, l :: 0 <= k < l < |indices| ==> indices[k] < indices[l]
        invariant |indices| + |pods[i..]| - TriedCount(pods[i..], u) == |pods| - TriedCount(pods, u)
      {
        if !Tried(pods[i], u) {
          indices := indices + [i];
        }
      }
    }

    /** Refreshes the pods in order, up to the first that fails. */
    method RefreshPods(now: int, fault: Option<nat>) returns (ok: bool)
      modifies this
      ensures var stop := StopAt(old(pods), fault, 0);
              pods == RefreshUpTo(old(pods), now, stop) && ok == (stop == |pods|)
    {
      var listed, updated := pods, [];
      while |updated| < |listed|
        invariant |updated| <= |listed| && pods == old(pods) == listed
        invariant StopAt(listed, fault, 0) == StopAt(listed, fault, |updated|)
        invariant forall k :: 0 <= k < |updated| ==> updated[k] == Refreshed(listed[k], now)
      {
        var control := new PodControl(listed[|updated|]);
        ok := false;
        if fault != Some(|updated|) {
          ok := control.RefreshPod(now);
        }
        if !ok {
          pods := updated + listed[|updated|..];
          return;
        }
        updated := updated + [control.pod];
      }
      pods, ok := updated, true;
    }

    /** One sync; the report, if it gets that far, counts the pods as they were listed. */
    method SyncReplicaSet(u: Update, num: nat, how: How) returns (report: Option<Report>)
      modifies this
      ensures (pods, report.Some?) == SyncPods(old(pods), u, num, how)
      ensures report.Some? ==> report.value == Report(u.hash, CountedCount(old(pods), u.hash))
    {
      var available := Status(u);
      RefreshKeepsTried(pods, u, how.now, StopAt(pods, how.faults.refresh, 0));
      var ok := RefreshPods(how.now, how.faults.refresh);
      if !ok {
        return None;
      }
      ManageInplaceUpdate(u, num, how);
      return Some(Report(u.hash, available));
    }

    method ManageInplaceUpdate(u: Update, num: nat, how: How)
      modifies this
      ensures pods == TrySome(old(pods), u, how.seconds, how.now,
                              if how.recreate then 0 else Need(old(pods), u, num), how.faults)
    {
      if how.recreate {
        return;
      }
      var notTried := NotTried(u);
      var total := if num > |pods| then |pods| else num;
      var need := total - (|pods| - |notTried|);
      if how.faults.attempt.Some? && how.faults.attempt.value < need {
        pods := UpdatePods(pods, u, how.seconds, how.now, how.faults.attempt.value);
        if how.faults.marked {
          pods := FailTry(pods, u);
        }
        return;
      }
      pods := UpdatePods(pods, u, how.seconds, how.now, need);
    }

    method Status(u: Update) returns (available: nat)
      ensures available == CountedCount(pods, u.hash)
    {
      available := 0;
      for i := 0 to |pods|
        invariant available + CountedCount(pods[i..], u.hash) == CountedCount(pods, u.hash)
      {
        var state := pods[i].state;
        if state.Some? && state.value.hash == u.hash && pods[i].ready == True {
          var control := new PodControl(pods[i]);
          var done := control.CheckCompleted(state.value);
          if done && pods[i].available {
            available := available + 1;
          }
        }
      }
    }
  }

  lemma {:induction false} SameTried(pods: seq<Pod>, pods': seq<Pod>, u: Update)
    requires |pods'| == |pods| && forall i :: 0 <= i < |pods| ==> (Tried(pods'[i], u) <==> Tried(pods[i], u))
    ensures TriedCount(pods', u) == TriedCount(pods, u)
  {
    if pods == [] {
    } else {
      SameTried(pods[1..], pods'[1..], u);
    }
  }

  lemma RefreshKeepsTried(pods: seq<Pod>, u: Update, now: int, stop: nat)
    ensures TriedCount(RefreshUpTo(pods, now, stop), u) == TriedCount(pods, u)
  {
    SameTried(pods, RefreshUpTo(pods, now, stop), u);
  }

  // ---------- the ExtendedDeployment controller ----------

  /** The report of the InplaceSet: available replicas of the update with that hash. */
  datatype Report = Report(hash: string, available: nat)

  datatype Set = Set(pods: seq<Pod>, num: Option<nat>, report: Option<Report>)

  datatype Settings = Settings(
    desired: nat,
    replicas: nat,
    strategy: RecreateSync.RolloutStrategy,
    batch: nat)

  /** The gate in front of a further step: the report is about this update and covers what
      was asked for so far (or, when scaling down, the desired number). */
  predicate AvailableDesired(c: Settings, s: Set, u: Update) {
    && s.num.Some? && s.report.Some? && s.report.value.hash == u.hash
    && (s.report.value.available >= s.num.value
        || (c.desired < c.replicas && s.report.value.available >= c.desired))
  }

  /** The number of pods to update after one controller pass; None when the pass does not
      raise it. A first step that would take all pods takes one. */
  function Raise(c: Settings, num: nat): Option<nat> {
    var step := RecreateSync.StepSize(c.strategy, c.batch, c.desired, num);
    if c.desired > c.replicas || step <= 0 then None
    else if num == 0 && step == c.desired then Some(1)
    else Some(num + step)
  }

  // ---------- runs ----------

  /** A pass of either controller, or the nodes at work. A pass before any number is set is not
      gated; later ones are. */
  datatype Event =
    | Deploy
    | Sync(how: How)
    | Nodes(next: seq<Pod>)

  ghost predicate NoFailures(p: Pod, p': Pod) {
    NodeKeeps(p, p') && (p.available ==> p'.available)
  }

  ghost predicate Next(c: Settings, u: Update, s: Set, e: Event, s': Set) {
    match e
    case Deploy =>
      var num := if s.num.Some? then s.num.value else 0;
      && (s.num.Some? ==> AvailableDesired(c, s, u))
      && Raise(c, num).Some? && s' == s.(num := Raise(c, num))
    case Sync(how) =>
      && s.num.Some?
      && var (pods, reported) := SyncPods(s.pods, u, s.num.value, how);
         s' == Set(pods, s.num, if reported then Some(Report(u.hash, CountedCount(s.pods, u.hash))) else s.report)
    case Nodes(next) =>
      && |next| == |s.pods| && (forall i :: 0 <= i < |next| ==> NoFailures(s.pods[i], next[i]))
      && s' == s.(pods := next)
  }

  // ---------- single pods ----------

  lemma RefreshKeeps(p: Pod, u: Update, now: int)
    requires Inv(p)
    ensures var p' := Refreshed(p, now);
            && Inv(p')
            && (Tried(p', u) <==> Tried(p, u))
            && (Counted(p, u.hash) ==> Counted(p', u.hash))
            && p'.available == p.available
  {
    assert Step(p, Refresh(now), Refreshed(p, now));
    StepKeepsInv(p, Refresh(now), Refreshed(p, now));
    if p.available {
      assert p.grace.None? && p.updateReady == True;
    }
  }

  lemma TryKeeps(p: Pod, u: Update, seconds: int, now: int)
    requires Inv(p) && !Tried(p, u)
    ensures var p' := TryUpdate(p, u, seconds, now, false);
            Inv(p') && Tried(p', u) && !Counted(p', u.hash)
  {
    var e := PodUpdate.Try(u, seconds, now, false);
    StepKeepsInv(p, e, TryUpdate(p, u, seconds, now, false));
  }

  /** A try that fails leaves the pod untried, and it did not count before. */
  lemma MarkKeeps(p: Pod, u: Update)
    requires Inv(p) && HashIdentifies(p, u) && !Tried(p, u)
    ensures var p' := TryUpdate(p, u, 0, 0, true);
            && Inv(p') && HashIdentifies(p', u) && !Tried(p', u)
            && !Counted(p, u.hash) && !Counted(p', u.hash)
  {
    StepKeepsInv(p, PodUpdate.Try(u, 0, 0, true), TryUpdate(p, u, 0, 0, true));
  }

  lemma NodeKeepsCounts(p: Pod, p': Pod, u: Update)
    requires Inv(p) && NoFailures(p, p')
    ensures Inv(p') && (Tried(p', u) <==> Tried(p, u))
    ensures Counted(p, u.hash) ==> Counted(p', u.hash)
  {
    StepKeepsInv(p, PodUpdate.Kubelet(p'), p');
  }

  /** Counting needs the update to have been tried, when hashes identify updates. */
  predicate HashIdentifies(p: Pod, u: Update) {
    p.state.Some? && p.state.value.hash == u.hash ==> p.state.value.specImages == u.images
  }

  // ---------- lists of pods ----------

  predicate Sane(pods: seq<Pod>, u: Update) {
    forall i :: 0 <= i < |pods| ==> Inv(pods[i]) && HashIdentifies(pods[i], u)
  }

  /** Pods that were given the update and are not available with it. */
  function Disrupted(pods: seq<Pod>, u: Update): int {
    TriedCount(pods, u) - CountedCount(pods, u.hash)
  }

  /** A pod-by-pod change that gives nobody the update loses no counted pod. */
  ghost predicate Gentle(p: Pod, p': Pod, u: Update) {
    && Inv(p') && HashIdentifies(p', u) && (Tried(p', u) <==> Tried(p, u))
    && (Counted(p, u.hash) ==> Counted(p', u.hash))
    && (p.available ==> p'.available)
  }

  lemma {:induction false} GentleCounts(pods: seq<Pod>, pods': seq<Pod>, u: Update)
    requires |pods| == |pods'| && forall i :: 0 <= i < |pods| ==> Gentle(pods[i], pods'[i], u)
    ensures TriedCount(pods', u) == TriedCount(pods, u)
    ensures CountedCount(pods', u.hash) >= CountedCount(pods, u.hash)
  {
    if pods == [] {
    } else {
      assert Gentle(pods[0], pods'[0], u);
      GentleCounts(pods[1..], pods'[1..], u);
    }
  }

  lemma RefreshGentle(pods: seq<Pod>, u: Update, now: int, stop: nat)
    requires Sane(pods, u)
    ensures forall i :: 0 <= i < |pods| ==> Gentle(pods[i], RefreshUpTo(pods, now, stop)[i], u)
  {
    forall i | 0 <= i < |pods| ensures Gentle(pods[i], RefreshUpTo(pods, now, stop)[i], u) {
      RefreshKeeps(pods[i], u, now);
    }
  }

  lemma {:induction false} TriedAtMost(pods: seq<Pod>, u: Update)
    ensures TriedCount(pods, u) <= |pods|
  {
    if pods == [] {
    } else {
      TriedAtMost(pods[1..], u);
    }
  }

  /** `pods'` are `pods` after `need` more of them were given the update, as far as there are. */
  ghost predicate Tries(pods: seq<Pod>, u: Update, need: int, pods': seq<Pod>) {
    && |pods'| == |pods| && Sane(pods', u)
    && CountedCount(pods', u.hash) == CountedCount(pods, u.hash)
    && TriedCount(pods', u) == Max(TriedCount(pods, u), Min(TriedCount(pods, u) + need, |pods|))
    && forall i :: 0 <= i < |pods| && !Tried(pods'[i], u) ==> pods'[i] == pods[i]
  }

  lemma TriesStep(p: Pod, p': Pod, rest: seq<Pod>, rest': seq<Pod>, u: Update, need: int)
    requires Inv(p') && HashIdentifies(p', u) && Tried(p', u) && need > 0
    requires Counted(p', u.hash) == Counted(p, u.hash)
    requires Tries(rest, u, if Tried(p, u) then need else need - 1, rest')
    ensures Tries([p] + rest, u, need, [p'] + rest')
  {
    var pods, pods' := [p] + rest, [p'] + rest';
    assert pods[1..] == rest && pods'[1..] == rest';
    TriedAtMost(rest, u);
    forall i | 0 <= i < |pods'|
      ensures Inv(pods'[i]) && HashIdentifies(pods'[i], u)
      ensures !Tried(pods'[i], u) ==> pods'[i] == pods[i]
    {
      if i > 0 {
        assert pods'[i] == rest'[i - 1] && pods[i] == rest[i - 1];
      }
    }
  }

  lemma {:induction false} TryFirstCounts(pods: seq<Pod>, u: Update, seconds: int, now: int, need: int)
    requires Sane(pods, u)
    ensures Tries(pods, u, need, TryFirst(pods, u, seconds, now, need))
  {
    if pods == [] || need <= 0 {
      TriedAtMost(pods, u);
    } else {
      var p, rest, tried := pods[0], pods[1..], Tried(pods[0], u);
      var need' := if tried then need else need - 1;
      TryFirstCounts(rest, u, seconds, now, need');
      if !tried {
        TryKeeps(p, u, seconds, now);
        assert !Counted(p, u.hash);
      }
      assert pods == [p] + rest;
      TriesStep(p, if tried then p else TryUpdate(p, u, seconds, now, false), rest,
                TryFirst(rest, u, seconds, now, need'), u, need);
    }
  }

  /** A failed try changes the first pod not tried, and neither count. */
  lemma {:induction false} MarkFirstCounts(pods: seq<Pod>, u: Update)
    requires Sane(pods, u)
    ensures var pods' := MarkFirst(pods, u);
            && |pods'| == |pods| && Sane(pods', u)
            && CountedCount(pods', u.hash) == CountedCount(pods, u.hash)
            && TriedCount(pods', u) == TriedCount(pods, u)
  {
    if pods == [] {
    } else if Tried(pods[0], u) {
      MarkFirstCounts(pods[1..], u);
      assert MarkFirst(pods, u)[1..] == MarkFirst(pods[1..], u);
    } else {
      MarkKeeps(pods[0], u);
      assert MarkFirst(pods, u)[1..] == pods[1..];
    }
  }

  lemma {:induction false} MarkFirstOrderly(pods: seq<Pod>, u: Update)
    requires OnlyFirst(pods, u)
    ensures OnlyFirst(MarkFirst(pods, u), u)
  {
    if pods == [] {
    } else if Tried(pods[0], u) {
      var rest, rest' := pods[1..], MarkFirst(pods[1..], u);
      assert forall i, j :: 0 <= i < j < |rest| ==> rest[i] == pods[i + 1] && rest[j] == pods[j + 1];
      MarkFirstOrderly(rest, u);
      assert forall i :: 0 < i < |MarkFirst(pods, u)| ==> MarkFirst(pods, u)[i] == rest'[i - 1];
    } else {
      assert MarkFirst(pods, u)[1..] == pods[1..];
    }
  }

  // ---------- the tries of one sync ----------

  /** Pods that were not given the update are available. */
  predicate Undisturbed(pods: seq<Pod>, u: Update) {
    forall i :: 0 <= i < |pods| ==> Tried(pods[i], u) || pods[i].available
  }

  /** The same, but for the first of them: a failed try may have marked that one. */
  predicate OnlyFirst(pods: seq<Pod>, u: Update) {
    forall i, j :: 0 <= i < j < |pods| && !Tried(pods[i], u) && !Tried(pods[j], u) ==> pods[j].available
  }

  lemma {:induction false} TryFirstUndisturbed(pods: seq<Pod>, u: Update, seconds: int, now: int, need: int)
    requires Sane(pods, u) && OnlyFirst(pods, u) && need > 0
    ensures Undisturbed(TryFirst(pods, u, seconds, now, need), u)
  {
    if pods == [] {
    } else {
      var tried, rest := Tried(pods[0], u), pods[1..];
      var need' := if tried then need else need - 1;
      var pods', rest' := TryFirst(pods, u, seconds, now, need), TryFirst(rest, u, seconds, now, need');
      assert forall i :: 0 < i < |pods'| ==> pods'[i] == rest'[i - 1];
      if tried {
        TryFirstUndisturbed(rest, u, seconds, now, need);
      } else {
        TryKeeps(pods[0], u, seconds, now);
        TryFirstCounts(rest, u, seconds, now, need');
        forall i | 0 <= i < |rest'| ensures Tried(rest'[i], u) || rest'[i].available {
          assert rest[i] == pods[i + 1];
        }
      }
    }
  }

  lemma TrySomeCounts(pods: seq<Pod>, u: Update, seconds: int, now: int, need: int, faults: Faults)
    requires Sane(pods, u)
    ensures var pods' := TrySome(pods, u, seconds, now, need, faults);
            && |pods'| == |pods| && Sane(pods', u)
            && CountedCount(pods', u.hash) == CountedCount(pods, u.hash)
            && TriedCount(pods, u) <= TriedCount(pods', u)
               <= Max(TriedCount(pods, u), Min(TriedCount(pods, u) + need, |pods|))
            && (faults.attempt.None? ==>
                  TriedCount(pods', u) == Max(TriedCount(pods, u), Min(TriedCount(pods, u) + need, |pods|)))
  {
    if faults.attempt.Some? && faults.attempt.value < need {
      TryFirstCounts(pods, u, seconds, now, faults.attempt.value);
      MarkFirstCounts(TryFirst(pods, u, seconds, now, faults.attempt.value), u);
    } else {
      TryFirstCounts(pods, u, seconds, now, need);
    }
  }

  /** A try that fails is the last: exactly as many were tried as came before it. */
  lemma FailedTryCounts(pods: seq<Pod>, u: Update, seconds: int, now: int, need: int, faults: Faults)
    requires Sane(pods, u) && faults.attempt.Some? && faults.attempt.value < need
    ensures TriedCount(TrySome(pods, u, seconds, now, need, faults), u)
         == Min(TriedCount(pods, u) + faults.attempt.value, |pods|)
  {
    TriedAtMost(pods, u);
    TryFirstCounts(pods, u, seconds, now, faults.attempt.value);
    MarkFirstCounts(TryFirst(pods, u, seconds, now, faults.attempt.value), u);
  }

  /** A marked pod is the first not tried, and takes the place of one that was to be tried. */
  lemma TrySomeOrderly(pods: seq<Pod>, u: Update, seconds: int, now: int, need: int, faults: Faults)
    requires Sane(pods, u) && OnlyFirst(pods, u)
    ensures var pods' := TrySome(pods, u, seconds, now, need, faults);
            && OnlyFirst(pods', u)
            && (Undisturbed(pods', u) || pods' == pods || TriedCount(pods', u) < TriedCount(pods, u) + need)
  {
    var k := if faults.attempt.Some? && faults.attempt.value < need then faults.attempt.value else need;
    var done := TryFirst(pods, u, seconds, now, k);
    TryFirstCounts(pods, u, seconds, now, k);
    if k > 0 {
      TryFirstUndisturbed(pods, u, seconds, now, k);
    } else {
      assert done == pods;
    }
    MarkFirstCounts(done, u);
    MarkFirstOrderly(done, u);
  }

  // ---------- the invariant ----------

  function MaxStep(c: Settings): nat {
    Max(1, c.batch)
  }

  /** The number asked for, the pods given the update and the report never run ahead of the
      available pods by more than one step. */
  ghost predicate ProtocolInv(c: Settings, u: Update, s: Set) {
    && Sane(s.pods, u)
    && Disrupted(s.pods, u) <= MaxStep(c)
    && (s.num.Some? ==>
          1 <= s.num.value <= c.desired
          && s.num.value <= CountedCount(s.pods, u.hash) + MaxStep(c))
    && (s.report.Some? && s.report.value.hash == u.hash ==>
          s.report.value.available <= CountedCount(s.pods, u.hash))
  }

  /** Pods not given the update are available, except one that a failed try has marked while more
      were to be tried. */
  ghost predicate Orderly(s: Set, u: Update) {
    && OnlyFirst(s.pods, u)
    && (Undisturbed(s.pods, u) || (s.num.Some? && TriedCount(s.pods, u) < s.num.value))
  }

  lemma GentleKeeps(pods: seq<Pod>, pods': seq<Pod>, u: Update)
    requires |pods| == |pods'| && forall i :: 0 <= i < |pods| ==> Gentle(pods[i], pods'[i], u)
    ensures Sane(pods', u)
    ensures TriedCount(pods', u) == TriedCount(pods, u)
    ensures CountedCount(pods', u.hash) >= CountedCount(pods, u.hash)
    ensures OnlyFirst(pods, u) ==> OnlyFirst(pods', u)
    ensures Undisturbed(pods, u) ==> Undisturbed(pods', u)
  {
    GentleCounts(pods, pods', u);
  }

  lemma {:induction false} NoStop(pods: seq<Pod>, i: nat)
    requires i <= |pods| && forall k :: 0 <= k < |pods| ==> !CannotRefresh(pods[k])
    ensures StopAt(pods, None, i) == |pods|
    decreases |pods| - i
  {
    if i == |pods| {
    } else {
      NoStop(pods, i + 1);
    }
  }

  /** The pods between refresh and tries. */
  lemma RefreshCounts(pods: seq<Pod>, u: Update, now: int, stop: nat)
    requires Sane(pods, u)
    ensures var current := RefreshUpTo(pods, now, stop);
            && Sane(current, u) && TriedCount(current, u) == TriedCount(pods, u)
            && CountedCount(current, u.hash) >= CountedCount(pods, u.hash)
  {
    RefreshGentle(pods, u, now, stop);
    GentleKeeps(pods, RefreshUpTo(pods, now, stop), u);
  }

  lemma RefreshOrderly(pods: seq<Pod>, u: Update, now: int, stop: nat)
    requires Sane(pods, u) && OnlyFirst(pods, u)
    ensures var current := RefreshUpTo(pods, now, stop);
            OnlyFirst(current, u) && (Undisturbed(pods, u) ==> Undisturbed(current, u))
  {
    RefreshGentle(pods, u, now, stop);
    GentleKeeps(pods, RefreshUpTo(pods, now, stop), u);
  }

  /** What `SyncCounts` says of the pods before and after. */
  ghost predicate Advanced(pods: seq<Pod>, u: Update, num: nat, pods': seq<Pod>) {
    && Sane(pods', u) && |pods'| == |pods|
    && CountedCount(pods', u.hash) >= CountedCount(pods, u.hash)
    && TriedCount(pods, u) <= TriedCount(pods', u) <= Max(TriedCount(pods, u), num)
  }

  /** A sync, however it goes, loses no counted pod and tries no more pods than were asked for. */
  lemma SyncCounts(pods: seq<Pod>, u: Update, num: nat, how: How)
    requires Sane(pods, u)
    ensures Advanced(pods, u, num, SyncPods(pods, u, num, how).0)
  {
    var stop := StopAt(pods, how.faults.refresh, 0);
    var current := RefreshUpTo(pods, how.now, stop);
    if stop < |pods| {
      assert SyncPods(pods, u, num, how).0 == current;
      RefreshCounts(pods, u, how.now, stop);
    } else {
      var need := if how.recreate then 0 else Need(pods, u, num);
      assert SyncPods(pods, u, num, how).0 == TrySome(current, u, how.seconds, how.now, need, how.faults);
      SomeTries(pods, current, u, num, need, how);
    }
  }

  lemma SomeTries(pods: seq<Pod>, current: seq<Pod>, u: Update, num: nat, need: int, how: How)
    requires Sane(pods, u) && current == RefreshUpTo(pods, how.now, |pods|)
    requires need == 0 || need == Need(pods, u, num)
    ensures Advanced(pods, u, num, TrySome(current, u, how.seconds, how.now, need, how.faults))
  {
    RefreshCounts(pods, u, how.now, |pods|);
    TrySomeCounts(current, u, how.seconds, how.now, need, how.faults);
  }

  /** A set of the ReCreate type, and a sync whose refresh fails, give no pod the update. */
  lemma NoneTried(pods: seq<Pod>, u: Update, num: nat, how: How)
    requires Sane(pods, u) && (how.recreate || (how.faults.refresh.Some? && how.faults.refresh.value < |pods|))
    ensures TriedCount(SyncPods(pods, u, num, how).0, u) == TriedCount(pods, u)
    ensures !how.recreate ==> !SyncPods(pods, u, num, how).1
  {
    var stop := StopAt(pods, how.faults.refresh, 0);
    var current := RefreshUpTo(pods, how.now, stop);
    RefreshCounts(pods, u, how.now, stop);
    if stop < |pods| {
      assert SyncPods(pods, u, num, how).0 == current;
    } else {
      assert how.recreate && SyncPods(pods, u, num, how).0 == TrySome(current, u, how.seconds, how.now, 0, how.faults);
    }
  }

  /** One in which nothing fails reports, and brings the tried pods up to the number asked for. */
  lemma CleanSyncCounts(pods: seq<Pod>, u: Update, num: nat, how: How)
    requires Sane(pods, u) && how.Clean()
    ensures var after := SyncPods(pods, u, num, how);
            after.1 && TriedCount(after.0, u) == Max(TriedCount(pods, u), Min(num, |pods|))
  {
    NoStop(pods, 0);
    var current, need := RefreshUpTo(pods, how.now, |pods|), Need(pods, u, num);
    assert SyncPods(pods, u, num, how) == (TryFirst(current, u, how.seconds, how.now, need), true);
    CleanTries(pods, current, u, num, how);
  }

  lemma CleanTries(pods: seq<Pod>, current: seq<Pod>, u: Update, num: nat, how: How)
    requires Sane(pods, u) && current == RefreshUpTo(pods, how.now, |pods|)
    ensures TriedCount(TryFirst(current, u, how.seconds, how.now, Need(pods, u, num)), u)
         == Max(TriedCount(pods, u), Min(num, |pods|))
  {
    RefreshCounts(pods, u, how.now, |pods|);
    TriedAtMost(pods, u);
    TryFirstCounts(current, u, how.seconds, how.now, Need(pods, u, num));
  }

  lemma SyncOrderly(c: Settings, u: Update, s: Set, how: How)
    requires ProtocolInv(c, u, s) && s.num.Some? && Orderly(s, u)
    ensures Orderly(s.(pods := SyncPods(s.pods, u, s.num.value, how).0), u)
  {
    var stop := StopAt(s.pods, how.faults.refresh, 0);
    var current := RefreshUpTo(s.pods, how.now, stop);
    RefreshCounts(s.pods, u, how.now, stop);
    RefreshOrderly(s.pods, u, how.now, stop);
    var need := if how.recreate then 0 else Need(s.pods, u, s.num.value);
    TrySomeCounts(current, u, how.seconds, how.now, need, how.faults);
    TrySomeOrderly(current, u, how.seconds, how.now, need, how.faults);
  }

  lemma NodesKeep(u: Update, pods: seq<Pod>, next: seq<Pod>)
    requires Sane(pods, u) && |next| == |pods|
    requires forall i :: 0 <= i < |next| ==> NoFailures(pods[i], next[i])
    ensures Sane(next, u) && TriedCount(next, u) == TriedCount(pods, u)
    ensures CountedCount(next, u.hash) >= CountedCount(pods, u.hash)
    ensures OnlyFirst(pods, u) ==> OnlyFirst(next, u)
    ensures Undisturbed(pods, u) ==> Undisturbed(next, u)
  {
    forall i | 0 <= i < |pods| ensures Gentle(pods[i], next[i], u) {
      assert NoFailures(pods[i], next[i]);
      NodeKeepsCounts(pods[i], next[i], u);
    }
    GentleKeeps(pods, next, u);
  }

  lemma StepKeepsProtocol(c: Settings, u: Update, s: Set, e: Event, s': Set)
    requires ProtocolInv(c, u, s) && Next(c, u, s, e, s')
    ensures ProtocolInv(c, u, s')
    ensures |s'.pods| == |s.pods| && (Orderly(s, u) ==> Orderly(s', u))
    ensures TriedCount(s'.pods, u) >= TriedCount(s.pods, u)
  {
    match e
    case Deploy =>
    case Sync(how) =>
      SyncCounts(s.pods, u, s.num.value, how);
      if Orderly(s, u) {
        SyncOrderly(c, u, s, how);
      }
    case Nodes(next) =>
      NodesKeep(u, s.pods, next);
  }

  // ---------- runs ----------

  ghost predicate Run(c: Settings, u: Update, states: seq<Set>, events: seq<Event>) {
    && |states| == |events| + 1
    && forall i :: 0 <= i < |events| ==> Next(c, u, states[i], events[i], states[i + 1])
  }

  /** A region about to be updated: no number set, no report about this update, and every pod
      that already carries the update's mark is available with it. */
  ghost predicate Start(u: Update, s: Set) {
    && Sane(s.pods, u) && s.num.None?
    && (s.report.Some? ==> s.report.value.hash != u.hash)
    && Disrupted(s.pods, u) <= 0
  }

  /** In every reachable state the pods given the update and not yet available with it number at
      most one step, whatever fails. */
  lemma {:induction false} DisruptionBound(c: Settings, u: Update, states: seq<Set>, events: seq<Event>, n: nat)
    requires Run(c, u, states, events) && Start(u, states[0]) && n < |states|
    ensures ProtocolInv(c, u, states[n])
    ensures Disrupted(states[n].pods, u) <= Max(1, c.batch)
  {
    if n == 0 {
    } else {
      DisruptionBound(c, u, states, events, n - 1);
      assert Next(c, u, states[n - 1], events[n - 1], states[n]);
      StepKeepsProtocol(c, u, states[n - 1], events[n - 1], states[n]);
    }
  }

  lemma {:induction false} AvailableAtLeast(pods: seq<Pod>, u: Update)
    requires OnlyFirst(pods, u) && Sane(pods, u)
    ensures AvailableCount(pods) >= |pods| - Disrupted(pods, u) - if Undisturbed(pods, u) then 0 else 1
  {
    if pods == [] {
    } else {
      var rest := pods[1..];
      assert forall i :: 0 <= i < |rest| ==> rest[i] == pods[i + 1];
      assert Counted(pods[0], u.hash) ==> Tried(pods[0], u);
      AvailableAtLeast(rest, u);
      if Undisturbed(pods, u) {
        assert Tried(pods[0], u) || pods[0].available;
        assert Undisturbed(rest, u);
      } else if !Tried(pods[0], u) {
        assert Undisturbed(rest, u);
      }
    }
  }

  /** An update that starts with every pod available has all but one step's worth of pods
      available throughout, even when writes fail half-way. */
  lemma {:induction false} AvailabilityOverRuns(c: Settings, u: Update, states: seq<Set>, events: seq<Event>, n: nat)
    requires Run(c, u, states, events) && Start(u, states[0]) && n < |states|
    requires Undisturbed(states[0].pods, u)
    ensures Orderly(states[n], u) && |states[n].pods| == |states[0].pods|
    ensures AvailableCount(states[n].pods) >= |states[0].pods| - Max(1, c.batch)
  {
    DisruptionBound(c, u, states, events, n);
    if n == 0 {
    } else {
      AvailabilityOverRuns(c, u, states, events, n - 1);
      DisruptionBound(c, u, states, events, n - 1);
      assert Next(c, u, states[n - 1], events[n - 1], states[n]);
      StepKeepsProtocol(c, u, states[n - 1], events[n - 1], states[n]);
    }
    AvailableAtLeast(states[n].pods, u);
  }
}
