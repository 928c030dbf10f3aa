/** The order in which regions short of resources are visited does not matter, and what happens
    when failover and shortage meet in one rescheduling. */
module RescheduleOrder {
  import opened Basics
  import opened Names
  import opened Allocator
  import opened Reschedule

  // ---------- the shortage phase as one allocation ----------

  lemma {:induction false} BestReplan(infos: Infos, pending: map<string, nat>, r: string, targets: seq<string>)
    requires Listed(infos, targets) && targets != [] && r in infos && r in pending && r !in targets
    ensures Best(Replan(infos, pending, r), targets) == Best(infos, targets)
  {
    if |targets| <= 1 {
    } else {
      assert r !in targets[..|targets| - 1];
      BestReplan(infos, pending, r, targets[..|targets| - 1]);
    }
  }

  /** Replanning a region that is not a target can come before or after an allocation. */
  lemma {:induction false} GreedyReplan(infos: Infos, pending: map<string, nat>, r: string, targets: seq<string>, n: nat)
    requires Listed(infos, targets) && r in infos && r in pending && r !in targets
    ensures var g, h := Greedy(infos, targets, n), Greedy(Replan(infos, pending, r), targets, n);
            h.ok == g.ok && h.infos == Replan(g.infos, pending, r)
    decreases n
  {
    if n == 0 || targets == [] {
    } else {
      BestReplan(infos, pending, r, targets);
      var b := Best(infos, targets);
      if infos[b].room > 0 {
        assert Place(Replan(infos, pending, r), b) == Replan(Place(infos, b), pending, r);
        GreedyReplan(Place(infos, b), pending, r, targets, n - 1);
      }
    }
  }

  predicate Visitable(infos: Infos, targets: seq<string>, pending: map<string, nat>, visit: seq<string>) {
    && Listed(infos, targets)
    && forall i :: 0 <= i < |visit| ==> visit[i] in infos && visit[i] in pending && visit[i] !in targets
  }

  /** Every visited region replanned. */
  function ReplanAll(infos: Infos, pending: map<string, nat>, visit: seq<string>): (r: Infos)
    requires forall i :: 0 <= i < |visit| ==> visit[i] in infos && visit[i] in pending
    ensures r.Keys == infos.Keys
    decreases |visit|
  {
    if visit == [] then infos else ReplanAll(Replan(infos, pending, visit[0]), pending, visit[1..])
  }

  lemma {:induction false} GreedyReplanAll(infos: Infos, targets: seq<string>, pending: map<string, nat>, visit: seq<string>, n: nat)
    requires Visitable(infos, targets, pending, visit)
    ensures var g, h := Greedy(infos, targets, n), Greedy(ReplanAll(infos, pending, visit), targets, n);
            h.ok == g.ok && h.infos == ReplanAll(g.infos, pending, visit)
    decreases |visit|
  {
    if visit == [] {
    } else {
      GreedyReplan(infos, pending, visit[0], targets, n);
      GreedyReplanAll(Replan(infos, pending, visit[0]), targets, pending, visit[1..], n);
    }
  }

  function OutTotal(infos: Infos, pending: map<string, nat>, visit: seq<string>): nat
    requires forall i :: 0 <= i < |visit| ==> visit[i] in infos && visit[i] in pending
  {
    if visit == [] then 0 else Out(infos, pending, visit[0]) + OutTotal(infos, pending, visit[1..])
  }

  /** Planning and allocating leave what a region was configured with and runs. */
  ghost predicate SameFacts(a: Infos, b: Infos) {
    a.Keys == b.Keys && forall n :: n in a ==> a[n].config == b[n].config && a[n].running == b[n].running
  }

  lemma {:induction false} OutFrame(a: Infos, b: Infos, pending: map<string, nat>, visit: seq<string>)
    requires SameFacts(a, b) && forall i :: 0 <= i < |visit| ==> visit[i] in a && visit[i] in pending
    ensures OutTotal(a, pending, visit) == OutTotal(b, pending, visit)
  {
    if visit == [] {
    } else {
      OutFrame(a, b, pending, visit[1..]);
    }
  }

  lemma GreedyFacts(infos: Infos, targets: seq<string>, n: nat)
    requires Listed(infos, targets)
    ensures SameFacts(infos, Greedy(infos, targets, n).infos)
  {
    forall r | r in infos
      ensures Greedy(infos, targets, n).infos[r].config == infos[r].config
      ensures Greedy(infos, targets, n).infos[r].running == infos[r].running
    {
      GreedyPerRegion(infos, targets, n, r);
    }
  }

  /** What is left to move after the first region is what was to be moved from the others. */
  lemma RestIsUntouched(infos: Infos, targets: seq<string>, pending: map<string, nat>, r: string, rest: seq<string>)
    requires Visitable(infos, targets, pending, rest)
    requires r in infos && r in pending && r !in targets
    ensures Visitable(Replan(infos, pending, r), targets, pending, rest)
    ensures var g := ShortageOf(infos, targets, pending, r).infos;
            Visitable(g, targets, pending, rest) && OutTotal(g, pending, rest) == OutTotal(infos, pending, rest)
  {
    GreedyFacts(Replan(infos, pending, r), targets, Out(infos, pending, r));
    OutFrame(infos, ShortageOf(infos, targets, pending, r).infos, pending, rest);
  }

  /** Two allocations in a row, with regions replanned before both or in between. */
  lemma ReplanBetween(infos: Infos, targets: seq<string>, pending: map<string, nat>, rest: seq<string>, a: nat, b: nat)
    requires Visitable(infos, targets, pending, rest)
    ensures var g, all := Greedy(infos, targets, a), Greedy(ReplanAll(infos, pending, rest), targets, a + b);
            && Visitable(g.infos, targets, pending, rest)
            && (if g.ok then all == Greedy(ReplanAll(g.infos, pending, rest), targets, b) else !all.ok)
  {
    GreedyAdditive(ReplanAll(infos, pending, rest), targets, a, b);
    GreedyReplanAll(infos, targets, pending, rest, a);
  }

  /** The phase succeeds exactly when the receivers have room for all that is moved, and then it
      is one allocation of that many replicas. */
  lemma {:induction false} ShortageAsOne(infos: Infos, targets: seq<string>, pending: map<string, nat>, visit: seq<string>)
    requires Visitable(infos, targets, pending, visit)
    ensures var o := ShortageOutcome(infos, targets, pending, visit);
            var g := Greedy(ReplanAll(infos, pending, visit), targets, OutTotal(infos, pending, visit));
            o.ok == g.ok && (o.ok ==> o.infos == g.infos)
    decreases |visit|
  {
    if visit == [] {
    } else {
      var rest := visit[1..];
      RestIsUntouched(infos, targets, pending, visit[0], rest);
      ReplanBetween(Replan(infos, pending, visit[0]), targets, pending, rest,
                    Out(infos, pending, visit[0]), OutTotal(infos, pending, rest));
      var g := ShortageOf(infos, targets, pending, visit[0]);
      if g.ok {
        ShortageAsOne(g.infos, targets, pending, rest);
      }
    }
  }

  // ---------- any order ----------

  lemma {:induction false} ReplanAllAt(infos: Infos, pending: map<string, nat>, visit: seq<string>, n: string)
    requires n in infos && forall i :: 0 <= i < |visit| ==> visit[i] in infos && visit[i] in pending
    ensures ReplanAll(infos, pending, visit)[n]
         == if n in visit then infos[n].(planned := Started(infos, pending, n)) else infos[n]
    decreases |visit|
  {
    if visit == [] {
    } else {
      assert n in visit <==> n == visit[0] || n in visit[1..];
      ReplanAllAt(Replan(infos, pending, visit[0]), pending, visit[1..], n);
    }
  }

  function Outs(infos: Infos, pending: map<string, nat>): map<string, int> {
    map n | n in infos && n in pending :: Out(infos, pending, n)
  }

  lemma {:induction false} OutIsSum(infos: Infos, pending: map<string, nat>, visit: seq<string>)
    requires forall i :: 0 <= i < |visit| ==> visit[i] in infos && visit[i] in pending
    ensures Has(Outs(infos, pending), visit)
    ensures OutTotal(infos, pending, visit) == SumOver(Outs(infos, pending), visit)
  {
    if visit == [] {
    } else {
      OutIsSum(infos, pending, visit[1..]);
    }
  }

  /** Visiting the same regions in another order succeeds in the same cases with the same plan. */
  lemma VisitOrderIrrelevant(infos: Infos, targets: seq<string>, pending: map<string, nat>, xs: seq<string>, ys: seq<string>)
    requires Visitable(infos, targets, pending, xs) && Visitable(infos, targets, pending, ys)
    requires Listed(infos, xs) && Listed(infos, ys) && SameNames(xs, ys)
    ensures var a, b := ShortageOutcome(infos, targets, pending, xs), ShortageOutcome(infos, targets, pending, ys);
            a.ok == b.ok && (a.ok ==> a.infos == b.infos)
  {
    ShortageAsOne(infos, targets, pending, xs);
    ShortageAsOne(infos, targets, pending, ys);
    OutIsSum(infos, pending, xs);
    OutIsSum(infos, pending, ys);
    Reorder(Outs(infos, pending), xs, ys);
    var rx, ry := ReplanAll(infos, pending, xs), ReplanAll(infos, pending, ys);
    forall n | n in infos ensures rx[n] == ry[n] {
      ReplanAllAt(infos, pending, xs, n);
      ReplanAllAt(infos, pending, ys, n);
    }
    assert rx == ry;
  }

  // ---------- failover followed by shortage ----------

  lemma {:induction false} DriftSign(infos: Infos, pending: map<string, nat>, visit: seq<string>)
    requires forall i :: 0 <= i < |visit| ==>
               && visit[i] in infos && visit[i] in pending
               && Started(infos, pending, visit[i]) <= infos[visit[i]].config <= infos[visit[i]].planned
    ensures Drift(infos, pending, visit) <= 0
    ensures Drift(infos, pending, visit) == 0
       <==> forall i :: 0 <= i < |visit| ==> infos[visit[i]].planned == infos[visit[i]].config
  {
    if visit == [] {
    } else {
      DriftSign(infos, pending, visit[1..]);
      assert forall i :: 0 < i < |visit| ==> visit[i] == visit[1..][i - 1];
    }
  }

  /** After a failover from a plan as configured, the shortage phase loses nothing exactly when no
      short region received anything. */
  lemma DriftAfterFailover(infos: Infos, order: seq<string>, failed: set<string>, pending: map<string, nat>, visit: seq<string>)
    requires Listed(infos, order) && AsConfigured(infos)
    requires forall i :: 0 <= i < |visit| ==>
               && visit[i] in infos && visit[i] in pending && visit[i] !in failed
               && Started(infos, pending, visit[i]) <= infos[visit[i]].config
    ensures var mid := FailoverOutcome(infos, order, failed).infos;
            && mid.Keys == infos.Keys && Drift(mid, pending, visit) <= 0
            && (Drift(mid, pending, visit) == 0
                <==> forall i :: 0 <= i < |visit| ==> mid[visit[i]].planned == infos[visit[i]].config)
  {
    var mid := FailoverOutcome(infos, order, failed).infos;
    SurvivorsListed(infos, order, failed);
    assert mid.Keys == infos.Keys;
    forall i | 0 <= i < |visit|
      ensures && mid[visit[i]].config == infos[visit[i]].config
              && mid[visit[i]].running == infos[visit[i]].running
              && mid[visit[i]].planned >= infos[visit[i]].config
    {
      GreedyPerRegion(Emptied(infos, order, failed), Survivors(order, failed),
                      Max(0, Displaced(infos, order, failed)), visit[i]);
    }
    DriftSign(mid, pending, visit);
  }

  /** When both phases run, the total is conserved exactly when the drift of the second is zero. If
      no short region has started more than it is configured with, replicas can only be lost: those
      that the failover planned into a short region; so none is exactly when it planned none there. */
  lemma BothPhases(infos: Infos, order: seq<string>, failed: set<string>, pending: map<string, nat>, visit: seq<string>)
    requires Listed(infos, order) && Listed(infos, visit)
    requires AsConfigured(infos) && forall n :: n in infos ==> infos[n].config >= 0
    requires forall i :: 0 <= i < |visit| ==> visit[i] in pending && visit[i] in order && visit[i] !in failed
    requires FailoverOutcome(infos, order, failed).ok
    requires var mid := FailoverOutcome(infos, order, failed).infos;
             mid.Keys == infos.Keys && ShortagePhase(mid, order, pending, visit).ok
    ensures var mid := FailoverOutcome(infos, order, failed).infos;
            var after := ShortagePhase(mid, order, pending, visit).infos;
            && after.Keys == infos.Keys
            && (DesiredSum(infos, Annotation(after), order) == Sum(Configured, infos, order)
                <==> Drift(mid, pending, visit) == 0)
            && ((forall i :: 0 <= i < |visit| ==> Started(infos, pending, visit[i]) <= infos[visit[i]].config) ==>
                  && DesiredSum(infos, Annotation(after), order) <= Sum(Configured, infos, order)
                  && (Drift(mid, pending, visit) == 0
                      <==> forall i :: 0 <= i < |visit| ==> mid[visit[i]].planned == infos[visit[i]].config))
  {
    var mid := FailoverOutcome(infos, order, failed).infos;
    FailoverConserves(infos, order, failed);
    AnnotationRoundTrip(infos, mid, order);
    if forall i :: 0 <= i < |visit| ==> Started(infos, pending, visit[i]) <= infos[visit[i]].config {
      DriftAfterFailover(infos, order, failed, pending, visit);
    }
    ShortageConserves(mid, order, pending, visit);
    var targets := Receivers(mid, order, pending);
    ReceiversListed(mid, order, pending);
    ShortageBalance(mid, targets, pending, visit, order);
    AnnotationRoundTrip(infos, ShortageOutcome(mid, targets, pending, visit).infos, order);
  }

  /** Three regions with one replica each: "a" fails over into "b", whose pod is then found
      pending, and one of the three replicas is planned nowhere. */
  const THREE: Infos :=
    map["a" := RegionInfo(1, 0, 1, 0), "b" := RegionInfo(1, 1, 1, 5), "c" := RegionInfo(1, 1, 1, 1)]
  const FAILED_OVER: Infos :=
    map["a" := RegionInfo(1, 0, 0, 0), "b" := RegionInfo(1, 1, 2, 4), "c" := RegionInfo(1, 1, 1, 1)]
  const MOVED_OUT: Infos :=
    map["a" := RegionInfo(1, 0, 0, 0), "b" := RegionInfo(1, 1, 0, 4), "c" := RegionInfo(1, 1, 2, 0)]

  lemma ThreeTakenOut(order: seq<string>)
    requires order == ["a", "b", "c"]
    ensures Survivors(order, {"a"}) == ["b", "c"] && Displaced(THREE, order, {"a"}) == 1
    ensures Emptied(THREE, order, {"a"}) == THREE["a" := RegionInfo(1, 0, 0, 0)]
  {
    assert order[1..] == ["b", "c"] && ["b", "c"][1..] == ["c"] && ["c"][1..] == [];
    assert Survivors(["c"], {"a"}) == ["c"];
    assert Survivors(["b", "c"], {"a"}) == ["b", "c"];
    assert Displaced(THREE, ["c"], {"a"}) == 0;
    assert Displaced(THREE, ["b", "c"], {"a"}) == 0;
  }

  lemma PlacedInB(emptied: Infos)
    requires emptied == THREE["a" := RegionInfo(1, 0, 0, 0)]
    ensures Greedy(emptied, ["b", "c"], 1) == Outcome(FAILED_OVER, true)
  {
    assert ["b", "c"][..1] == ["b"];
    assert Best(emptied, ["b"]) == "b";
    assert Best(emptied, ["b", "c"]) == "b";
    assert Place(emptied, "b") == FAILED_OVER;
    assert Greedy(FAILED_OVER, ["b", "c"], 0) == Outcome(FAILED_OVER, true);
  }

  lemma ThreeFailOver()
    ensures FailoverOutcome(THREE, ["a", "b", "c"], {"a"}) == Outcome(FAILED_OVER, true)
  {
    ThreeTakenOut(["a", "b", "c"]);
    PlacedInB(THREE["a" := RegionInfo(1, 0, 0, 0)]);
  }

  lemma ThreeShort()
    ensures ShortagePhase(FAILED_OVER, ["a", "b", "c"], map["b" := 1], ["b"]) == Outcome(MOVED_OUT, true)
  {
    var order, pending: map<string, nat> := ["a", "b", "c"], map["b" := 1];
    assert order[1..] == ["b", "c"] && ["b", "c"][1..] == ["c"] && ["c"][1..] == [] && ["b"][1..] == [];
    assert Receivers(FAILED_OVER, ["c"], pending) == ["c"];
    assert Receivers(FAILED_OVER, ["b", "c"], pending) == ["c"];
    assert Receivers(FAILED_OVER, order, pending) == ["c"];
    var replanned := FAILED_OVER["b" := RegionInfo(1, 1, 0, 4)];
    assert Best(replanned, ["c"]) == "c";
    assert Place(replanned, "c") == MOVED_OUT;
    assert Greedy(MOVED_OUT, ["c"], 0) == Outcome(MOVED_OUT, true);
    assert Greedy(replanned, ["c"], 1) == Outcome(MOVED_OUT, true);
    assert ShortageOutcome(MOVED_OUT, ["c"], pending, []) == Outcome(MOVED_OUT, true);
  }

  lemma ReplicaLost()
    ensures Sum(Configured, THREE, ["a", "b", "c"]) == 3
    ensures DesiredSum(THREE, Annotation(MOVED_OUT), ["a", "b", "c"]) == 2
  {
    assert ["a", "b", "c"][1..] == ["b", "c"] && ["b", "c"][1..] == ["c"];
    assert Sum(Configured, THREE, ["c"]) == 1;
    assert Sum(Configured, THREE, ["b", "c"]) == 2;
    assert DesiredSum(THREE, Annotation(MOVED_OUT), ["c"]) == 2;
    assert DesiredSum(THREE, Annotation(MOVED_OUT), ["b", "c"]) == 2;
  }
}
