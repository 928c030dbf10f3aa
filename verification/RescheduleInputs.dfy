/** Failover followed by shortage, judged by what is known before either: when no replica can get
    lost, whatever the order in which the regions come. */
module RescheduleInputs {
  import opened Basics
  import opened Names
  import opened Allocator
  import opened Reschedule
  import opened RescheduleOrder
  import opened AllocatorOrder

  // ---------- one allocation ----------

  /** Replicas the targets other than the short regions take before their room is down to `m`. */
  function Above(infos: Infos, targets: seq<string>, short: set<string>, m: int): nat
    requires Listed(infos, targets)
  {
    if targets == [] then 0
    else (if targets[0] in short then 0 else Max(0, infos[targets[0]].room - m))
         + Above(infos, targets[1..], short, m)
  }

  lemma {:induction false} AboveWitness(infos: Infos, targets: seq<string>, short: set<string>, m: int)
    requires Listed(infos, targets)
    ensures Above(infos, targets, short, m) > 0
       <==> exists i :: 0 <= i < |targets| && targets[i] !in short && infos[targets[i]].room > m
  {
    if targets == [] {
    } else {
      var rest := targets[1..];
      AboveWitness(infos, rest, short, m);
      assert forall i :: 0 <= i < |rest| ==> rest[i] == targets[i + 1];
      assert forall i :: 0 < i < |targets| ==> targets[i] == rest[i - 1];
    }
  }

  lemma {:induction false} AbovePlace(infos: Infos, targets: seq<string>, short: set<string>, m: int, b: string)
    requires Listed(infos, targets) && b in infos && b !in short && infos[b].room > m
    ensures Above(Place(infos, b), targets, short, m)
         == Above(infos, targets, short, m) - if b in targets then 1 else 0
  {
    if targets == [] {
    } else {
      assert b in targets <==> b == targets[0] || b in targets[1..];
      AbovePlace(infos, targets[1..], short, m, b);
    }
  }

  /** No short region has more room than `m`. */
  predicate AtMost(infos: Infos, short: set<string>, m: int) {
    forall n :: n in short && n in infos ==> infos[n].room <= m
  }

  /** If the others have enough room above the short regions' level, or that level is no room at
      all, nothing is placed in a short region. */
  lemma {:induction false} NoneToShort(infos: Infos, targets: seq<string>, short: set<string>, m: int, n: nat)
    requires Listed(infos, targets) && AtMost(infos, short, m)
    requires m <= 0 || n <= Above(infos, targets, short, m)
    ensures forall r :: r in short && r in infos ==> Greedy(infos, targets, n).infos[r] == infos[r]
    decreases n
  {
    if n == 0 || targets == [] {
    } else {
      var b := Best(infos, targets);
      AboveWitness(infos, targets, short, m);
      if infos[b].room > 0 {
        assert infos[b].room > m;
        AbovePlace(infos, targets, short, m, b);
        NoneToShort(Place(infos, b), targets, short, m, n - 1);
      }
    }
  }

  lemma {:induction false} BestIsFirst(infos: Infos, targets: seq<string>)
    requires Listed(infos, targets) && targets != []
    requires forall i :: 0 <= i < |targets| ==> infos[targets[i]].room <= infos[targets[0]].room
    ensures Best(infos, targets) == targets[0]
  {
    if |targets| == 1 {
    } else {
      BestIsFirst(infos, targets[..|targets| - 1]);
    }
  }

  /** The best target is above the short regions' level as long as one is; then it is the first. */
  lemma BestAbove(infos: Infos, targets: seq<string>, short: set<string>, m: int)
    requires Listed(infos, targets) && AtMost(infos, short, m)
    requires targets != [] && targets[0] in short && infos[targets[0]].room == m
    ensures var b := Best(infos, targets);
            if Above(infos, targets, short, m) > 0 then infos[b].room > m && b !in short else b == targets[0]
  {
    AboveWitness(infos, targets, short, m);
    if Above(infos, targets, short, m) == 0 {
      BestIsFirst(infos, targets);
    }
  }

  lemma BestReceives(infos: Infos, targets: seq<string>, n: nat)
    requires Listed(infos, targets) && targets != [] && n > 0 && infos[Best(infos, targets)].room > 0
    ensures var b := Best(infos, targets);
            Greedy(infos, targets, n).infos[b].planned > infos[b].planned
  {
    var b := Best(infos, targets);
    assert Greedy(infos, targets, n) == Greedy(Place(infos, b), targets, n - 1);
    GreedyPerRegion(Place(infos, b), targets, n - 1, b);
  }

  /** If they do not, and a short region with the most room comes first, it receives. */
  lemma {:induction false} SomeToShort(infos: Infos, targets: seq<string>, short: set<string>, m: int, n: nat)
    requires Listed(infos, targets) && AtMost(infos, short, m)
    requires targets != [] && targets[0] in short && infos[targets[0]].room == m && m > 0
    requires Greedy(infos, targets, n).ok && n > Above(infos, targets, short, m)
    ensures Greedy(infos, targets, n).infos[targets[0]].planned > infos[targets[0]].planned
    decreases n
  {
    var b := Best(infos, targets);
    BestAbove(infos, targets, short, m);
    if Above(infos, targets, short, m) > 0 {
      AbovePlace(infos, targets, short, m, b);
      assert Greedy(infos, targets, n) == Greedy(Place(infos, b), targets, n - 1);
      SomeToShort(Place(infos, b), targets, short, m, n - 1);
    } else {
      BestReceives(infos, targets, n);
    }
  }

  // ---------- a failover ----------

  function Configs(infos: Infos, failed: set<string>): map<string, int> {
    map n | n in infos :: if n in failed then infos[n].config else 0
  }

  function Aboves(infos: Infos, failed: set<string>, short: set<string>, m: int): map<string, int> {
    map n | n in infos :: if n in failed || n in short then 0 else Max(0, infos[n].room - m)
  }

  lemma {:induction false} DisplacedIsSum(infos: Infos, order: seq<string>, failed: set<string>)
    requires Listed(infos, order)
    ensures Displaced(infos, order, failed) == SumOver(Configs(infos, failed), order)
  {
    if order == [] {
    } else {
      DisplacedIsSum(infos, order[1..], failed);
    }
  }

  lemma {:induction false} AboveIsSum(infos: Infos, order: seq<string>, failed: set<string>, short: set<string>, m: int)
    requires Listed(infos, order)
    ensures Listed(infos, Survivors(order, failed))
    ensures Above(infos, Survivors(order, failed), short, m) == SumOver(Aboves(infos, failed, short, m), order)
  {
    SurvivorsListed(infos, order, failed);
    if order == [] {
    } else {
      var rest := Survivors(order[1..], failed);
      SurvivorsListed(infos, order[1..], failed);
      AboveIsSum(infos, order[1..], failed, short, m);
      assert order[0] !in failed ==> Survivors(order, failed)[1..] == rest;
    }
  }

  /** What is known before: the short regions have no room, or the other survivors take all that is
      displaced before their room is down to the short regions' level. */
  predicate Spared(infos: Infos, order: seq<string>, failed: set<string>, short: set<string>, m: int)
    requires Listed(infos, order)
  {
    m <= 0 || SumOver(Configs(infos, failed), order) <= SumOver(Aboves(infos, failed, short, m), order)
  }

  lemma SparedInAnyOrder(infos: Infos, xs: seq<string>, ys: seq<string>, failed: set<string>, short: set<string>, m: int)
    requires Listed(infos, xs) && Listed(infos, ys) && SameNames(xs, ys)
    ensures Spared(infos, xs, failed, short, m) <==> Spared(infos, ys, failed, short, m)
  {
    Reorder(Configs(infos, failed), xs, ys);
    Reorder(Aboves(infos, failed, short, m), xs, ys);
  }

  /** The failover plans nothing into a short region. */
  ghost predicate Spares(infos: Infos, order: seq<string>, failed: set<string>, short: set<string>)
    requires Listed(infos, order)
  {
    var after := FailoverOutcome(infos, order, failed).infos;
    forall r :: r in short && r in infos && r in after ==> after[r].planned == infos[r].planned
  }

  /** What the failover allocates, and from what. */
  lemma FailoverIs(infos: Infos, order: seq<string>, failed: set<string>, short: set<string>, m: int)
    requires Listed(infos, order) && forall n :: n in infos ==> infos[n].config >= 0
    ensures var e, targets, n := Emptied(infos, order, failed), Survivors(order, failed), SumOver(Configs(infos, failed), order);
            && n >= 0 && Listed(e, targets)
            && FailoverOutcome(infos, order, failed) == Greedy(e, targets, n)
            && Above(e, targets, short, m) == SumOver(Aboves(infos, failed, short, m), order)
  {
    var e := Emptied(infos, order, failed);
    DisplacedIsSum(infos, order, failed);
    DisplacedNonNegative(infos, order, failed);
    SurvivorsListed(infos, order, failed);
    AboveIsSum(e, order, failed, short, m);
    assert Aboves(e, failed, short, m) == Aboves(infos, failed, short, m);
  }

  lemma SparedSpares(infos: Infos, order: seq<string>, failed: set<string>, short: set<string>, m: int)
    requires Listed(infos, order) && forall n :: n in infos ==> infos[n].config >= 0
    requires AtMost(infos, short, m) && short !! failed && Spared(infos, order, failed, short, m)
    ensures Spares(infos, order, failed, short)
  {
    FailoverIs(infos, order, failed, short, m);
    NoneToShort(Emptied(infos, order, failed), Survivors(order, failed), short, m, SumOver(Configs(infos, failed), order));
  }

  /** Otherwise the order decides: with a roomiest short region first, it receives. */
  lemma FirstReceives(infos: Infos, order: seq<string>, failed: set<string>, short: set<string>, m: int)
    requires Listed(infos, order) && forall n :: n in infos ==> infos[n].config >= 0
    requires AtMost(infos, short, m) && short !! failed
    requires order != [] && order[0] in short && infos[order[0]].room == m
    ensures FailoverOutcome(infos, order, failed).ok && !Spared(infos, order, failed, short, m) ==>
              !Spares(infos, order, failed, short)
  {
    if FailoverOutcome(infos, order, failed).ok && !Spared(infos, order, failed, short, m) {
      FailoverIs(infos, order, failed, short, m);
      SomeToShort(Emptied(infos, order, failed), Survivors(order, failed), short, m, SumOver(Configs(infos, failed), order));
    }
  }

  /** The same regions with the `k`-th first. */
  function Fronted(order: seq<string>, k: nat): seq<string>
    requires k < |order|
  {
    [order[k]] + Without(order, k)
  }

  lemma FrontedNames(infos: Infos, order: seq<string>, k: nat)
    requires Listed(infos, order) && k < |order|
    ensures Listed(infos, Fronted(order, k)) && SameNames(order, Fronted(order, k))
  {
    WithoutNames(order, k);
  }

  lemma OrderKeepsSuccess(infos: Infos, xs: seq<string>, ys: seq<string>, failed: set<string>)
    requires Listed(infos, xs) && Listed(infos, ys) && SameNames(xs, ys)
    ensures FailoverOutcome(infos, xs, failed).ok == FailoverOutcome(infos, ys, failed).ok
  {
    SurvivorsListed(infos, xs, failed);
    SurvivorsListed(infos, ys, failed);
    DisplacedIsSum(infos, xs, failed);
    DisplacedIsSum(infos, ys, failed);
    Reorder(Configs(infos, failed), xs, ys);
    assert Emptied(infos, xs, failed) == Emptied(infos, ys, failed);
    TargetOrder(Emptied(infos, xs, failed), Survivors(xs, failed), Survivors(ys, failed),
                Max(0, Displaced(infos, xs, failed)));
  }

  /** A failover that succeeds plans nothing into the short regions, whatever the order of the
      regions, exactly when they are spared; `m` is the most room a short region has. */
  lemma FailoverSparesExactly(infos: Infos, order: seq<string>, failed: set<string>, short: set<string>, m: int, k: nat)
    requires Listed(infos, order) && forall n :: n in infos ==> infos[n].config >= 0
    requires AtMost(infos, short, m) && short !! failed
    requires k < |order| && order[k] in short && infos[order[k]].room == m
    requires FailoverOutcome(infos, order, failed).ok
    ensures Spared(infos, order, failed, short, m)
       <==> forall ys :: Listed(infos, ys) && SameNames(order, ys) ==> Spares(infos, ys, failed, short)
  {
    if Spared(infos, order, failed, short, m) {
      forall ys | Listed(infos, ys) && SameNames(order, ys) ensures Spares(infos, ys, failed, short) {
        SparedInAnyOrder(infos, order, ys, failed, short, m);
        SparedSpares(infos, ys, failed, short, m);
      }
    } else {
      var ys := Fronted(order, k);
      FrontedNames(infos, order, k);
      SparedInAnyOrder(infos, order, ys, failed, short, m);
      OrderKeepsSuccess(infos, order, ys, failed);
      FirstReceives(infos, ys, failed, short, m);
    }
  }

  // ---------- both phases ----------

  /** No replica can get lost in the shortage phase that follows the failover. */
  ghost predicate LosesNothing(infos: Infos, order: seq<string>, failed: set<string>, pending: map<string, nat>, visit: seq<string>)
    requires Listed(infos, order)
  {
    var mid := FailoverOutcome(infos, order, failed).infos;
    && (forall i :: 0 <= i < |visit| ==> visit[i] in mid && visit[i] in pending)
    && Drift(mid, pending, visit) == 0
  }

  lemma SparesMeansNothingLost(
    infos: Infos, order: seq<string>, failed: set<string>, pending: map<string, nat>, visit: seq<string>, short: set<string>)
    requires Listed(infos, order) && AsConfigured(infos)
    requires forall i :: 0 <= i < |visit| ==>
               && visit[i] in infos && visit[i] in pending && visit[i] !in failed && visit[i] in short
               && Started(infos, pending, visit[i]) <= infos[visit[i]].config
    requires forall n :: n in short ==> n in visit
    ensures Spares(infos, order, failed, short) <==> LosesNothing(infos, order, failed, pending, visit)
  {
    DriftAfterFailover(infos, order, failed, pending, visit);
    var mid := FailoverOutcome(infos, order, failed).infos;
    if Spares(infos, order, failed, short) {
      assert forall i :: 0 <= i < |visit| ==> mid[visit[i]].planned == infos[visit[i]].config;
    }
  }

  /** Before either phase: for every order of the regions no replica gets lost exactly when the
      short regions are spared, provided none of them has started more than it is configured with.
      With `BothPhases`, that is when both phases together conserve the configured total. */
  lemma NothingLostExactly(
    infos: Infos, order: seq<string>, failed: set<string>, pending: map<string, nat>, visit: seq<string>,
    short: set<string>, m: int, k: nat)
    requires Listed(infos, order) && AsConfigured(infos) && forall n :: n in infos ==> infos[n].config >= 0
    requires forall i :: 0 <= i < |visit| ==>
               && visit[i] in infos && visit[i] in pending && visit[i] !in failed && visit[i] in short
               && Started(infos, pending, visit[i]) <= infos[visit[i]].config
    requires forall n :: n in short ==> n in visit
    requires AtMost(infos, short, m) && k < |order| && order[k] in short && infos[order[k]].room == m
    requires FailoverOutcome(infos, order, failed).ok
    ensures Spared(infos, order, failed, short, m)
       <==> forall ys :: Listed(infos, ys) && SameNames(order, ys) ==> LosesNothing(infos, ys, failed, pending, visit)
  {
    FailoverSparesExactly(infos, order, failed, short, m, k);
    forall ys | Listed(infos, ys) && SameNames(order, ys)
      ensures Spares(infos, ys, failed, short) <==> LosesNothing(infos, ys, failed, pending, visit)
    {
      SparesMeansNothingLost(infos, ys, failed, pending, visit, short);
    }
  }
}
