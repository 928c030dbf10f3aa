/** The allocator that moves replicas between regions one at a time, each to the region with
    the most room. */
module Allocator {
  import opened Basics

  /** A region: configured replicas, replicas running there, replicas planned for it, and how
      many more pods its nodes can take. */
  datatype RegionInfo = RegionInfo(config: int, running: int, planned: int, room: int)

  type Infos = map<string, RegionInfo>

  /** A quantity summed over regions. */
  datatype Quantity = Configured | Planned | Room

  function Amount(q: Quantity, r: RegionInfo): int {
    match q
    case Configured => r.config
    case Planned => r.planned
    case Room => Max(0, r.room)
  }

  predicate Listed(infos: Infos, names: seq<string>) {
    && (forall i :: 0 <= i < |names| ==> names[i] in infos)
    && (forall i, j :: 0 <= i < j < |names| ==> names[i] != names[j])
  }

  /** Every name of the one list is in the other. */
  predicate Within(xs: seq<string>, ys: seq<string>) {
    forall i :: 0 <= i < |xs| ==> xs[i] in ys
  }

  function Sum(q: Quantity, infos: Infos, names: seq<string>): int
    requires forall i :: 0 <= i < |names| ==> names[i] in infos
  {
    if names == [] then 0 else Amount(q, infos[names[0]]) + Sum(q, infos, names[1..])
  }

  lemma {:induction false} SumUpdate(q: Quantity, infos: Infos, names: seq<string>, r: string, v: RegionInfo)
    requires Listed(infos, names) && r in infos
    ensures Sum(q, infos[r := v], names)
         == Sum(q, infos, names) + (if r in names then Amount(q, v) - Amount(q, infos[r]) else 0)
  {
    if names == [] {
    } else {
      assert r in names <==> r == names[0] || r in names[1..];
      SumUpdate(q, infos, names[1..], r, v);
    }
  }

  // ---------- the greedy allocator ----------

  /** The first of the targets with the most room. */
  function Best(infos: Infos, targets: seq<string>): (b: string)
    requires targets != [] && forall i :: 0 <= i < |targets| ==> targets[i] in infos
    ensures b in targets
    ensures forall i :: 0 <= i < |targets| ==> infos[targets[i]].room <= infos[b].room
  {
    var last := targets[|targets| - 1];
    if |targets| == 1 then last
    else
      var b := Best(infos, targets[..|targets| - 1]);
      assert forall i :: 0 <= i < |targets| - 1 ==> targets[i] == targets[..|targets| - 1][i];
      if infos[last].room > infos[b].room then last else b
  }

  function Place(infos: Infos, r: string): Infos
    requires r in infos
  {
    infos[r := infos[r].(planned := infos[r].planned + 1, room := infos[r].room - 1)]
  }

  datatype Outcome = Outcome(infos: Infos, ok: bool)

  /** Placing `n` replicas; a failure keeps what was placed so far. */
  function Greedy(infos: Infos, targets: seq<string>, n: nat): (r: Outcome)
    requires Listed(infos, targets)
    ensures r.infos.Keys == infos.Keys
    decreases n
  {
    if n == 0 then Outcome(infos, true)
    else if targets == [] || infos[Best(infos, targets)].room <= 0 then Outcome(infos, false)
    else Greedy(Place(infos, Best(infos, targets)), targets, n - 1)
  }

  lemma {:induction false} NoRoom(infos: Infos, targets: seq<string>)
    requires Listed(infos, targets)
    ensures Sum(Room, infos, targets) >= 0
    ensures Sum(Room, infos, targets) == 0
       <==> forall i :: 0 <= i < |targets| ==> infos[targets[i]].room <= 0
  {
    if targets == [] {
    } else {
      NoRoom(infos, targets[1..]);
      assert forall i :: 0 < i < |targets| ==> targets[i] == targets[1..][i - 1];
    }
  }

  lemma PlaceSums(infos: Infos, targets: seq<string>, b: string)
    requires Listed(infos, targets) && b in targets && b in infos && infos[b].room > 0
    ensures Sum(Room, Place(infos, b), targets) == Sum(Room, infos, targets) - 1
    ensures Sum(Planned, Place(infos, b), targets) == Sum(Planned, infos, targets) + 1
  {
    var v := Place(infos, b)[b];
    SumUpdate(Room, infos, targets, b, v);
    SumUpdate(Planned, infos, targets, b, v);
  }

  /** The allocator succeeds exactly when the targets together have room; then it has added
      exactly `n` replicas and taken as much room. */
  lemma {:induction false} GreedyExact(infos: Infos, targets: seq<string>, n: nat)
    requires Listed(infos, targets)
    ensures Greedy(infos, targets, n).ok <==> n <= Sum(Room, infos, targets)
    ensures var g := Greedy(infos, targets, n);
            g.ok ==>
              && Sum(Planned, g.infos, targets) == Sum(Planned, infos, targets) + n
              && Sum(Room, g.infos, targets) == Sum(Room, infos, targets) - n
    decreases n
  {
    NoRoom(infos, targets);
    if n == 0 || targets == [] {
    } else {
      var b := Best(infos, targets);
      if infos[b].room > 0 {
        PlaceSums(infos, targets, b);
        GreedyExact(Place(infos, b), targets, n - 1);
      }
    }
  }

  /** Region by region: each gains what its room loses, room that is not negative does not
      become negative, and regions that are not targets are untouched. */
  lemma {:induction false} GreedyPerRegion(infos: Infos, targets: seq<string>, n: nat, r: string)
    requires Listed(infos, targets) && r in infos
    ensures var after := Greedy(infos, targets, n).infos[r];
            && after.planned - infos[r].planned == infos[r].room - after.room >= 0
            && after.config == infos[r].config && after.running == infos[r].running
            && (infos[r].room >= 0 ==> after.room >= 0)
            && (r !in targets ==> after == infos[r])
    decreases n
  {
    if n == 0 || targets == [] {
    } else {
      var b := Best(infos, targets);
      if infos[b].room > 0 {
        GreedyPerRegion(Place(infos, b), targets, n - 1, r);
      }
    }
  }

  lemma GreedyLeaves(infos: Infos, targets: seq<string>, n: nat)
    requires Listed(infos, targets)
    ensures forall r :: r in infos && r !in targets ==> Greedy(infos, targets, n).infos[r] == infos[r]
  {
    forall r | r in infos && r !in targets ensures Greedy(infos, targets, n).infos[r] == infos[r] {
      GreedyPerRegion(infos, targets, n, r);
    }
  }

  /** Two allocations in a row are one allocation of the sum. */
  lemma {:induction false} GreedyAdditive(infos: Infos, targets: seq<string>, a: nat, b: nat)
    requires Listed(infos, targets)
    ensures var g := Greedy(infos, targets, a);
            Greedy(infos, targets, a + b) == if g.ok then Greedy(g.infos, targets, b) else g
    decreases a
  {
    if a == 0 || targets == [] {
    } else {
      var best := Best(infos, targets);
      if infos[best].room > 0 {
        GreedyAdditive(Place(infos, best), targets, a - 1, b);
        assert Greedy(infos, targets, a + b) == Greedy(Place(infos, best), targets, (a - 1) + b);
      }
    }
  }

  /** A region that has received something has at least the room of any other, less one. */
  ghost predicate Balanced(start: Infos, infos: Infos, targets: seq<string>)
    requires Listed(start, targets) && Listed(infos, targets)
  {
    forall i, j :: 0 <= i < |targets| && 0 <= j < |targets| ==>
      infos[targets[i]].room < start[targets[i]].room ==>
        infos[targets[i]].room >= infos[targets[j]].room - 1
  }

  lemma {:induction false} GreedyBalanced(start: Infos, infos: Infos, targets: seq<string>, n: nat)
    requires Listed(start, targets) && Listed(infos, targets) && Balanced(start, infos, targets)
    ensures Balanced(start, Greedy(infos, targets, n).infos, targets)
    decreases n
  {
    if n == 0 || targets == [] {
    } else {
      var b := Best(infos, targets);
      if infos[b].room > 0 {
        GreedyBalanced(start, Place(infos, b), targets, n - 1);
      }
    }
  }

  /** Replicas a distribution gives to the listed regions together. */
  function Given(x: map<string, nat>, names: seq<string>): nat
    requires forall i :: 0 <= i < |names| ==> names[i] in x
  {
    if names == [] then 0 else x[names[0]] + Given(x, names[1..])
  }

  /** If every target but the best-off receives at least as much from `x` as from the allocator,
      and the best-off more, then `x` gives more in total. */
  lemma {:induction false} GivesMore(before: Infos, after: Infos, x: map<string, nat>, names: seq<string>, m: int)
    requires Listed(before, names) && Listed(after, names)
    requires forall i :: 0 <= i < |names| ==>
               && names[i] in x
               && x[names[i]] >= before[names[i]].room - after[names[i]].room
               && after[names[i]].planned - before[names[i]].planned
                  == before[names[i]].room - after[names[i]].room
               && (after[names[i]].room > m ==> x[names[i]] > before[names[i]].room - after[names[i]].room)
    ensures var moved := Sum(Planned, after, names) - Sum(Planned, before, names);
            && Given(x, names) >= moved
            && ((exists i :: 0 <= i < |names| && after[names[i]].room > m) ==> Given(x, names) > moved)
  {
    if names == [] {
    } else {
      GivesMore(before, after, x, names[1..], m);
      assert forall i :: 0 < i < |names| ==> names[i] == names[1..][i - 1];
    }
  }

  /** No other way to distribute the same replicas leaves a smaller largest room: whatever bound
      another distribution achieves on all targets, the allocator achieves too. */
  lemma GreedyOptimal(infos: Infos, targets: seq<string>, n: nat, x: map<string, nat>, m: int)
    requires Listed(infos, targets) && Greedy(infos, targets, n).ok
    requires forall i :: 0 <= i < |targets| ==> targets[i] in x && infos[targets[i]].room - x[targets[i]] <= m
    requires Given(x, targets) == n
    ensures forall i :: 0 <= i < |targets| ==> Greedy(infos, targets, n).infos[targets[i]].room <= m
  {
    var g := Greedy(infos, targets, n).infos;
    forall k | 0 <= k < |targets| ensures g[targets[k]].room <= m {
      if g[targets[k]].room > m {
        GreedyBalanced(infos, infos, targets, n);
        GreedyExact(infos, targets, n);
        forall i | 0 <= i < |targets|
          ensures x[targets[i]] >= infos[targets[i]].room - g[targets[i]].room
          ensures g[targets[i]].planned - infos[targets[i]].planned
                  == infos[targets[i]].room - g[targets[i]].room
        {
          GreedyPerRegion(infos, targets, n, targets[i]);
        }
        GivesMore(infos, g, x, targets, m);
      }
    }
  }
}
