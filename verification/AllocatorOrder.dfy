/** The regions an allocation may use come in no particular order. What the order decides is only
    who gets a replica on a tie. */
module AllocatorOrder {
  import opened Names
  import opened Allocator

  function Rooms(infos: Infos): map<string, int> {
    map n | n in infos :: infos[n].room
  }

  /** The rooms of the targets. */
  ghost function RoomsOf(infos: Infos, targets: seq<string>): multiset<int>
    requires forall i :: 0 <= i < |targets| ==> targets[i] in infos
  {
    if targets == [] then multiset{} else multiset{infos[targets[0]].room} + RoomsOf(infos, targets[1..])
  }

  lemma {:induction false} RoomsAreValues(infos: Infos, targets: seq<string>)
    requires forall i :: 0 <= i < |targets| ==> targets[i] in infos
    ensures RoomsOf(infos, targets) == Values(Rooms(infos), targets)
  {
    if targets == [] {
    } else {
      RoomsAreValues(infos, targets[1..]);
    }
  }

  lemma RoomsHold(infos: Infos, targets: seq<string>, v: int)
    requires forall i :: 0 <= i < |targets| ==> targets[i] in infos
    ensures v in RoomsOf(infos, targets) <==> exists i :: 0 <= i < |targets| && infos[targets[i]].room == v
    ensures |RoomsOf(infos, targets)| == |targets|
  {
    RoomsAreValues(infos, targets);
    ValuesHold(Rooms(infos), targets, v);
    ValuesSize(Rooms(infos), targets);
  }

  lemma PlaceRooms(infos: Infos, b: string)
    requires b in infos
    ensures Rooms(Place(infos, b)) == Rooms(infos)[b := infos[b].room - 1]
  {
  }

  /** The best room is the largest. */
  lemma BestRoom(infos: Infos, targets: seq<string>)
    requires Listed(infos, targets) && targets != []
    ensures var m := infos[Best(infos, targets)].room;
            m in RoomsOf(infos, targets) && forall v :: v in RoomsOf(infos, targets) ==> v <= m
  {
    var b := Best(infos, targets);
    RoomsHold(infos, targets, infos[b].room);
    forall v | v in RoomsOf(infos, targets) ensures v <= infos[b].room {
      RoomsHold(infos, targets, v);
    }
  }

  lemma PlaceValues(infos: Infos, targets: seq<string>, b: string)
    requires Listed(infos, targets) && b in targets && b in infos
    ensures RoomsOf(Place(infos, b), targets) + multiset{infos[b].room}
         == RoomsOf(infos, targets) + multiset{infos[b].room - 1}
  {
    RoomsAreValues(infos, targets);
    RoomsAreValues(Place(infos, b), targets);
    var k :| 0 <= k < |targets| && targets[k] == b;
    PlaceRooms(infos, b);
    ValuesUpdate(Rooms(infos), targets, k, infos[b].room - 1);
  }

  /** Two lists of targets with the same rooms, wherever these are. */
  ghost predicate Alike(a: Infos, xs: seq<string>, b: Infos, ys: seq<string>) {
    Listed(a, xs) && Listed(b, ys) && RoomsOf(a, xs) == RoomsOf(b, ys)
  }

  /** Their best rooms are equal. */
  lemma BestAlike(a: Infos, xs: seq<string>, b: Infos, ys: seq<string>)
    requires Alike(a, xs, b, ys) && xs != [] && ys != []
    ensures a[Best(a, xs)].room == b[Best(b, ys)].room
  {
    BestRoom(a, xs);
    BestRoom(b, ys);
  }

  /** And they stay alike when a replica is placed in equal rooms. */
  lemma PlacedAlike(a: Infos, xs: seq<string>, p: string, b: Infos, ys: seq<string>, q: string)
    requires Alike(a, xs, b, ys) && p in xs && p in a && q in ys && q in b && a[p].room == b[q].room
    ensures Alike(Place(a, p), xs, Place(b, q), ys)
  {
    PlaceValues(a, xs, p);
    PlaceValues(b, ys, q);
    Cancel(RoomsOf(Place(a, p), xs), RoomsOf(Place(b, q), ys), a[p].room);
  }

  lemma EmptyAlike(a: Infos, xs: seq<string>, b: Infos, ys: seq<string>)
    requires Alike(a, xs, b, ys)
    ensures xs == [] <==> ys == []
  {
    RoomsHold(a, xs, 0);
    RoomsHold(b, ys, 0);
  }

  lemma Cancel(a: multiset<int>, b: multiset<int>, v: int)
    requires a + multiset{v} == b + multiset{v}
    ensures a == b
  {
    forall x ensures a[x] == b[x] {
      assert (a + multiset{v})[x] == (b + multiset{v})[x];
    }
  }

  /** What one more replica makes of two lists that are alike. */
  lemma StepAlike(a: Infos, xs: seq<string>, b: Infos, ys: seq<string>)
    requires Alike(a, xs, b, ys) && xs != [] && ys != []
    ensures var p, q := Best(a, xs), Best(b, ys);
            a[p].room == b[q].room && Alike(Place(a, p), xs, Place(b, q), ys)
  {
    BestAlike(a, xs, b, ys);
    PlacedAlike(a, xs, Best(a, xs), b, ys, Best(b, ys));
  }

  /** Allocations that start with the same rooms, wherever these are, end with the same rooms. */
  lemma {:induction false} SameRooms(a: Infos, xs: seq<string>, b: Infos, ys: seq<string>, n: nat)
    requires Alike(a, xs, b, ys)
    ensures Greedy(a, xs, n).ok == Greedy(b, ys, n).ok
    ensures Alike(Greedy(a, xs, n).infos, xs, Greedy(b, ys, n).infos, ys)
    decreases n
  {
    EmptyAlike(a, xs, b, ys);
    if n == 0 || xs == [] {
    } else {
      StepAlike(a, xs, b, ys);
      if a[Best(a, xs)].room > 0 {
        SameRooms(Place(a, Best(a, xs)), xs, Place(b, Best(b, ys)), ys, n - 1);
      }
    }
  }

  lemma ReorderedAlike(infos: Infos, xs: seq<string>, ys: seq<string>)
    requires Listed(infos, xs) && Listed(infos, ys) && SameNames(xs, ys)
    ensures Alike(infos, xs, infos, ys)
  {
    RoomsAreValues(infos, xs);
    RoomsAreValues(infos, ys);
    Reorder(Rooms(infos), xs, ys);
  }

  /** One region's room, after allocations over the same targets in two orders. */
  lemma RoomsWithinOne(infos: Infos, xs: seq<string>, ys: seq<string>, n: nat, r: string)
    requires Listed(infos, xs) && Listed(infos, ys) && SameNames(xs, ys) && r in xs && r in infos
    ensures Greedy(infos, ys, n).infos[r].room - Greedy(infos, xs, n).infos[r].room <= 1
  {
    var g, h := Greedy(infos, xs, n).infos, Greedy(infos, ys, n).infos;
    GreedyPerRegion(infos, xs, n, r);
    GreedyPerRegion(infos, ys, n, r);
    if g[r].room < infos[r].room {
      ReorderedAlike(infos, xs, ys);
      SameRooms(infos, xs, infos, ys, n);
      assert r in ys;
      RoomsHold(h, ys, h[r].room);
      RoomsHold(g, xs, h[r].room);
      var j :| 0 <= j < |xs| && g[xs[j]].room == h[r].room;
      GreedyBalanced(infos, infos, xs, n);
      var i :| 0 <= i < |xs| && xs[i] == r;
      assert g[xs[i]].room >= g[xs[j]].room - 1;
    }
  }

  /** Two orders of the same targets: the allocation succeeds in both or in neither, leaves the same
      rooms, and plans for each region the same number of replicas give or take one. */
  lemma TargetOrder(infos: Infos, xs: seq<string>, ys: seq<string>, n: nat)
    requires Listed(infos, xs) && Listed(infos, ys) && SameNames(xs, ys)
    ensures var g, h := Greedy(infos, xs, n), Greedy(infos, ys, n);
            && g.ok == h.ok && RoomsOf(g.infos, xs) == RoomsOf(h.infos, ys)
            && forall r :: r in infos ==> -1 <= g.infos[r].planned - h.infos[r].planned <= 1
  {
    ReorderedAlike(infos, xs, ys);
    SameRooms(infos, xs, infos, ys, n);
    forall r | r in infos
      ensures -1 <= Greedy(infos, xs, n).infos[r].planned - Greedy(infos, ys, n).infos[r].planned <= 1
    {
      GreedyPerRegion(infos, xs, n, r);
      GreedyPerRegion(infos, ys, n, r);
      if r in xs {
        RoomsWithinOne(infos, xs, ys, n, r);
        RoomsWithinOne(infos, ys, xs, n, r);
      }
    }
  }
}
