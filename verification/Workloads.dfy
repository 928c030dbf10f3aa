/** Replica counts of a region's workloads, as the API server holds them and as one
    controller pass sees them. */
module Workloads {
  import opened Basics

  /** A workload in the cluster: replicas asked for, and replicas reported available. */
  datatype Workload = Workload(spec: nat, avail: nat) {
    /** Pods that are available and that the spec still asks for. */
    function Capped(): nat {
      Min(spec, avail)
    }
  }

  /** What the API server holds for a workload the pass has listed. */
  datatype Stored = Gone | Held(replicas: nat)

  /** A listed workload: `view` is the in-memory copy of its replicas, which a write to the
      API server does not refresh. */
  datatype Subset = Subset(view: nat, avail: nat, stored: Stored) {
    predicate Fresh() {
      stored == Held(view)
    }

    /** Available replicas that the stored spec still asks for. */
    function Capped(): nat {
      if stored.Held? then Min(stored.replicas, avail) else 0
    }
  }

  function Observe(w: Workload): Subset {
    Subset(w.spec, w.avail, Held(w.spec))
  }

  function ObserveAll(ws: seq<Workload>): (ss: seq<Subset>)
    ensures |ss| == |ws|
    ensures forall i :: 0 <= i < |ws| ==> ss[i] == Observe(ws[i])
  {
    seq(|ws|, i requires 0 <= i < |ws| => Observe(ws[i]))
  }

  predicate AllFresh(ss: seq<Subset>) {
    forall i :: 0 <= i < |ss| ==> ss[i].Fresh()
  }

  /** The workloads the next listing returns. */
  function Persisted(ss: seq<Subset>): seq<Workload> {
    if ss == [] then []
    else if ss[0].stored.Gone? then Persisted(ss[1..])
    else [Workload(ss[0].stored.replicas, ss[0].avail)] + Persisted(ss[1..])
  }

  function SpecTotal(ws: seq<Workload>): nat {
    if ws == [] then 0 else ws[0].spec + SpecTotal(ws[1..])
  }

  function CappedTotal(ws: seq<Workload>): nat {
    if ws == [] then 0 else ws[0].Capped() + CappedTotal(ws[1..])
  }

  /** Sum of the in-memory replica counts, whatever the API server holds. */
  function ViewTotal(ss: seq<Subset>): nat {
    if ss == [] then 0 else ss[0].view + ViewTotal(ss[1..])
  }

  /** Sum of the in-memory replica counts of the subsets that were not deleted. */
  function LiveTotal(ss: seq<Subset>): nat {
    if ss == [] then 0
    else (if ss[0].stored.Held? then ss[0].view else 0) + LiveTotal(ss[1..])
  }

  /** Replicas the API server holds. */
  function StoredTotal(ss: seq<Subset>): nat {
    if ss == [] then 0
    else (if ss[0].stored.Held? then ss[0].stored.replicas else 0) + StoredTotal(ss[1..])
  }

  /** Available replicas the API server still asks for. */
  function ServingTotal(ss: seq<Subset>): nat {
    if ss == [] then 0 else ss[0].Capped() + ServingTotal(ss[1..])
  }

  lemma {:induction false} PersistedTotals(ss: seq<Subset>)
    ensures CappedTotal(Persisted(ss)) == ServingTotal(ss)
    ensures SpecTotal(Persisted(ss)) == StoredTotal(ss)
  {
    if ss == [] {
    } else {
      PersistedTotals(ss[1..]);
      if ss[0].stored.Held? {
        assert Persisted(ss)[1..] == Persisted(ss[1..]);
      }
    }
  }

  lemma {:induction false} ObservedTotals(ws: seq<Workload>)
    ensures AllFresh(ObserveAll(ws))
    ensures ServingTotal(ObserveAll(ws)) == CappedTotal(ws)
    ensures StoredTotal(ObserveAll(ws)) == SpecTotal(ws)
    ensures ViewTotal(ObserveAll(ws)) == SpecTotal(ws)
    ensures Persisted(ObserveAll(ws)) == ws
  {
    if ws == [] {
    } else {
      ObservedTotals(ws[1..]);
      assert ObserveAll(ws)[1..] == ObserveAll(ws[1..]);
    }
  }

  lemma {:induction false} FreshTotals(ss: seq<Subset>)
    requires AllFresh(ss)
    ensures LiveTotal(ss) == ViewTotal(ss) == StoredTotal(ss)
  {
    if ss == [] {
    } else {
      FreshTotals(ss[1..]);
    }
  }

  lemma {:induction false} CappedConcat(xs: seq<Workload>, ys: seq<Workload>)
    ensures CappedTotal(xs + ys) == CappedTotal(xs) + CappedTotal(ys)
  {
    if xs == [] {
      assert xs + ys == ys;
    } else {
      CappedConcat(xs[1..], ys);
      assert (xs + ys)[1..] == xs[1..] + ys;
    }
  }

  /** Taking one workload out of the list takes exactly its available replicas out of the total. */
  lemma CappedRemove(ws: seq<Workload>, k: nat)
    requires k < |ws|
    ensures CappedTotal(ws) == ws[k].Capped() + CappedTotal(ws[..k] + ws[k + 1..])
  {
    CappedConcat(ws[..k], ws[k..]);
    CappedConcat(ws[..k], ws[k + 1..]);
    assert ws == ws[..k] + ws[k..];
  }

  lemma {:induction false} SpecConcat(xs: seq<Workload>, ys: seq<Workload>)
    ensures SpecTotal(xs + ys) == SpecTotal(xs) + SpecTotal(ys)
  {
    if xs == [] {
      assert xs + ys == ys;
    } else {
      SpecConcat(xs[1..], ys);
      assert (xs + ys)[1..] == xs[1..] + ys;
    }
  }

  lemma SpecRemove(ws: seq<Workload>, k: nat)
    requires k < |ws|
    ensures SpecTotal(ws[..k] + ws[k + 1..]) + ws[k].spec == SpecTotal(ws)
  {
    SpecConcat(ws[..k], ws[k + 1..]);
    SpecConcat(ws[..k], ws[k..]);
    assert ws == ws[..k] + ws[k..];
  }
}
