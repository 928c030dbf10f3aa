/** The stored revisions of an ExtendedDeployment: synchronisation with the current spec
    and truncation. */
module Revisions {
  import opened Basics

  /** A deployment spec: everything it says, except the template's hash label and the number of
      old revisions to keep, which are held apart. */
  datatype Spec = Spec(body: string, hashLabel: Option<string>, historyLimit: nat) {
    function Unlabelled(): Spec {
      this.(hashLabel := None)
    }
  }

  /** Stored revisions are listed in the order of their numbers. */
  datatype Revision = Revision(number: int, spec: Spec)

  function NextRevision(revs: seq<Revision>): int {
    if revs == [] then 1 else revs[|revs| - 1].number + 1
  }

  /** The newest stored revision of that very spec. */
  function LastEqual(revs: seq<Revision>, spec: Spec): (k: Option<nat>)
    ensures k.Some? ==> k.value < |revs| && revs[k.value].spec == spec
    ensures k.Some? ==> forall i :: k.value < i < |revs| ==> revs[i].spec != spec
    ensures k.None? ==> forall i :: 0 <= i < |revs| ==> revs[i].spec != spec
  {
    if revs == [] then None
    else if revs[|revs| - 1].spec == spec then Some(|revs| - 1)
    else LastEqual(revs[..|revs| - 1], spec)
  }

  function Truncated(revs: seq<Revision>, limit: nat): seq<Revision> {
    if |revs| <= limit then revs else revs[|revs| - limit - 1..]
  }

  /** The stored revisions after a sync, and whether it changed them. A spec that was stored
      before gets its old revision renumbered. */
  function Synced(revs: seq<Revision>, spec: Spec): (seq<Revision>, bool) {
    var latest := Revision(NextRevision(revs), spec);
    match LastEqual(revs, spec)
    case Some(k) =>
      if k == |revs| - 1 then (revs, false) else (revs[..k] + revs[k + 1..] + [latest], true)
    case None => (Truncated(revs + [latest], spec.historyLimit), true)
  }

  class History {
    var revisions: seq<Revision>

    constructor ()
      ensures revisions == []
    {
      revisions := [];
    }

    method SyncRevisions(spec: Spec) returns (changed: bool)
      modifies this
      ensures (revisions, changed) == Synced(old(revisions), spec)
    {
      var number, i := NextRevision(revisions), |revisions|;
      while i > 0
        invariant 0 <= i <= |revisions| && revisions == old(revisions)
        invariant LastEqual(revisions, spec) == LastEqual(revisions[..i], spec)
      {
        assert revisions[..i][..i - 1] == revisions[..i - 1];
        i := i - 1;
        if revisions[i].spec == spec {
          if i == |revisions| - 1 {
            return false;
          }
          revisions := revisions[..i] + revisions[i + 1..] + [Revision(number, spec)];
          return true;
        }
      }
      revisions := revisions + [Revision(number, spec)];
      TruncateHistory(spec.historyLimit);
      return true;
    }

    method TruncateHistory(limit: nat)
      modifies this
      ensures revisions == Truncated(old(revisions), limit)
    {
      if |revisions| <= limit {
        return;
      }
      var excess, i := |revisions| - limit - 1, 0;
      while i < excess
        invariant 0 <= i <= excess && revisions == old(revisions)[i..]
      {
        revisions := revisions[1..];
        i := i + 1;
      }
    }
  }

  // ---------- what every sync keeps ----------

  /** Numbers increase, and no spec is stored twice. */
  predicate Inv(revs: seq<Revision>) {
    && (forall i, j :: 0 <= i < j < |revs| ==> revs[i].number < revs[j].number)
    && (forall i, j :: 0 <= i < j < |revs| ==> revs[i].spec != revs[j].spec)
  }

  predicate UpToDate(revs: seq<Revision>, spec: Spec) {
    revs != [] && revs[|revs| - 1].spec == spec
  }

  lemma AppendKeepsInv(revs: seq<Revision>, spec: Spec)
    requires Inv(revs) && forall i :: 0 <= i < |revs| ==> revs[i].spec != spec
    ensures Inv(revs + [Revision(NextRevision(revs), spec)])
  {
    var revs' := revs + [Revision(NextRevision(revs), spec)];
    assert forall i :: 0 <= i < |revs| ==> revs'[i] == revs[i];
  }

  lemma SliceKeepsInv(revs: seq<Revision>, d: nat)
    requires Inv(revs) && d <= |revs|
    ensures Inv(revs[d..])
  {
  }

  lemma TakeOutKeepsInv(revs: seq<Revision>, k: nat)
    requires Inv(revs) && k < |revs| - 1
    ensures var rest := revs[..k] + revs[k + 1..];
            && Inv(rest) && NextRevision(rest) == NextRevision(revs)
            && forall i :: 0 <= i < |rest| ==> rest[i].spec != revs[k].spec
  {
    var rest := revs[..k] + revs[k + 1..];
    assert forall i :: 0 <= i < |rest| ==> rest[i] == revs[if i < k then i else i + 1];
  }

  lemma SyncKeepsInv(revs: seq<Revision>, spec: Spec)
    requires Inv(revs)
    ensures Inv(Synced(revs, spec).0) && UpToDate(Synced(revs, spec).0, spec)
  {
    match LastEqual(revs, spec)
    case Some(k) =>
      if k < |revs| - 1 {
        TakeOutKeepsInv(revs, k);
        AppendKeepsInv(revs[..k] + revs[k + 1..], spec);
      }
    case None =>
      var all := revs + [Revision(NextRevision(revs), spec)];
      AppendKeepsInv(revs, spec);
      if |all| > spec.historyLimit {
        SliceKeepsInv(all, |all| - spec.historyLimit - 1);
      }
  }

  predicate Stores(revs: seq<Revision>, spec: Spec) {
    exists i :: 0 <= i < |revs| && revs[i].spec == spec
  }

  /** A sync changes something exactly when the newest revision is not the current spec. A spec
      that is not stored is appended, and only that drops revisions: from the oldest on, and
      down to the limit and one more. */
  lemma SyncDrops(revs: seq<Revision>, spec: Spec)
    requires Inv(revs)
    ensures Synced(revs, spec).1 <==> !UpToDate(revs, spec)
    ensures Stores(revs, spec) ==> |Synced(revs, spec).0| == |revs|
    ensures !Stores(revs, spec) ==>
              var revs' := Synced(revs, spec).0;
              && |revs'| <= spec.historyLimit + 1
              && |revs'| <= |revs| + 1
              && revs' == (revs + [Revision(NextRevision(revs), spec)])[|revs| + 1 - |revs'|..]
              && (|revs'| < |revs| + 1 ==> |revs'| == spec.historyLimit + 1)
  {
  }

  /** A sync with a stored spec only moves it: the same specs stay stored. */
  lemma SyncMovesOnly(revs: seq<Revision>, spec: Spec, other: Spec)
    requires Inv(revs) && Stores(revs, spec)
    ensures Stores(Synced(revs, spec).0, other) <==> Stores(revs, other)
  {
    var k := LastEqual(revs, spec).value;
    if k < |revs| - 1 {
      var revs' := Synced(revs, spec).0;
      assert revs'[|revs| - 1].spec == revs[k].spec;
      forall i | 0 <= i < |revs| - 1 ensures revs'[i] == revs[if i < k then i else i + 1] {
      }
      if Stores(revs, other) {
        var i :| 0 <= i < |revs| && revs[i].spec == other;
        assert revs'[if i < k then i else if i == k then |revs| - 1 else i - 1].spec == other;
      }
    }
  }

  // ---------- runs of edits and syncs ----------

  datatype Step = Edit(spec: Spec) | Sync

  datatype State = State(spec: Spec, revs: seq<Revision>)

  function Apply(s: State, step: Step): State {
    match step
    case Edit(spec) => s.(spec := spec)
    case Sync => s.(revs := Synced(s.revs, s.spec).0)
  }

  function Run(s: State, steps: seq<Step>): State
    decreases |steps|
  {
    if steps == [] then s else Run(Apply(s, steps[0]), steps[1..])
  }

  /** Over any run the stored revisions keep distinct numbers and distinct specs; with a fixed
      limit at most one more than the limit is stored; and after a sync the newest one is the
      current spec. */
  lemma {:induction false} HistoryOverRuns(s: State, steps: seq<Step>, limit: nat)
    requires Inv(s.revs) && s.spec.historyLimit == limit && |s.revs| <= limit + 1
    requires forall i :: 0 <= i < |steps| ==> (steps[i].Edit? ==> steps[i].spec.historyLimit == limit)
    ensures var r := Run(s, steps);
            && Inv(r.revs) && |r.revs| <= limit + 1
            && (steps != [] && steps[|steps| - 1].Sync? ==> UpToDate(r.revs, r.spec))
    decreases |steps|
  {
    if steps == [] {
    } else {
      SyncKeepsInv(s.revs, s.spec);
      SyncDrops(s.revs, s.spec);
      HistoryOverRuns(Apply(s, steps[0]), steps[1..], limit);
    }
  }

  // ---------- numbers ----------

  /** Syncs of a run that change the stored revisions. */
  function Changes(s: State, steps: seq<Step>): nat
    decreases |steps|
  {
    if steps == [] then 0
    else (if steps[0].Sync? && !UpToDate(s.revs, s.spec) then 1 else 0) + Changes(Apply(s, steps[0]), steps[1..])
  }

  function LastNumber(revs: seq<Revision>): int {
    if revs == [] then 0 else revs[|revs| - 1].number
  }

  lemma SyncNumber(revs: seq<Revision>, spec: Spec)
    requires Inv(revs)
    ensures LastNumber(Synced(revs, spec).0) == LastNumber(revs) + if UpToDate(revs, spec) then 0 else 1
  {
    SyncKeepsInv(revs, spec);
    SyncDrops(revs, spec);
  }

  /** Revisions are numbered one after the other: the newest number has grown by as many as there
      were changes. */
  lemma {:induction false} NumberOverRuns(s: State, steps: seq<Step>)
    requires Inv(s.revs)
    ensures LastNumber(Run(s, steps).revs) == LastNumber(s.revs) + Changes(s, steps)
    decreases |steps|
  {
    if steps == [] {
    } else {
      if steps[0].Sync? {
        SyncNumber(s.revs, s.spec);
        SyncKeepsInv(s.revs, s.spec);
      }
      NumberOverRuns(Apply(s, steps[0]), steps[1..]);
    }
  }
}
