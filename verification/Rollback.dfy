/** Rollback of a deployment to one of its stored revisions. */
module Rollback {
  import opened Basics
  import opened Revisions

  /** The rollback annotation; zero stands for the previous revision. */
  datatype Request = NoRequest | Unreadable | To(number: int)

  datatype Deployment = Deployment(spec: Spec, revs: seq<Revision>, request: Request)

  /** The newest stored revision with that number. */
  function Numbered(revs: seq<Revision>, number: int): (k: Option<nat>)
    ensures k.Some? ==> k.value < |revs| && revs[k.value].number == number
    ensures k.None? ==> forall i :: 0 <= i < |revs| ==> revs[i].number != number
  {
    if revs == [] then None
    else if revs[|revs| - 1].number == number then Some(|revs| - 1)
    else Numbered(revs[..|revs| - 1], number)
  }

  function Target(d: Deployment): (k: Option<nat>)
    requires d.request.To?
    ensures k.Some? ==> k.value < |d.revs|
  {
    if d.request.number != 0 then Numbered(d.revs, d.request.number)
    else if |d.revs| < 2 then None
    else Some(|d.revs| - 2)
  }

  predicate EqualIgnoreHash(a: Spec, b: Spec) {
    a.Unlabelled() == b.Unlabelled()
  }

  /** Handling of the annotation, and whether there was one. Rolling back to what the spec
      already says leaves everything alone, the annotation too. */
  function RolledBack(d: Deployment): (Deployment, bool) {
    match d.request
    case NoRequest => (d, false)
    case Unreadable => (d.(request := NoRequest), true)
    case To(_) =>
      match Target(d)
      case None => (d.(request := NoRequest), true)
      case Some(k) =>
        var spec := d.revs[k].spec;
        if EqualIgnoreHash(d.spec, spec) then (d, true)
        else (d.(spec := spec.Unlabelled(), request := NoRequest), true)
  }

  /** The start of a reconcile pass: a rollback request ends it, else revisions are synced. */
  function Reconciled(d: Deployment): Deployment {
    var (d', handled) := RolledBack(d);
    if handled then d' else d.(revs := Synced(d.revs, d.spec).0)
  }

  /** A deployment with its stored revisions. */
  class RollbackControl {
    var spec: Spec
    var request: Request
    const history: History

    function State(): Deployment reads this, history {
      Deployment(spec, history.revisions, request)
    }

    constructor (spec: Spec, request: Request, history: History)
      ensures this.spec == spec && this.request == request && this.history == history
    {
      this.spec, this.request, this.history := spec, request, history;
    }

    method CheckRollback() returns (handled: bool)
      modifies this
      ensures (State(), handled) == RolledBack(old(State()))
    {
      if request.NoRequest? {
        return false;
      }
      if request.Unreadable? {
        request := NoRequest;
        return true;
      }
      var target := FindTarget();
      if target.None? {
        request := NoRequest;
        return true;
      }
      var stored := history.revisions[target.value].spec;
      if !EqualIgnoreHash(spec, stored) {
        spec, request := stored.Unlabelled(), NoRequest;
      }
      return true;
    }

    method FindTarget() returns (target: Option<nat>)
      requires request.To?
      ensures target == Target(State())
    {
      var revs := history.revisions;
      if request.number == 0 {
        return if |revs| < 2 then None else Some(|revs| - 2);
      }
      target := None;
      for i := 0 to |revs|
        invariant target == Numbered(revs[..i], request.number)
      {
        assert revs[..i + 1][..i] == revs[..i];
        if revs[i].number == request.number {
          target := Some(i);
        }
      }
      assert revs[..|revs|] == revs;
    }

    method Reconcile()
      modifies this, history
      ensures State() == Reconciled(old(State()))
    {
      var handled := CheckRollback();
      if !handled {
        var _ := history.SyncRevisions(spec);
      }
    }
  }

  predicate Ready(d: Deployment) {
    Inv(d.revs) && UpToDate(d.revs, d.spec) && d.request.NoRequest?
  }

  predicate NoLabels(d: Deployment) {
    d.spec.hashLabel.None? && forall i :: 0 <= i < |d.revs| ==> d.revs[i].spec.hashLabel.None?
  }

  /** Rollback and sync: two reconcile passes after the request is written. */
  function RollbackThenSync(d: Deployment, number: int): Deployment {
    Reconciled(Reconciled(d.(request := To(number))))
  }

  /** Rolling back to a stored revision makes its spec current and newest, and adds no revision.
      The others keep their order. */
  lemma RollbackToStored(d: Deployment, k: nat)
    requires Ready(d) && NoLabels(d) && k < |d.revs| - 1 && d.revs[k].number != 0
    ensures var d' := RollbackThenSync(d, d.revs[k].number);
            && Ready(d') && NoLabels(d') && d'.spec == d.revs[k].spec
            && |d'.revs| == |d.revs|
            && d'.revs[..|d.revs| - 1] == d.revs[..k] + d.revs[k + 1..]
  {
    var n := d.revs[k].number;
    var i := Numbered(d.revs, n).value;
    assert i == k;
    var mid := Reconciled(d.(request := To(n)));
    assert mid == Deployment(d.revs[k].spec, d.revs, NoRequest);
    SyncKeepsInv(d.revs, mid.spec);
    SyncMoves(d.revs, k);
  }

  lemma SyncMoves(revs: seq<Revision>, k: nat)
    requires Inv(revs) && k < |revs| - 1
    ensures var revs' := Synced(revs, revs[k].spec).0;
            && |revs'| == |revs|
            && revs'[..|revs| - 1] == revs[..k] + revs[k + 1..]
            && revs'[|revs| - 1] == Revision(NextRevision(revs), revs[k].spec)
  {
    assert LastEqual(revs, revs[k].spec) == Some(k);
  }

  /** `d'` is `d` with the specs of the two newest revisions swapped. */
  predicate Swapped(d: Deployment, d': Deployment) {
    var n := |d.revs|;
    && n >= 2 && |d'.revs| == n && UpToDate(d'.revs, d'.spec)
    && d'.spec == d.revs[n - 2].spec && d'.revs[n - 2] == d.revs[n - 1]
    && d'.revs[..n - 2] == d.revs[..n - 2]
  }

  lemma SwappedTwice(d: Deployment, one: Deployment, two: Deployment)
    requires UpToDate(d.revs, d.spec) && Swapped(d, one) && Swapped(one, two)
    ensures two.spec == d.spec && |two.revs| == |d.revs|
    ensures forall i :: 0 <= i < |d.revs| ==> two.revs[i].spec == d.revs[i].spec
  {
    var n := |d.revs|;
    forall i | 0 <= i < n ensures two.revs[i].spec == d.revs[i].spec {
      if i < n - 2 {
        assert two.revs[i] == two.revs[..n - 2][i] == d.revs[..n - 2][i];
      }
    }
  }

  /** Rolling back to the previous revision. */
  lemma RollbackToPrevious(d: Deployment)
    requires Ready(d) && NoLabels(d) && |d.revs| >= 2
    ensures var d' := RollbackThenSync(d, 0);
            Ready(d') && NoLabels(d') && Swapped(d, d')
  {
    var k := |d.revs| - 2;
    var spec := d.revs[k].spec;
    var mid := Reconciled(d.(request := To(0)));
    assert mid == Deployment(spec, d.revs, NoRequest);
    SyncKeepsInv(d.revs, spec);
    SyncMoves(d.revs, k);
    assert RollbackThenSync(d, 0) == Deployment(spec, Synced(d.revs, spec).0, NoRequest);
    MovedIsSwapped(d, Synced(d.revs, spec).0);
  }

  lemma MovedIsSwapped(d: Deployment, revs: seq<Revision>)
    requires |d.revs| >= 2 && |revs| == |d.revs| && NoLabels(d)
    requires var k := |d.revs| - 2;
             && revs[..k + 1] == d.revs[..k] + d.revs[k + 1..]
             && revs[k + 1].spec == d.revs[k].spec && UpToDate(revs, d.revs[k].spec)
    ensures var d' := Deployment(d.revs[|d.revs| - 2].spec, revs, NoRequest);
            Swapped(d, d') && NoLabels(d')
  {
    var k := |d.revs| - 2;
    assert revs[..k + 1] == d.revs[..k] + [d.revs[k + 1]];
    assert revs[..k] == revs[..k + 1][..k];
    forall i | 0 <= i < |revs| ensures revs[i].spec.hashLabel.None? {
      if i < k {
        assert revs[i] == revs[..k][i] == d.revs[i];
      }
    }
  }

  /** Rolling back to the previous revision twice restores the spec and the stored specs. */
  lemma RollbackRoundTrip(d: Deployment)
    requires Ready(d) && NoLabels(d) && |d.revs| >= 2
    ensures var d' := RollbackThenSync(RollbackThenSync(d, 0), 0);
            && d'.spec == d.spec && |d'.revs| == |d.revs|
            && forall i :: 0 <= i < |d.revs| ==> d'.revs[i].spec == d.revs[i].spec
  {
    var one := RollbackThenSync(d, 0);
    RollbackToPrevious(d);
    RollbackToPrevious(one);
    SwappedTwice(d, one, RollbackThenSync(one, 0));
  }

  /** One pass clears a request, unless it names a stored revision that says what the spec
      already says. */
  lemma RequestCleared(d: Deployment)
    ensures Reconciled(d).request == NoRequest
       <==> !(d.request.To? && Target(d).Some? && EqualIgnoreHash(d.spec, d.revs[Target(d).value].spec))
  {
  }

  function Passes(d: Deployment, n: nat): Deployment
    decreases n
  {
    if n == 0 then d else Passes(Reconciled(d), n - 1)
  }

  /** Such a request is never cleared and stops every later pass before it does anything: not
      even the revisions are synced again. */
  lemma {:induction false} RequestBlocks(d: Deployment, n: nat)
    requires d.request.To? && Target(d).Some? && EqualIgnoreHash(d.spec, d.revs[Target(d).value].spec)
    ensures Passes(d, n) == d
    decreases n
  {
    if n == 0 {
    } else {
      RequestBlocks(d, n - 1);
    }
  }

  // ---------- one request, in full ----------

  /** A request to go back to a stored revision that differs from the spec makes its spec the current
      one, without the hash label, and touches no stored revision. */
  lemma RollsBackTo(d: Deployment, k: nat)
    requires d.request.To? && Target(d) == Some(k) && !EqualIgnoreHash(d.spec, d.revs[k].spec)
    ensures Reconciled(d) == Deployment(d.revs[k].spec.Unlabelled(), d.revs, NoRequest)
    ensures Reconciled(d).spec.hashLabel == None && Reconciled(d).spec.body == d.revs[k].spec.body
  {
  }

  /** A request that cannot be read or names nothing that is stored is cleared, and nothing else. */
  lemma NothingToGoBackTo(d: Deployment)
    requires d.request.Unreadable? || (d.request.To? && Target(d).None?)
    ensures Reconciled(d) == d.(request := NoRequest)
  {
  }

  /** A number names the revision that carries it; zero names the one before the newest. */
  lemma TargetExactly(d: Deployment, k: nat)
    requires d.request.To? && Inv(d.revs) && k < |d.revs|
    ensures d.request.number != 0 ==> (Target(d) == Some(k) <==> d.revs[k].number == d.request.number)
    ensures d.request.number == 0 ==> (Target(d) == Some(k) <==> k + 2 == |d.revs|)
  {
  }

  /** Two specs count as equal when they differ in nothing but the hash label. */
  lemma EqualButLabel(a: Spec, b: Spec)
    ensures EqualIgnoreHash(a, b) <==> a.body == b.body && a.historyLimit == b.historyLimit
  {
  }
}
