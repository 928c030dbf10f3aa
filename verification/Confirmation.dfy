/** Waiting for confirmation: between two steps of a rollout the user must write "true" into an
    annotation, which the controller consumes. */
module Confirmation {
  import opened Basics
  import opened Revisions

  /** The annotation. The controller itself only ever writes "false". */
  datatype Confirm = Missing | Yes | No(text: string)

  datatype Settings = Settings(needWaiting: bool, needFirst: bool)

  datatype Term = TermInit | TermReady | TermNotReady

  /** What a reconcile pass finds out about the regions and the deployment's condition. */
  datatype Findings = Findings(saturated: bool, term: Term, progressing: bool)

  /** Whether the pass must wait, and the annotation it leaves. */
  function CheckUpgradeConfirm(c: Settings, confirm: Confirm): (bool, Confirm) {
    if !c.needWaiting then (false, Missing)
    else match confirm
      case Missing => (true, No("false"))
      case No(_) => (true, confirm)
      case Yes => (false, if c.needFirst then Yes else Missing)
  }

  datatype Rollout = Rollout(spec: Spec, revs: seq<Revision>, confirm: Confirm)

  /** A pass, and whether it went on to manage the subsets. Changed revisions end the pass and
      take the annotation away; so does a saturated deployment. */
  function Pass(c: Settings, d: Rollout, f: Findings): (Rollout, bool) {
    var (revs, changed) := Synced(d.revs, d.spec);
    if changed then (d.(revs := revs, confirm := Missing), false)
    else if f.saturated then (d.(confirm := Missing), false)
    else match f.term
      case TermInit => (d, true)
      case TermNotReady => (d, false)
      case TermReady =>
        if !f.progressing then (d, true)
        else
          var (wait, confirm) := CheckUpgradeConfirm(c, d.confirm);
          (d.(confirm := confirm), !wait)
  }

  class Reconciler {
    const settings: Settings
    const history: History
    var spec: Spec
    var confirm: Confirm

    function State(): Rollout reads this, history {
      Rollout(spec, history.revisions, confirm)
    }

    constructor (settings: Settings, history: History, spec: Spec, confirm: Confirm)
      ensures this.settings == settings && this.history == history
      ensures this.spec == spec && this.confirm == confirm
    {
      this.settings, this.history, this.spec, this.confirm := settings, history, spec, confirm;
    }

    method CheckConfirm() returns (wait: bool)
      modifies this`confirm
      ensures (wait, confirm) == CheckUpgradeConfirm(settings, old(confirm))
    {
      if settings.needWaiting {
        if confirm.Missing? {
          confirm := No("false");
          return true;
        }
        if confirm != Yes {
          return true;
        }
        if settings.needFirst {
          return false;
        }
      }
      confirm := Missing;
      return false;
    }

    method Reconcile(f: Findings) returns (managed: bool)
      modifies this, history
      ensures (State(), managed) == Pass(settings, old(State()), f)
    {
      var changed := history.SyncRevisions(spec);
      if changed || f.saturated {
        confirm := Missing;
        return false;
      }
      if f.term == TermReady {
        if f.progressing {
          var wait := CheckConfirm();
          return !wait;
        }
      } else if f.term == TermNotReady {
        return false;
      }
      return true;
    }
  }

  // ---------- runs ----------

  /** What the user and the controller do. */
  datatype Event =
    | Write(confirm: Confirm)
    | Respec(spec: Spec)
    | Reconcile(findings: Findings)

  /** The deployment, with an account of its run: how often "true" was written, how many steps
      needed a confirmation and got one, and what was there when "true" was last written: the
      newest stored revision, and the spec. */
  datatype Account = Account(
    d: Rollout,
    written: nat,
    steps: nat,
    writtenAt: Option<Revision>,
    writtenUnder: Option<Spec>)

  function Newest(revs: seq<Revision>): Option<Revision> {
    if revs == [] then None else Some(revs[|revs| - 1])
  }

  /** The pass is one that a confirmation has to authorise. */
  predicate NeedsConfirmation(d: Rollout, f: Findings) {
    !Synced(d.revs, d.spec).1 && !f.saturated && f.term == TermReady && f.progressing
  }

  predicate ConfirmedStep(c: Settings, a: Account, e: Event) {
    e.Reconcile? && NeedsConfirmation(a.d, e.findings) && Pass(c, a.d, e.findings).1
  }

  function Apply(c: Settings, a: Account, e: Event): Account {
    match e
    case Write(confirm) =>
      if confirm.Yes? then Account(a.d.(confirm := Yes), a.written + 1, a.steps, Newest(a.d.revs), Some(a.d.spec))
      else a.(d := a.d.(confirm := confirm))
    case Respec(spec) => a.(d := a.d.(spec := spec))
    case Reconcile(f) =>
      a.(d := Pass(c, a.d, f).0, steps := if ConfirmedStep(c, a, e) then a.steps + 1 else a.steps)
  }

  function Run(c: Settings, a: Account, events: seq<Event>): Account
    decreases |events|
  {
    if events == [] then a else Run(c, Apply(c, a, events[0]), events[1..])
  }

  /** A standing "true" has not been used, and was written when the newest stored revision was
      the one that is newest now. */
  predicate Inv(c: Settings, a: Account) {
    && Revisions.Inv(a.d.revs)
    && (c.needWaiting && !c.needFirst ==> a.steps + (if a.d.confirm.Yes? then 1 else 0) <= a.written)
    && (a.d.confirm.Yes? ==> a.writtenAt == Newest(a.d.revs) && a.writtenUnder.Some?)
  }

  /** What a pass leaves of a standing "true": a pass that stores a revision takes it away, and one
      that acts on it uses it up. */
  lemma PassUsesConfirmation(c: Settings, d: Rollout, f: Findings)
    ensures var (d', managed) := Pass(c, d, f);
            && d'.revs == Synced(d.revs, d.spec).0
            && (d'.confirm.Yes? ==> d.confirm.Yes? && d'.revs == d.revs)
            && (c.needWaiting && managed && NeedsConfirmation(d, f) ==>
                  d.confirm.Yes? && (d'.confirm.Yes? <==> c.needFirst))
  {
  }

  lemma ApplyKeepsInv(c: Settings, a: Account, e: Event)
    requires Inv(c, a)
    ensures Inv(c, Apply(c, a, e))
  {
    if e.Reconcile? {
      SyncKeepsInv(a.d.revs, a.d.spec);
      PassUsesConfirmation(c, a.d, e.findings);
    }
  }

  lemma {:induction false} RunKeepsInv(c: Settings, a: Account, events: seq<Event>)
    requires Inv(c, a)
    ensures Inv(c, Run(c, a, events))
    decreases |events|
  {
    if events == [] {
    } else {
      ApplyKeepsInv(c, a, events[0]);
      RunKeepsInv(c, Apply(c, a, events[0]), events[1..]);
    }
  }

  /** A deployment nobody has confirmed yet. */
  function Begin(spec: Spec): Account {
    Account(Rollout(spec, [], Missing), 0, 0, None, None)
  }

  /** In any run there are at most as many confirmed steps as the user wrote "true". */
  lemma StepsAtMostConfirmations(c: Settings, spec: Spec, events: seq<Event>)
    requires c.needWaiting && !c.needFirst
    ensures var a := Run(c, Begin(spec), events);
            a.steps <= a.written
  {
    RunKeepsInv(c, Begin(spec), events);
  }

  /** A confirmed step rolls out the revision that was the newest stored one when "true" was
      written: a confirmation given before a new revision was stored never authorises it. */
  lemma StepOfItsOwnRevision(c: Settings, spec: Spec, events: seq<Event>, e: Event)
    requires c.needWaiting && ConfirmedStep(c, Run(c, Begin(spec), events), e)
    ensures var a := Run(c, Begin(spec), events);
            && a.d.confirm == Yes
            && a.writtenAt.Some? && a.writtenAt == Newest(a.d.revs) && a.writtenAt.value.spec == a.d.spec
            && a.writtenUnder.Some?
  {
    var a := Run(c, Begin(spec), events);
    RunKeepsInv(c, Begin(spec), events);
    SyncDrops(a.d.revs, a.d.spec);
  }

  /** Over all runs: a confirmed step rolls out the spec that "true" was written under exactly when,
      at that moment, the spec was the newest stored revision's. The user can look before writing. */
  lemma StepOfItsOwnSpec(c: Settings, spec: Spec, events: seq<Event>, e: Event)
    requires c.needWaiting && ConfirmedStep(c, Run(c, Begin(spec), events), e)
    ensures var a := Run(c, Begin(spec), events);
            && a.writtenUnder.Some? && a.writtenAt.Some?
            && (a.d.spec == a.writtenUnder.value <==> a.writtenAt.value.spec == a.writtenUnder.value)
  {
    StepOfItsOwnRevision(c, spec, events, e);
  }

  /** The account is right: what it says of the last "true" is what stood at that event. */
  lemma {:induction false} WrittenIsRecorded(c: Settings, a: Account, events: seq<Event>, i: nat)
    requires i < |events| && events[i] == Write(Yes)
    requires forall k :: i < k < |events| ==> events[k] != Write(Yes)
    ensures var before, after := Run(c, a, events[..i]), Run(c, a, events);
            && after.writtenUnder == Some(before.d.spec)
            && after.writtenAt == Newest(before.d.revs)
    decreases |events|
  {
    var next, rest := Apply(c, a, events[0]), events[1..];
    if i == 0 {
      NoMoreWrites(c, next, rest);
      assert events[..0] == [];
    } else {
      assert events[..i][0] == events[0] && events[..i][1..] == rest[..i - 1];
      WrittenIsRecorded(c, next, rest, i - 1);
    }
  }

  lemma {:induction false} NoMoreWrites(c: Settings, a: Account, events: seq<Event>)
    requires forall k :: 0 <= k < |events| ==> events[k] != Write(Yes)
    ensures var after := Run(c, a, events);
            after.writtenUnder == a.writtenUnder && after.writtenAt == a.writtenAt
    decreases |events|
  {
    if events == [] {
    } else {
      NoMoreWrites(c, Apply(c, a, events[0]), events[1..]);
    }
  }

  lemma RunFour(c: Settings, a: Account, e1: Event, e2: Event, e3: Event, e4: Event)
    ensures Run(c, a, [e1, e2, e3, e4]) == Apply(c, Apply(c, Apply(c, Apply(c, a, e1), e2), e3), e4)
  {
    var a1 := Apply(c, a, e1);
    var a2 := Apply(c, a1, e2);
    var a3 := Apply(c, a2, e3);
    assert [e1, e2, e3, e4][1..] == [e2, e3, e4] && [e2, e3, e4][1..] == [e3, e4] && [e3, e4][1..] == [e4];
    assert Run(c, a3, [e4]) == Apply(c, a3, e4);
    assert Run(c, a2, [e3, e4]) == Run(c, a3, [e4]);
    assert Run(c, a1, [e2, e3, e4]) == Run(c, a2, [e3, e4]);
  }

  lemma FirstSync(c: Settings, spec: Spec, f: Findings)
    ensures Apply(c, Begin(spec), Reconcile(f)).d == Rollout(spec, [Revision(1, spec)], Missing)
  {
    var one := [Revision(1, spec)];
    assert LastEqual([], spec) == None;
    assert [] + one == one && one[0..] == one;
    assert Synced([], spec) == (one, true);
  }

  lemma SecondSync(spec: Spec)
    ensures Synced([Revision(1, spec)], spec) == ([Revision(1, spec)], false)
  {
    assert [Revision(1, spec)][0].spec == spec;
  }

  /** The spec may have read differently when "true" was written: an edit that is taken back before
      the next pass is never stored, and what was confirmed under it stands. */
  lemma ConfirmedUnderAnotherSpec(c: Settings, first: Spec, other: Spec)
    requires c.needWaiting && first != other
    ensures var go := Reconcile(Findings(false, TermReady, true));
            var events := [go, Respec(other), Write(Yes), Respec(first)];
            ConfirmedStep(c, Run(c, Begin(first), events), go)
  {
    var f := Findings(false, TermReady, true);
    FirstSync(c, first, f);
    SecondSync(first);
    RunFour(c, Begin(first), Reconcile(f), Respec(other), Write(Yes), Respec(first));
  }

  // ---------- the gates, in full ----------

  /** A pass manages the subsets exactly when the revisions are up to date, the deployment is not
      saturated, and either some region has no new workload yet, or all are ready and nothing
      is progressing, no confirmation is needed, or one stands. */
  lemma ManagedExactly(c: Settings, d: Rollout, f: Findings)
    requires Revisions.Inv(d.revs)
    ensures Pass(c, d, f).1
       <==> UpToDate(d.revs, d.spec) && !f.saturated
            && (f.term == TermInit
                || (f.term == TermReady && (!f.progressing || !c.needWaiting || d.confirm == Yes)))
  {
    SyncDrops(d.revs, d.spec);
  }

  /** A pass that waits for a confirmation asks for it, once; anything but "true" that is already
      there stays. */
  lemma WaitingAsks(c: Settings, d: Rollout, f: Findings)
    requires Revisions.Inv(d.revs) && UpToDate(d.revs, d.spec) && !f.saturated
    requires f.term == TermReady && f.progressing && c.needWaiting && d.confirm != Yes
    ensures Pass(c, d, f).0 == d.(confirm := if d.confirm == Missing then No("false") else d.confirm)
  {
    SyncDrops(d.revs, d.spec);
  }

  /** A pass that is not at that gate leaves the annotation alone, unless it stores a revision or
      finds the deployment saturated: then it takes it away. */
  lemma OtherwiseKept(c: Settings, d: Rollout, f: Findings)
    requires Revisions.Inv(d.revs) && !(f.term == TermReady && f.progressing)
    ensures Pass(c, d, f).0.confirm == if UpToDate(d.revs, d.spec) && !f.saturated then d.confirm else Missing
  {
    SyncDrops(d.revs, d.spec);
  }
}
