/** The in-place update of an InplaceSet goes on to its end: the number of pods to update grows
    strictly to the desired number, and when it is reached that many pods are available. */
module InplaceCompletion {
  import opened Basics
  import opened PodUpdate
  import opened InplaceProtocol

  // ---------- the number of pods to update ----------

  function Deploys(events: seq<InplaceProtocol.Event>): nat {
    if events == [] then 0
    else Deploys(events[..|events| - 1]) + (if events[|events| - 1].Deploy? then 1 else 0)
  }

  /** The number after `k` raises: a first step, then full batches up to the desired number. */
  function NumberAfter(c: Settings, k: nat): Option<nat> {
    if k == 0 then None
    else Some(Min(c.desired, FirstNumber(c) + (k - 1) * c.batch))
  }

  function FirstNumber(c: Settings): nat {
    if c.strategy.Beta? || c.batch >= c.desired then 1 else c.batch
  }

  /** Each raise is strict, stays within the desired number, and there is one exactly while the
      desired number is not reached; a region of more than one pod is never taken in one step. */
  lemma RaiseExactly(c: Settings, num: nat)
    requires c.batch >= 1 && !c.strategy.Unset? && 1 <= c.desired <= c.replicas && num <= c.desired
    ensures Raise(c, num).Some? <==> num < c.desired
    ensures Raise(c, num).Some? ==> num < Raise(c, num).value <= c.desired
    ensures num == 0 ==> Raise(c, num) == Some(FirstNumber(c))
    ensures 0 < num < c.desired ==> Raise(c, num) == Some(Min(c.desired, num + c.batch))
    ensures c.desired > 1 ==> FirstNumber(c) < c.desired
  {
  }

  lemma RaisedNumber(c: Settings, k: nat)
    requires c.batch >= 1 && !c.strategy.Unset? && c.desired >= 1
    ensures var num := if k == 0 then 0 else NumberAfter(c, k).value;
            Raise(c, num).Some? ==> Raise(c, num) == NumberAfter(c, k + 1)
  {
    assert k > 0 ==> k * c.batch == (k - 1) * c.batch + c.batch;
  }

  lemma NumberStep(c: Settings, u: Update, s: Set, e: InplaceProtocol.Event, s': Set, k: nat)
    requires InplaceProtocol.Next(c, u, s, e, s') && c.batch >= 1 && !c.strategy.Unset?
    requires ProtocolInv(c, u, s) && s.num == NumberAfter(c, k)
    ensures s'.num == NumberAfter(c, if e.Deploy? then k + 1 else k)
  {
    if e.Deploy? {
      RaisedNumber(c, k);
    }
  }

  /** Over any run the number is a function of how many times it was raised, and so grows
      strictly, one batch at a time, to exactly the desired number. */
  lemma {:induction false} NumberOverRuns(
    c: Settings, u: Update, states: seq<Set>, events: seq<InplaceProtocol.Event>, n: nat)
    requires InplaceProtocol.Run(c, u, states, events) && Start(u, states[0]) && n < |states|
    requires c.batch >= 1 && !c.strategy.Unset?
    ensures states[n].num == NumberAfter(c, Deploys(events[..n]))
  {
    if n == 0 {
    } else {
      NumberOverRuns(c, u, states, events, n - 1);
      DisruptionBound(c, u, states, events, n - 1);
      assert InplaceProtocol.Next(c, u, states[n - 1], events[n - 1], states[n]);
      assert events[..n][..n - 1] == events[..n - 1];
      NumberStep(c, u, states[n - 1], events[n - 1], states[n], Deploys(events[..n - 1]));
    }
  }

  // ---------- one round ----------

  /** Nothing but syncs, good or bad, and nodes at work. */
  ghost predicate Waiting(c: Settings, u: Update, states: seq<Set>, events: seq<InplaceProtocol.Event>) {
    InplaceProtocol.Run(c, u, states, events) && forall i :: 0 <= i < |events| ==> !events[i].Deploy?
  }

  lemma {:induction false} WaitingKeeps(
    c: Settings, u: Update, states: seq<Set>, events: seq<InplaceProtocol.Event>, n: nat)
    requires Waiting(c, u, states, events) && ProtocolInv(c, u, states[0]) && n < |states|
    ensures ProtocolInv(c, u, states[n]) && states[n].num == states[0].num
    ensures |states[n].pods| == |states[0].pods|
    ensures TriedCount(states[n].pods, u) >= TriedCount(states[0].pods, u)
  {
    if n == 0 {
    } else {
      WaitingKeeps(c, u, states, events, n - 1);
      assert InplaceProtocol.Next(c, u, states[n - 1], events[n - 1], states[n]);
      StepKeepsProtocol(c, u, states[n - 1], events[n - 1], states[n]);
    }
  }

  /** One round from `s`: the number is raised, a sync goes well, then syncs and nodes take as long
      and fail as often as they like until no pod is disrupted, and a sync goes well again. */
  datatype Trace = Trace(
    raised: Set,
    first: How,
    states: seq<Set>,
    events: seq<InplaceProtocol.Event>,
    last: How)

  ghost predicate Round(c: Settings, u: Update, s: Set, t: Trace, s': Set) {
    && InplaceProtocol.Next(c, u, s, Deploy, t.raised)
    && Waiting(c, u, t.states, t.events)
    && t.first.Clean() && InplaceProtocol.Next(c, u, t.raised, Sync(t.first), t.states[0])
    && Disrupted(t.states[|t.events|].pods, u) <= 0
    && t.last.Clean() && InplaceProtocol.Next(c, u, t.states[|t.events|], Sync(t.last), s')
  }

  /** The pods asked for so far are available, and the report says so. */
  ghost predicate Caught(c: Settings, u: Update, s: Set) {
    s.num.Some? ==> s.num.value <= CountedCount(s.pods, u.hash) && AvailableDesired(c, s, u)
  }

  /** A round ends with the pods asked for available and the gate open. */
  lemma RoundOpensGate(c: Settings, u: Update, s: Set, t: Trace, s': Set)
    requires ProtocolInv(c, u, s) && c.desired <= |s.pods| && Round(c, u, s, t, s')
    ensures ProtocolInv(c, u, s') && |s'.pods| == |s.pods|
    ensures s'.num == t.raised.num && s'.num.Some? && Caught(c, u, s')
  {
    StepKeepsProtocol(c, u, s, Deploy, t.raised);
    StepKeepsProtocol(c, u, t.raised, Sync(t.first), t.states[0]);
    CleanSyncCounts(t.raised.pods, u, t.raised.num.value, t.first);
    WaitingKeeps(c, u, t.states, t.events, |t.events|);
    var quiet := t.states[|t.events|];
    StepKeepsProtocol(c, u, quiet, Sync(t.last), s');
    SyncCounts(quiet.pods, u, quiet.num.value, t.last);
    CleanSyncCounts(quiet.pods, u, quiet.num.value, t.last);
  }

  // ---------- to the end ----------

  ghost predicate Rounds(c: Settings, u: Update, ss: seq<Set>, ts: seq<Trace>) {
    && |ss| == |ts| + 1
    && forall i :: 0 <= i < |ts| ==> Round(c, u, ss[i], ts[i], ss[i + 1])
  }

  /** The state of things after `k` rounds. */
  ghost predicate CaughtUp(c: Settings, u: Update, s: Set, size: nat, k: nat) {
    ProtocolInv(c, u, s) && |s.pods| == size && Caught(c, u, s) && s.num == NumberAfter(c, k)
  }

  lemma RoundRaises(c: Settings, u: Update, s: Set, t: Trace, s': Set, size: nat, k: nat)
    requires CaughtUp(c, u, s, size, k) && Round(c, u, s, t, s')
    requires c.batch >= 1 && !c.strategy.Unset? && c.desired <= size
    ensures CaughtUp(c, u, s', size, k + 1)
  {
    RoundOpensGate(c, u, s, t, s');
    NumberStep(c, u, s, Deploy, t.raised, k);
  }

  lemma NextRound(c: Settings, u: Update, ss: seq<Set>, ts: seq<Trace>, size: nat, n: nat)
    requires Rounds(c, u, ss, ts) && n < |ts| && CaughtUp(c, u, ss[n], size, n)
    requires c.batch >= 1 && !c.strategy.Unset? && c.desired <= size
    ensures CaughtUp(c, u, ss[n + 1], size, n + 1)
  {
    assert Round(c, u, ss[n], ts[n], ss[n + 1]);
    RoundRaises(c, u, ss[n], ts[n], ss[n + 1], size, n);
  }

  lemma StartCaughtUp(c: Settings, u: Update, s: Set)
    requires Start(u, s) && 1 <= c.desired
    ensures CaughtUp(c, u, s, |s.pods|, 0)
  {
  }

  lemma {:induction false} RoundsCatchUp(c: Settings, u: Update, ss: seq<Set>, ts: seq<Trace>, n: nat)
    requires Rounds(c, u, ss, ts) && Start(u, ss[0]) && n < |ss|
    requires c.batch >= 1 && !c.strategy.Unset? && 1 <= c.desired <= |ss[0].pods|
    ensures CaughtUp(c, u, ss[n], |ss[0].pods|, n)
  {
    if n == 0 {
      StartCaughtUp(c, u, ss[0]);
    } else {
      RoundsCatchUp(c, u, ss, ts, n - 1);
      NextRound(c, u, ss, ts, |ss[0].pods|, n - 1);
    }
  }

  lemma {:induction false} NumberAtLeast(c: Settings, k: nat)
    requires c.batch >= 1 && c.desired >= 1 && k > 0
    ensures NumberAfter(c, k).value >= Min(c.desired, k)
  {
    if k == 1 {
    } else {
      NumberAtLeast(c, k - 1);
      assert (k - 1) * c.batch == (k - 2) * c.batch + c.batch;
    }
  }

  /** After any number of rounds either the desired number of pods is asked for and available, or
      the next raise is open, and then there were fewer rounds than pods desired. So an update
      whose pods become available goes on, and ends after at most that many rounds. */
  lemma UpdateCompletes(c: Settings, u: Update, ss: seq<Set>, ts: seq<Trace>)
    requires Rounds(c, u, ss, ts) && Start(u, ss[0])
    requires c.batch >= 1 && !c.strategy.Unset? && 1 <= c.desired <= c.replicas && c.desired <= |ss[0].pods|
    ensures var s := ss[|ts|];
            || (s.num == Some(c.desired) && CountedCount(s.pods, u.hash) >= c.desired)
            || (|ts| < c.desired && exists s' :: InplaceProtocol.Next(c, u, s, Deploy, s'))
  {
    var s := ss[|ts|];
    RoundsCatchUp(c, u, ss, ts, |ts|);
    var num := if s.num.Some? then s.num.value else 0;
    if |ts| > 0 {
      NumberAtLeast(c, |ts|);
    }
    RaiseExactly(c, num);
    if num < c.desired {
      assert InplaceProtocol.Next(c, u, s, Deploy, s.(num := Raise(c, num)));
    }
  }

  // ---------- the set is too small ----------

  /** While more replicas are desired than the set has, no in-place step is taken. */
  lemma RefusedAbove(c: Settings, u: Update, s: Set, s': Set)
    requires c.desired > c.replicas
    ensures !InplaceProtocol.Next(c, u, s, Deploy, s')
  {
  }

  /** So over every run a number that was raised stays within the replicas of the set. */
  lemma {:induction false} NumberWithinSet(
    c: Settings, u: Update, states: seq<Set>, events: seq<InplaceProtocol.Event>, n: nat)
    requires InplaceProtocol.Run(c, u, states, events) && Start(u, states[0]) && n < |states|
    ensures states[n].num.Some? ==> states[n].num.value <= c.desired <= c.replicas
  {
    DisruptionBound(c, u, states, events, n);
    if n == 0 {
    } else {
      NumberWithinSet(c, u, states, events, n - 1);
      assert InplaceProtocol.Next(c, u, states[n - 1], events[n - 1], states[n]);
    }
  }
}
