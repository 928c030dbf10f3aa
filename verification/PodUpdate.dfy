/** The in-place update of one pod: mark it not ready, wait out the grace period, patch the
    images, wait for the containers to restart, mark it ready again. */
module PodUpdate {
  import opened Basics

  datatype Condition = Absent | False | True

  datatype ContainerStatus = ContainerStatus(imageID: string, containerID: string)

  type Images = map<string, string>

  /** What the InplaceSet asks of its pods: a template hash and the images of its containers. */
  datatype Update = Update(hash: string, images: Images)

  /** Annotation: the update a pod has been given, and what its containers were when patched. */
  datatype UpdateState = UpdateState(
    hash: string,
    startedAt: int,
    specImages: Images,
    lastImages: Images,
    lastStatuses: map<string, ContainerStatus>)

  /** Annotation: an update waiting for its grace period. */
  datatype Grace = Grace(seconds: int, update: Update)

  /** `available` is readiness held for the minimum time. */
  datatype Pod = Pod(
    gated: bool,
    images: Images,
    statuses: map<string, ContainerStatus>,
    updateReady: Condition,
    containersReady: Condition,
    ready: Condition,
    available: bool,
    state: Option<UpdateState>,
    grace: Option<Grace>)

  // ---------- reading ----------

  /** An image without a tag means its latest tag; any colon counts as a tag. */
  function Tagged(image: string): (tagged: string)
    ensures ':' in tagged && (':' in image ==> tagged == image) && (':' !in image ==> tagged == image + ":latest")
  {
    if ':' in image then image else image + ":latest"
  }

  function ImageOf(images: Images, name: string): string {
    if name in images then images[name] else ""
  }

  /** The recorded container runs something else than when it was patched, or nothing new was
      asked of it. */
  predicate Restarted(pod: Pod, st: UpdateState, name: string)
    requires name in st.lastStatuses
  {
    && name in pod.statuses
    && var was, now := st.lastStatuses[name], pod.statuses[name];
       || was.imageID != now.imageID
       || was.containerID != now.containerID
       || ImageOf(st.lastImages, name) == (if name in pod.images then Tagged(pod.images[name]) else "")
  }

  predicate Completed(pod: Pod, st: UpdateState) {
    forall name :: name in st.lastStatuses ==> Restarted(pod, st, name)
  }

  predicate Tried(pod: Pod, u: Update) {
    && pod.state.Some?
    && pod.state.value.hash == u.hash
    && forall c :: c in u.images && c in pod.state.value.specImages ==>
         u.images[c] == pod.state.value.specImages[c]
  }

  /** The pod counts as an available replica of the update. */
  predicate Counted(pod: Pod, hash: string) {
    && pod.state.Some? && pod.state.value.hash == hash
    && pod.ready == True && Completed(pod, pod.state.value) && pod.available
  }

  // ---------- what each operation does to the pod ----------

  /** `base` with the entries of `from` for the given names put on top. */
  function Overlay<V>(base: map<string, V>, from: map<string, V>, names: set<string>): map<string, V> {
    base + (map c | c in names && c in from :: from[c])
  }

  lemma OverlayOne<V>(base: map<string, V>, from: map<string, V>, names: set<string>, c: string)
    ensures Overlay(base, from, names + {c})
         == if c in from then Overlay(base, from, names)[c := from[c]] else Overlay(base, from, names)
  {
  }

  function Patched(pod: Pod, u: Update, st: UpdateState): Pod {
    var changed := pod.images.Keys * u.images.Keys;
    pod.(
      images := Overlay(pod.images, u.images, changed),
      state := Some(st.(
        lastImages := Overlay(st.lastImages, pod.images, changed),
        lastStatuses := Overlay(st.lastStatuses, pod.statuses, changed))),
      grace := None)
  }

  /** Only the readiness of a pod whose containers are ready is withdrawn. */
  function MarkedNotReady(pod: Pod): Pod {
    var pod := pod.(updateReady := False);
    if pod.ready.Absent? || pod.containersReady != True then pod
    else pod.(ready := False, available := false)
  }

  function Given(pod: Pod, u: Update, seconds: int, now: int): Pod {
    var st := UpdateState(u.hash, now, u.images, map[], map[]);
    if seconds <= 0 then Patched(pod, u, st)
    else pod.(state := Some(st), grace := Some(Grace(seconds, u)))
  }

  /** `interrupted`: the condition is written and the write of the pod fails. */
  function TryUpdate(pod: Pod, u: Update, seconds: int, now: int, interrupted: bool): Pod {
    if Tried(pod, u) then pod
    else
      var marked := if pod.gated then MarkedNotReady(pod) else pod;
      if interrupted then marked else Given(marked, u, seconds, now)
  }

  predicate GraceOver(pod: Pod, now: int) {
    pod.grace.Some? && pod.state.Some? && now - pod.state.value.startedAt >= pod.grace.value.seconds
  }

  /** A grace period is pending and there is no record of what for. */
  predicate CannotRefresh(pod: Pod) {
    pod.grace.Some? && pod.grace.value.seconds > 0 && pod.state.None?
  }

  function Refreshed(pod: Pod, now: int): Pod {
    if pod.grace.Some? && pod.grace.value.seconds > 0 then
      if GraceOver(pod, now) then Patched(pod, pod.grace.value.update, pod.state.value) else pod
    else if pod.state.Some? && !Completed(pod, pod.state.value) then pod
    else if !pod.gated || pod.updateReady == True then pod
    else pod.(updateReady := True)
  }

  // ---------- the methods ----------

  method PatchImages(images: Images, asked: Images, last: Images)
    returns (images': Images, last': Images, changed: set<string>)
    ensures changed == images.Keys * asked.Keys
    ensures images' == Overlay(images, asked, changed) && last' == Overlay(last, images, changed)
  {
    images', last', changed := images, last, {};
    var names := images.Keys;
    while names != {}
      invariant names <= images.Keys
      invariant changed == (images.Keys - names) * asked.Keys
      invariant images' == Overlay(images, asked, changed) && last' == Overlay(last, images, changed)
      decreases names
    {
      var c :| c in names;
      if c in asked {
        OverlayOne(images, asked, changed, c);
        OverlayOne(last, images, changed, c);
        images', last' := images'[c := asked[c]], last'[c := images[c]];
        changed := changed + {c};
      }
      names := names - {c};
    }
  }

  method RecordStatuses(statuses: map<string, ContainerStatus>, changed: set<string>,
                        last: map<string, ContainerStatus>)
    returns (last': map<string, ContainerStatus>)
    ensures last' == Overlay(last, statuses, changed)
  {
    last' := last;
    var names, seen := statuses.Keys, {};
    while names != {}
      invariant names <= statuses.Keys && seen == statuses.Keys - names
      invariant last' == Overlay(last, statuses, changed * seen)
      decreases names
    {
      var c :| c in names;
      assert changed * (seen + {c}) == if c in changed then changed * seen + {c} else changed * seen;
      if c in changed {
        OverlayOne(last, statuses, changed * seen, c);
        last' := last'[c := statuses[c]];
      }
      names, seen := names - {c}, seen + {c};
    }
  }

  /** A pod as the API server holds it. */
  class PodControl {
    var pod: Pod

    constructor (pod: Pod)
      ensures this.pod == pod
    {
      this.pod := pod;
    }

    /** Crosses off each recorded container that has restarted; done when none is left. */
    method CheckCompleted(st: UpdateState) returns (done: bool)
      ensures done == Completed(pod, st)
    {
      var left := st.lastStatuses;
      var names := pod.statuses.Keys;
      while names != {}
        invariant names <= pod.statuses.Keys
        invariant left.Keys == st.lastStatuses.Keys - (pod.statuses.Keys - names)
        invariant forall c :: c in st.lastStatuses && c in pod.statuses && c !in names ==> Restarted(pod, st, c)
        decreases names
      {
        var c :| c in names;
        if c in left {
          var was, now := st.lastStatuses[c], pod.statuses[c];
          var image := if c in pod.images then Tagged(pod.images[c]) else "";
          if was.imageID == now.imageID && ImageOf(st.lastImages, c) != image {
            if was.containerID == now.containerID {
              assert !Restarted(pod, st, c);
              return false;
            }
          }
          assert Restarted(pod, st, c);
          left := left - {c};
        }
        names := names - {c};
      }
      if left.Keys != {} {
        ghost var c :| c in left.Keys;
        assert !Restarted(pod, st, c);
        return false;
      }
      assert forall c :: c in st.lastStatuses ==> c in pod.statuses by {
        forall c | c in st.lastStatuses ensures c in pod.statuses {
          assert c !in left.Keys;
        }
      }
      return true;
    }

    /** Sets the images of the containers the update names, recording what they were. */
    method PatchUpdateSpec(u: Update, st: UpdateState)
      modifies this
      ensures pod == Patched(old(pod), u, st)
    {
      var images, lastImages, changed := PatchImages(pod.images, u.images, st.lastImages);
      var lastStatuses := RecordStatuses(pod.statuses, changed, st.lastStatuses);
      pod := pod.(images := images,
                  state := Some(st.(lastImages := lastImages, lastStatuses := lastStatuses)),
                  grace := None);
    }

    method UpdateReadyCondition()
      modifies this
      ensures pod == MarkedNotReady(old(pod))
    {
      pod := pod.(updateReady := False);
      if pod.ready.Absent? {
        return;
      }
      if pod.containersReady != True {
        return;
      }
      pod := pod.(ready := False, available := false);
    }

    method TryInplaceUpdate(u: Update, seconds: int, now: int)
      modifies this
      ensures pod == TryUpdate(old(pod), u, seconds, now, false)
    {
      if Tried(pod, u) {
        return;
      }
      if pod.gated {
        UpdateReadyCondition();
      }
      var st := UpdateState(u.hash, now, u.images, map[], map[]);
      if seconds <= 0 {
        PatchUpdateSpec(u, st);
      } else {
        pod := pod.(state := Some(st), grace := Some(Grace(seconds, u)));
      }
    }

    method RefreshPod(now: int) returns (ok: bool)
      modifies this
      ensures pod == Refreshed(old(pod), now)
      ensures !ok <==> CannotRefresh(old(pod))
    {
      ok := true;
      if pod.grace.Some? && pod.grace.value.seconds > 0 {
        if pod.state.None? {
          return false;
        }
        if now - pod.state.value.startedAt >= pod.grace.value.seconds {
          PatchUpdateSpec(pod.grace.value.update, pod.state.value);
        }
        return;
      }
      if pod.state.Some? {
        var done := CheckCompleted(pod.state.value);
        if !done {
          return;
        }
      }
      if pod.gated && pod.updateReady != True {
        pod := pod.(updateReady := True);
      }
    }
  }

  // ---------- the machine ----------

  /** Something that happens to a pod. `Kubelet` is the node's doing. */
  datatype Event =
    | Try(update: Update, seconds: int, now: int, interrupted: bool)
    | Refresh(now: int)
    | Kubelet(next: Pod)

  /** The node runs containers and reports on them. It honours the readiness gate, leaves specs
      and annotations alone, and containers that have restarted stay so. */
  ghost predicate NodeKeeps(p: Pod, p': Pod) {
    && p'.gated == p.gated && p'.images == p.images && p'.updateReady == p.updateReady
    && p'.state == p.state && p'.grace == p.grace
    && Coherent(p')
    && (p.state.Some? && Completed(p, p.state.value) ==> Completed(p', p.state.value))
  }

  ghost predicate Step(p: Pod, e: Event, p': Pod) {
    match e
    case Try(u, seconds, now, interrupted) => p' == TryUpdate(p, u, seconds, now, interrupted)
    case Refresh(now) => p' == Refreshed(p, now)
    case Kubelet(next) => p' == next && NodeKeeps(p, p')
  }

  /** Readiness of a gated pod implies the gate's condition; availability implies readiness. */
  predicate Coherent(p: Pod) {
    && (p.ready == True ==> p.containersReady == True)
    && (p.ready == True && p.gated ==> p.updateReady == True)
    && (p.available ==> p.ready == True)
  }

  /** What every event keeps of a gated pod. */
  predicate Inv(p: Pod) {
    && p.gated && Coherent(p)
    && (p.grace.Some? ==>
          && p.updateReady == False
          && p.grace.value.seconds > 0
          && p.state.Some?
          && p.state.value.hash == p.grace.value.update.hash
          && p.state.value.specImages == p.grace.value.update.images)
    && (p.grace.None? && p.state.Some? ==> RunsSpec(p, p.state.value.specImages))
  }

  /** The pod's spec has the images the update asked for. */
  predicate RunsSpec(p: Pod, images: Images) {
    forall c :: c in p.images && c in images ==> p.images[c] == images[c]
  }

  lemma PatchKeepsInv(p: Pod, u: Update, st: UpdateState)
    requires p.gated && Coherent(p) && st.specImages == u.images
    ensures Inv(Patched(p, u, st))
  {
  }

  lemma TryKeepsInv(p: Pod, u: Update, seconds: int, now: int, interrupted: bool)
    requires Inv(p)
    ensures Inv(TryUpdate(p, u, seconds, now, interrupted))
  {
    if seconds <= 0 {
      PatchKeepsInv(MarkedNotReady(p), u, UpdateState(u.hash, now, u.images, map[], map[]));
    }
  }

  lemma RefreshKeepsInv(p: Pod, now: int)
    requires Inv(p)
    ensures Inv(Refreshed(p, now))
  {
    if GraceOver(p, now) {
      PatchKeepsInv(p, p.grace.value.update, p.state.value);
    }
  }

  lemma StepKeepsInv(p: Pod, e: Event, p': Pod)
    requires Inv(p) && Step(p, e, p')
    ensures Inv(p')
  {
    match e
    case Try(u, seconds, now, interrupted) => TryKeepsInv(p, u, seconds, now, interrupted);
    case Refresh(now) => RefreshKeepsInv(p, now);
    case Kubelet(_) =>
  }

  /** Images change only while the pod is marked not ready, and not before its grace is over. */
  lemma ImagesChangeOnlyNotReady(p: Pod, e: Event, p': Pod)
    requires Inv(p) && Step(p, e, p') && p'.images != p.images
    ensures p'.updateReady == False && p'.ready != True && !p'.available
    ensures e.Refresh? ==> p.updateReady == False && GraceOver(p, e.now)
    ensures e.Try? ==> e.seconds <= 0
    ensures !e.Kubelet?
    ensures p'.state.Some? && p'.grace.None?
  {
    StepKeepsInv(p, e, p');
  }

  /** The condition comes back only in a refresh, with no grace pending and the containers of
      the last update restarted. */
  lemma ReadyComesBackCompleted(p: Pod, e: Event, p': Pod)
    requires Inv(p) && Step(p, e, p') && p.updateReady != True && p'.updateReady == True
    ensures e.Refresh? && p.grace.None? && p'.state == p.state
    ensures p.state.Some? ==> Completed(p, p.state.value) && RunsSpec(p, p.state.value.specImages)
  {
  }

  /** The events of a run all belong to one update of the InplaceSet. */
  predicate OneUpdate(events: seq<Event>, u: Update) {
    forall i :: 0 <= i < |events| ==> (events[i].Try? ==> events[i].update == u)
  }

  ghost predicate Run(pods: seq<Pod>, events: seq<Event>) {
    |pods| == |events| + 1 && forall i :: 0 <= i < |events| ==> Step(pods[i], events[i], pods[i + 1])
  }

  lemma {:induction false} RunKeepsInv(pods: seq<Pod>, events: seq<Event>, n: nat)
    requires Run(pods, events) && Inv(pods[0]) && n < |pods|
    ensures Inv(pods[n])
  {
    if n == 0 {
    } else {
      RunKeepsInv(pods, events, n - 1);
      assert Step(pods[n - 1], events[n - 1], pods[n]);
      StepKeepsInv(pods[n - 1], events[n - 1], pods[n]);
    }
  }

  /** A pod that was patched for an update keeps the record of it. */
  lemma RecordKept(p: Pod, e: Event, p': Pod, u: Update)
    requires Step(p, e, p') && (e.Try? ==> e.update == u) && Tried(p, u) && p.grace.None?
    ensures Tried(p', u) && p'.grace.None? && p'.state == p.state && p'.images == p.images
  {
  }

  lemma {:induction false} RecordKeptOverRun(pods: seq<Pod>, events: seq<Event>, u: Update, i: nat, j: nat)
    requires Run(pods, events) && OneUpdate(events, u) && i <= j < |pods|
    requires Tried(pods[i], u) && pods[i].grace.None?
    ensures pods[j].state == pods[i].state && pods[j].images == pods[i].images
    ensures Tried(pods[j], u) && pods[j].grace.None?
    decreases j
  {
    if j == i {
    } else {
      RecordKeptOverRun(pods, events, u, i, j - 1);
      assert Step(pods[j - 1], events[j - 1], pods[j]);
      RecordKept(pods[j - 1], events[j - 1], pods[j], u);
    }
  }

  /** `p'` has the images of `u`, and a record of what its containers were in `p`. */
  ghost predicate Recorded(p: Pod, u: Update, p': Pod) {
    && Tried(p', u) && p'.grace.None?
    && (forall c :: c in p.images && c in u.images && c in p.statuses ==>
          && c in p'.state.value.lastStatuses && p'.state.value.lastStatuses[c] == p.statuses[c]
          && ImageOf(p'.state.value.lastImages, c) == p.images[c])
    && (forall c :: c in p.images && c in u.images ==> c in p'.images && p'.images[c] == u.images[c])
  }

  lemma PatchedRecords(p: Pod, u: Update, st: UpdateState)
    requires st.hash == u.hash && st.specImages == u.images
    ensures Recorded(p, u, Patched(p, u, st))
  {
  }

  /** What a patch records: for the first update of a run, the statuses before the patch. */
  lemma PatchRecords(p: Pod, e: Event, p': Pod, u: Update)
    requires Inv(p) && Step(p, e, p') && p'.images != p.images && (e.Try? ==> e.update == u)
    requires p.grace.Some? ==> p.grace.value.update == u
    ensures Recorded(p, u, p')
  {
    match e
    case Try(_, seconds, now, _) =>
      PatchedRecords(MarkedNotReady(p), u, UpdateState(u.hash, now, u.images, map[], map[]));
      assert p' == Given(MarkedNotReady(p), u, seconds, now);
    case Refresh(now) =>
      PatchedRecords(p, u, p.state.value);
    case Kubelet(_) =>
  }

  /** Within one update: between the patch of a container's image and the moment the pod is
      marked ready again, the container shows a new image ID or a new container ID. (An old
      image that is the new one's latest tag counts as the same image.) */
  lemma ReadyOnlyAfterRestart(pods: seq<Pod>, events: seq<Event>, u: Update, i: nat, j: nat, c: string)
    requires Run(pods, events) && OneUpdate(events, u) && Inv(pods[0])
    requires i < j < |events|
    requires pods[i + 1].images != pods[i].images
    requires pods[i].grace.Some? ==> pods[i].grace.value.update == u
    requires pods[j].updateReady != True && pods[j + 1].updateReady == True
    requires c in pods[i].images && c in u.images && c in pods[i].statuses
    requires pods[i].images[c] != Tagged(u.images[c])
    ensures c in pods[j].statuses
    ensures pods[j].statuses[c].imageID != pods[i].statuses[c].imageID
         || pods[j].statuses[c].containerID != pods[i].statuses[c].containerID
  {
    RunKeepsInv(pods, events, i);
    RunKeepsInv(pods, events, j);
    assert Step(pods[i], events[i], pods[i + 1]) && Step(pods[j], events[j], pods[j + 1]);
    PatchRecords(pods[i], events[i], pods[i + 1], u);
    RecordKeptOverRun(pods, events, u, i + 1, j);
    ReadyComesBackCompleted(pods[j], events[j], pods[j + 1]);
    assert Restarted(pods[j], pods[j].state.value, c);
  }

  /** A gated pod counts for an update only when its spec has the update's images, no grace period
      is pending, and every container recorded by the patch has restarted. */
  lemma CountedMeansUpdated(p: Pod, hash: string)
    requires Inv(p) && Counted(p, hash)
    ensures p.grace.None? && RunsSpec(p, p.state.value.specImages)
    ensures forall c :: c in p.state.value.lastStatuses ==> c in p.statuses && Restarted(p, p.state.value, c)
  {
  }

  /** Within one update: a pod that counts after the patch of a container's image shows a new image
      ID or a new container ID for it. */
  lemma CountedOnlyAfterRestart(pods: seq<Pod>, events: seq<Event>, u: Update, i: nat, j: nat, c: string)
    requires Run(pods, events) && OneUpdate(events, u) && Inv(pods[0])
    requires i < |events| && i < j < |pods|
    requires pods[i + 1].images != pods[i].images
    requires pods[i].grace.Some? ==> pods[i].grace.value.update == u
    requires Counted(pods[j], u.hash)
    requires c in pods[i].images && c in u.images && c in pods[i].statuses
    requires pods[i].images[c] != Tagged(u.images[c])
    ensures c in pods[j].statuses
    ensures pods[j].statuses[c].imageID != pods[i].statuses[c].imageID
         || pods[j].statuses[c].containerID != pods[i].statuses[c].containerID
  {
    RunKeepsInv(pods, events, i);
    assert Step(pods[i], events[i], pods[i + 1]);
    PatchRecords(pods[i], events[i], pods[i + 1], u);
    RecordKeptOverRun(pods, events, u, i + 1, j);
    assert Restarted(pods[j], pods[j].state.value, c);
  }

  /** Right after a patch, before any container restarts, the update counts as completed exactly
      when every patched container already had its new image, tag included. So a container
      whose image has no tag and is not changed holds the pod back until it restarts. */
  lemma CompletedWithoutRestart(p: Pod, u: Update, now: int)
    ensures var p' := Patched(p, u, UpdateState(u.hash, now, u.images, map[], map[]));
            (Completed(p', p'.state.value)
             <==> forall c :: c in p.images && c in u.images && c in p.statuses ==>
                    p.images[c] == Tagged(u.images[c]))
  {
    var p' := Patched(p, u, UpdateState(u.hash, now, u.images, map[], map[]));
    var st := p'.state.value;
    forall c | c in p.images && c in u.images && c in p.statuses
      ensures c in st.lastStatuses
      ensures Restarted(p', st, c) <==> p.images[c] == Tagged(u.images[c])
    {
    }
  }

  /** A pod that is available when it is given an update counts for it at once exactly when it has
      no readiness gate, and either waits out a grace period with its old images or already runs
      the new ones. */
  lemma CountsAtOnceExactly(p: Pod, u: Update, seconds: int, now: int)
    requires Coherent(p) && p.ready == True && p.available && !Tried(p, u)
    ensures var p' := TryUpdate(p, u, seconds, now, false);
            && (Counted(p', u.hash)
                <==> !p.gated && (seconds > 0
                                  || forall c :: c in p.images && c in u.images && c in p.statuses ==>
                                       p.images[c] == Tagged(u.images[c])))
            && (Counted(p', u.hash) && p'.grace.Some? <==> !p.gated && seconds > 0)
            && (seconds > 0 ==> p'.images == p.images)
  {
    if seconds <= 0 {
      CompletedWithoutRestart(p, u, now);
    }
  }

  lemma UntaggedUnchangedBlocks(p: Pod, u: Update, now: int, c: string)
    requires c in p.images && c in u.images && c in p.statuses
    requires u.images[c] == p.images[c] && ':' !in p.images[c]
    ensures var p' := Patched(p, u, UpdateState(u.hash, now, u.images, map[], map[]));
            !Completed(p', p'.state.value)
  {
    CompletedWithoutRestart(p, u, now);
    assert |Tagged(u.images[c])| != |p.images[c]|;
  }

  // ---------- the grace period ----------

  /** The event gives the pod an update. */
  predicate Effective(p: Pod, e: Event) {
    e.Try? && !e.interrupted && !Tried(p, e.update)
  }

  /** A try records when it was made, what it asks for, and the grace to wait; without a grace it
      patches at once. */
  lemma TryRecords(p: Pod, u: Update, seconds: int, now: int)
    requires !Tried(p, u)
    ensures var p' := TryUpdate(p, u, seconds, now, false);
            && p'.state.Some? && p'.state.value.startedAt == now
            && p'.state.value.hash == u.hash && p'.state.value.specImages == u.images
            && (if seconds > 0 then p'.grace == Some(Grace(seconds, u)) && p'.images == p.images
                else p'.grace.None? && forall c :: c in p.images && c in u.images ==> p'.images[c] == u.images[c])
  {
  }

  /** After a try the pod is tried for another update exactly when that has the same hash and asks
      for no other image of a container both name. */
  lemma TriedExactly(p: Pod, u: Update, seconds: int, now: int, other: Update)
    requires !Tried(p, u)
    ensures Tried(TryUpdate(p, u, seconds, now, false), other)
       <==> other.hash == u.hash
            && forall c :: c in other.images && c in u.images ==> other.images[c] == u.images[c]
  {
  }

  /** What the try left is still there, or the patch has been made. */
  predicate Waits(p: Pod, u: Update, seconds: int, start: int) {
    p.grace.None?
    || (p.grace == Some(Grace(seconds, u)) && p.state.Some? && p.state.value.startedAt == start)
  }

  lemma StepWaits(p: Pod, e: Event, p': Pod, u: Update, seconds: int, start: int)
    requires Step(p, e, p') && Waits(p, u, seconds, start) && !Effective(p, e) && seconds > 0
    ensures Waits(p', u, seconds, start)
    ensures p'.images != p.images ==> e.Refresh? && e.now - start >= seconds
  {
  }

  lemma {:induction false} RunWaits(pods: seq<Pod>, events: seq<Event>, i: nat, j: nat)
    requires Run(pods, events) && i < |events| && i < j < |pods|
    requires Effective(pods[i], events[i]) && events[i].seconds > 0
    requires forall k :: i < k < j ==> !Effective(pods[k], events[k])
    ensures Waits(pods[j], events[i].update, events[i].seconds, events[i].now)
    decreases j
  {
    var e := events[i];
    if j == i + 1 {
      assert Step(pods[i], e, pods[j]);
      TryRecords(pods[i], e.update, e.seconds, e.now);
      assert pods[j] == TryUpdate(pods[i], e.update, e.seconds, e.now, false);
    } else {
      RunWaits(pods, events, i, j - 1);
      assert Step(pods[j - 1], events[j - 1], pods[j]);
      StepWaits(pods[j - 1], events[j - 1], pods[j], e.update, e.seconds, e.now);
    }
  }

  /** Over any run: between a try and the change of images it leads to lie at least the seconds of
      grace. */
  lemma GraceHonoured(pods: seq<Pod>, events: seq<Event>, i: nat, j: nat)
    requires Run(pods, events) && i < j < |events|
    requires Effective(pods[i], events[i]) && events[i].seconds > 0
    requires forall k :: i < k <= j ==> !Effective(pods[k], events[k])
    requires pods[j + 1].images != pods[j].images
    ensures events[j].Refresh? && events[j].now - events[i].now >= events[i].seconds
  {
    var e := events[i];
    RunWaits(pods, events, i, j);
    assert Step(pods[j], events[j], pods[j + 1]);
    StepWaits(pods[j], events[j], pods[j + 1], e.update, e.seconds, e.now);
  }

  /** And no longer than that: the first refresh after the grace makes the patch, and none before. */
  lemma GraceEnds(pods: seq<Pod>, events: seq<Event>, i: nat, j: nat)
    requires Run(pods, events) && i < j < |events| && events[j].Refresh?
    requires Effective(pods[i], events[i]) && events[i].seconds > 0 && pods[j].grace.Some?
    requires forall k :: i < k < j ==> !Effective(pods[k], events[k])
    ensures pods[j + 1].grace.None? <==> events[j].now - events[i].now >= events[i].seconds
    ensures pods[j + 1].grace.None? ==>
              forall c :: c in pods[j].images && c in events[i].update.images ==>
                pods[j + 1].images[c] == events[i].update.images[c]
  {
    RunWaits(pods, events, i, j);
    assert Step(pods[j], events[j], pods[j + 1]);
  }

  /** A refresh marks a gated pod ready exactly when no grace is pending and the containers of its
      last update, if it had one, have restarted. */
  lemma MarkedReadyExactly(p: Pod, now: int)
    requires p.gated && p.updateReady != True
    ensures Refreshed(p, now).updateReady == True
       <==> (p.grace.Some? ==> p.grace.value.seconds <= 0) && (p.state.Some? ==> Completed(p, p.state.value))
  {
  }

  /** Being marked takes readiness from a pod whose containers are ready, and from no other. */
  lemma MarkedExactly(p: Pod)
    ensures var p' := MarkedNotReady(p);
            && p'.updateReady == False
            && (p.ready != Absent && p.containersReady == True ==> p'.ready == False && !p'.available)
            && (p.ready == Absent || p.containersReady != True ==> p'.ready == p.ready && p'.available == p.available)
            && p' == p.(updateReady := False, ready := p'.ready, available := p'.available)
  {
  }
}
