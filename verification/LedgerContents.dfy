/** Which pods the ledger counts on a node, and what it knows of the node: in every run, what was
    said last. */
module LedgerContents {
  import opened Basics
  import opened Resources
  import opened Ledger

  /** What a node counts a pod with, if it does. */
  function Held(node: Node, key: string): Option<Resource> {
    if key in node.pods then Some(node.pods[key]) else None
  }

  /** A pod with that key that runs on the node. */
  predicate Runs(p: Pod, name: string, key: string) {
    p.node == name && p.key == key && !p.ended
  }

  /** What a listing of pods says of a key on a node. */
  function FromListing(pods: seq<Pod>, name: string, key: string): (r: Option<Resource>)
    ensures r.Some? <==> exists i :: 0 <= i < |pods| && Runs(pods[i], name, key)
    ensures r.Some? ==> exists i :: 0 <= i < |pods| && Runs(pods[i], name, key) && r.value == Requests(pods[i].containers)
  {
    if pods == [] then None
    else if Runs(pods[0], name, key) then
      assert Runs(pods[0], name, key);
      Some(Requests(pods[0].containers))
    else
      var rest := FromListing(pods[1..], name, key);
      assert forall i :: 0 <= i < |pods| - 1 ==> pods[1..][i] == pods[i + 1];
      assert forall i :: 0 < i < |pods| ==> pods[i] == pods[1..][i - 1];
      rest
  }

  /** Filling a node from a listing counts exactly the pods that run on it, with their requests. */
  lemma {:induction false} FilledHolds(node: Node, name: string, pods: seq<Pod>, key: string)
    requires GoodListing(pods)
    ensures Held(Filled(node, name, pods), key)
         == if FromListing(pods, name, key).Some? then FromListing(pods, name, key) else Held(node, key)
    decreases |pods|
  {
    if pods == [] {
    } else {
      var rest := pods[1..];
      assert forall i :: 0 <= i < |rest| ==> rest[i] == pods[i + 1];
      FilledHolds(if pods[0].node == name then AddPod(node, pods[0]) else node, name, rest, key);
      if Runs(pods[0], name, key) {
        assert FromListing(rest, name, key).None?;
      }
    }
  }

  /** After a pod event its node counts the pod exactly when it has not ended, and every other pod
      as before. */
  lemma UpdateHolds(node: Node, pod: Pod, key: string)
    requires Consistent(node, pod)
    ensures Held(UpdatePod(node, pod), key)
         == if key != pod.key then Held(node, key)
            else if pod.ended then None
            else Some(Requests(pod.containers))
  {
  }

  // ---------- what was said last ----------

  /** The event is about a node that is known in that region. */
  predicate At(c: Cache, name: string, region: string, node: string) {
    name == node && Known(c, name) && c.nodeToRegion[name] == region
  }

  /** The event makes a node known in that region. */
  predicate Joins(c: Cache, e: Event, region: string, node: string) {
    e.NodeEvent? && e.info.name == node && e.home == Some(region) && node !in c.nodeToRegion
  }

  /** What the events so far have said last of a pod on a node of a region. */
  function PodWord(states: seq<Cache>, events: seq<Event>, n: nat, region: string, node: string, key: string): Option<Resource>
    requires n < |states| && n <= |events|
  {
    if n == 0 then None
    else
      var before, e := states[n - 1], events[n - 1];
      match e
      case Sync(_, pods) => FromListing(pods, node, key)
      case RegionCreate(r, _, pods) =>
        if r == region then FromListing(pods, node, key) else PodWord(states, events, n - 1, region, node, key)
      case NodeEvent(_, _, pods) =>
        if Joins(before, e, region, node) then FromListing(pods, node, key)
        else PodWord(states, events, n - 1, region, node, key)
      case PodEvent(pod) =>
        if At(before, pod.node, region, node) && pod.key == key then
          if pod.ended then None else Some(Requests(pod.containers))
        else PodWord(states, events, n - 1, region, node, key)
  }

  /** And of the node itself. */
  function NodeWord(states: seq<Cache>, events: seq<Event>, n: nat, region: string, node: string): Option<NodeInfo>
    requires n < |states| && n <= |events|
  {
    if n == 0 then None
    else
      var before, e := states[n - 1], events[n - 1];
      match e
      case Sync(listing, _) =>
        if region in listing && node in listing[region] then Some(listing[region][node]) else None
      case RegionCreate(r, nodes, _) =>
        if r == region then (if node in nodes then Some(nodes[node]) else None)
        else NodeWord(states, events, n - 1, region, node)
      case NodeEvent(info, _, _) =>
        if Joins(before, e, region, node) || At(before, info.name, region, node) then Some(info)
        else NodeWord(states, events, n - 1, region, node)
      case PodEvent(_) => NodeWord(states, events, n - 1, region, node)
  }

  predicate Has(c: Cache, region: string, node: string) {
    region in c.regions && node in c.regions[region]
  }

  /** The node knows what its description says. */
  predicate Describes(info: NodeInfo, node: Node) {
    node.ready == info.ready && node.allocatable == Of(info.allocatable)
  }

  lemma {:induction false} FilledKeeps(node: Node, name: string, pods: seq<Pod>)
    ensures var filled := Filled(node, name, pods);
            filled.ready == node.ready && filled.allocatable == node.allocatable
    decreases |pods|
  {
    if pods == [] {
    } else {
      FilledKeeps(if pods[0].node == name then AddPod(node, pods[0]) else node, name, pods[1..]);
    }
  }

  /** A node built from its description and a listing. */
  lemma BuiltHolds(info: NodeInfo, name: string, pods: seq<Pod>, key: string)
    requires GoodListing(pods)
    ensures var node := Filled(Empty(info), name, pods);
            Held(node, key) == FromListing(pods, name, key) && Describes(info, node)
  {
    FilledHolds(Empty(info), name, pods, key);
    FilledKeeps(Empty(info), name, pods);
  }

  /** An event that neither rebuilds the node nor is about it leaves it alone. */
  lemma ElsewhereKeeps(c: Cache, e: Event, region: string, node: string)
    requires Accepts(c, e) && Has(Handle(c, e), region, node)
    requires !e.Sync? && !(e.RegionCreate? && e.region == region) && !Joins(c, e, region, node)
    requires e.NodeEvent? ==> !At(c, e.info.name, region, node)
    requires e.PodEvent? ==> !At(c, e.pod.node, region, node)
    ensures Has(c, region, node) && Handle(c, e).regions[region][node] == c.regions[region][node]
  {
  }

  lemma NodeEventAt(c: Cache, e: Event, region: string, node: string)
    requires Accepts(c, e) && e.NodeEvent? && At(c, e.info.name, region, node)
    ensures Has(c, region, node) && Has(Handle(c, e), region, node)
    ensures var after := Handle(c, e).regions[region][node];
            after.pods == c.regions[region][node].pods && Describes(e.info, after)
  {
  }

  lemma PodEventAt(c: Cache, e: Event, region: string, node: string, key: string)
    requires Accepts(c, e) && e.PodEvent? && At(c, e.pod.node, region, node)
    ensures Has(c, region, node) && Has(Handle(c, e), region, node)
    ensures var before, after := c.regions[region][node], Handle(c, e).regions[region][node];
            && after.ready == before.ready && after.allocatable == before.allocatable
            && Held(after, key) == if key != e.pod.key then Held(before, key)
                                   else if e.pod.ended then None
                                   else Some(Requests(e.pod.containers))
  {
    UpdateHolds(c.regions[region][node], e.pod, key);
  }

  /** In every state of a run, each cached node counts exactly the pods that were last said to run on
      it, with the requests they were last said to have, and knows of itself what was said last. */
  lemma {:induction false} LastWordOverRuns(
    states: seq<Cache>, events: seq<Event>, n: nat, region: string, node: string, key: string)
    requires Run(states, events) && n < |states| && Has(states[n], region, node)
    ensures Held(states[n].regions[region][node], key) == PodWord(states, events, n, region, node, key)
    ensures NodeWord(states, events, n, region, node).Some?
    ensures Describes(NodeWord(states, events, n, region, node).value, states[n].regions[region][node])
  {
    if n == 0 {
    } else {
      var c, e := states[n - 1], events[n - 1];
      assert Accepts(c, e) && states[n] == Handle(c, e);
      if e.Sync? {
        BuiltHolds(e.listing[region][node], node, e.pods, key);
      } else if e.RegionCreate? && e.region == region {
        BuiltHolds(e.nodes[node], node, e.pods, key);
      } else if Joins(c, e, region, node) {
        BuiltHolds(e.info, node, e.pods, key);
      } else {
        if e.NodeEvent? && At(c, e.info.name, region, node) {
          NodeEventAt(c, e, region, node);
        } else if e.PodEvent? && At(c, e.pod.node, region, node) {
          PodEventAt(c, e, region, node, key);
        } else {
          ElsewhereKeeps(c, e, region, node);
        }
        LastWordOverRuns(states, events, n - 1, region, node, key);
      }
    }
  }
}
