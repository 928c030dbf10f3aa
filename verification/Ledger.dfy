/** The cache of what the pods on the nodes of each region request, kept up to date by events. */
module Ledger {
  import opened Basics
  import opened Resources

  /** A pod: its namespace and name, the node it runs on, whether it has ended or is being
      deleted, and the requests of its containers. */
  datatype Pod = Pod(key: string, node: string, ended: bool, containers: seq<ResourceList>)

  /** A node as the API server describes it. */
  datatype NodeInfo = NodeInfo(name: string, ready: bool, allocatable: ResourceList)

  /** A cached node. `pods` keeps, for each pod counted, what it was counted with. */
  datatype Node = Node(
    ready: bool,
    allocatable: Resource,
    used: Resource,
    pods: map<string, Resource>)

  function Requests(containers: seq<ResourceList>): Resource {
    if containers == [] then ZERO else Of(containers[0]).Plus(Requests(containers[1..]))
  }

  predicate NonNegative(containers: seq<ResourceList>) {
    forall i :: 0 <= i < |containers| ==> forall n :: n in containers[i] ==> containers[i][n] >= 0
  }

  ghost function Pick(pods: map<string, Resource>): (k: string)
    requires |pods| != 0
    ensures k in pods
  {
    var k :| k in pods; k
  }

  /** Requests of all counted pods together. */
  ghost function Counted(pods: map<string, Resource>): Resource
    decreases |pods|
  {
    if |pods| == 0 then ZERO else pods[Pick(pods)].Plus(Counted(pods - {Pick(pods)}))
  }

  lemma PlusSwap(a: Resource, b: Resource, c: Resource)
    ensures a.Plus(b.Plus(c)) == b.Plus(a.Plus(c))
  {
  }

  lemma {:induction false} CountedTakeOut(pods: map<string, Resource>, k: string)
    requires k in pods
    ensures Counted(pods) == pods[k].Plus(Counted(pods - {k}))
    decreases |pods|
  {
    var c := Pick(pods);
    if c == k {
    } else {
      var rest := pods - {c} - {k};
      assert rest == pods - {k} - {c};
      CountedTakeOut(pods - {c}, k);
      CountedTakeOut(pods - {k}, c);
      PlusSwap(pods[c], pods[k], Counted(rest));
    }
  }

  lemma CountedPutIn(pods: map<string, Resource>, k: string, r: Resource)
    requires k !in pods
    ensures Counted(pods[k := r]) == r.Plus(Counted(pods))
  {
    CountedTakeOut(pods[k := r], k);
    assert pods[k := r] - {k} == pods;
  }

  /** The node's ledger is right: `used` is what the counted pods request, none negative. */
  ghost predicate Balanced(node: Node) {
    && node.used == Counted(node.pods)
    && forall k :: k in node.pods ==> node.pods[k].Covers(ZERO)
  }

  function Empty(info: NodeInfo): Node {
    Node(info.ready, Of(info.allocatable), ZERO, map[])
  }

  function AddPod(node: Node, pod: Pod): Node {
    if pod.ended then node
    else node.(pods := node.pods[pod.key := Requests(pod.containers)],
               used := node.used.Plus(Requests(pod.containers)))
  }

  function UpdatePod(node: Node, pod: Pod): Node {
    if pod.key !in node.pods then AddPod(node, pod)
    else if !pod.ended then node
    else node.(pods := node.pods - {pod.key},
               used := node.used.Minus(Requests(pod.containers)))
  }

  /** A pod the cache can take an event about: its requests are not negative, and what they were
      when it was counted. */
  predicate Consistent(node: Node, pod: Pod) {
    NonNegative(pod.containers) && (pod.key in node.pods ==> node.pods[pod.key] == Requests(pod.containers))
  }

  lemma PutInKeepsBalance(node: Node, key: string, r: Resource)
    requires Balanced(node) && r.Covers(ZERO) && key !in node.pods
    ensures Balanced(node.(pods := node.pods[key := r], used := node.used.Plus(r)))
  {
    CountedPutIn(node.pods, key, r);
  }

  lemma AddKeepsBalance(node: Node, pod: Pod)
    requires Balanced(node) && NonNegative(pod.containers) && pod.key !in node.pods
    ensures Balanced(AddPod(node, pod))
  {
    RequestsNonNegative(pod.containers);
    PutInKeepsBalance(node, pod.key, Requests(pod.containers));
  }

  lemma UpdateKeepsBalance(node: Node, pod: Pod)
    requires Balanced(node) && Consistent(node, pod)
    ensures Balanced(UpdatePod(node, pod))
  {
    if pod.key !in node.pods {
      AddKeepsBalance(node, pod);
    } else {
      CountedTakeOut(node.pods, pod.key);
    }
  }

  lemma {:induction false} CountedNonNegative(pods: map<string, Resource>)
    requires forall k :: k in pods ==> pods[k].Covers(ZERO)
    ensures Counted(pods).Covers(ZERO)
    decreases |pods|
  {
    if |pods| == 0 {
    } else {
      CountedNonNegative(pods - {Pick(pods)});
    }
  }

  lemma {:induction false} RequestsNonNegative(containers: seq<ResourceList>)
    requires NonNegative(containers)
    ensures Requests(containers).Covers(ZERO)
  {
    if containers == [] {
    } else {
      RequestsNonNegative(containers[1..]);
    }
  }

  /** What a counted pod requests is there to be given back. */
  lemma CanGiveBack(node: Node, key: string)
    requires Balanced(node) && key in node.pods
    ensures node.used.Covers(node.pods[key])
  {
    CountedTakeOut(node.pods, key);
    CountedNonNegative(node.pods - {key});
  }

  // ---------- the methods on a node ----------

  /** What is left to charge or to give back once the first `i` containers have been. */
  ghost function Rest(containers: seq<ResourceList>, i: nat): Resource
    requires i <= |containers|
  {
    Requests(containers[i..])
  }

  lemma RestOne(containers: seq<ResourceList>, i: nat)
    requires i < |containers|
    ensures Rest(containers, i) == Of(containers[i]).Plus(Rest(containers, i + 1))
  {
    assert containers[i..][1..] == containers[i + 1..];
  }

  lemma RestEnds(containers: seq<ResourceList>)
    ensures Rest(containers, 0) == Requests(containers) && Rest(containers, |containers|) == ZERO
  {
    assert containers[0..] == containers;
  }

  method Charge(used: Resource, containers: seq<ResourceList>) returns (used': Resource)
    ensures used' == used.Plus(Requests(containers))
  {
    used' := used;
    RestEnds(containers);
    for i := 0 to |containers|
      invariant used'.Plus(Rest(containers, i)) == used.Plus(Rest(containers, 0))
    {
      RestOne(containers, i);
      used' := Add(used', containers[i]);
    }
  }

  /** Gives the requests back; not one of the subtractions fails. */
  method GiveBack(used: Resource, containers: seq<ResourceList>) returns (used': Resource)
    requires NonNegative(containers) && used.Covers(Requests(containers))
    ensures used' == used.Minus(Requests(containers))
  {
    used' := used;
    RestEnds(containers);
    for i := 0 to |containers|
      invariant used'.Minus(Rest(containers, i)) == used.Minus(Rest(containers, 0))
      invariant used'.Covers(Rest(containers, i))
    {
      RestOne(containers, i);
      RequestsNonNegative(containers[i + 1..]);
      CoversEach(used', containers[i]);
      var ok;
      used', ok := Sub(used', containers[i]);
      assert ok;
    }
  }

  lemma CoversEach(r: Resource, rl: ResourceList)
    requires r.Covers(Of(rl))
    ensures forall n :: n in rl && !n.Other? ==> rl[n] <= r.Get(n)
  {
    forall n | n in rl && !n.Other? ensures rl[n] <= r.Get(n) {
      assert Quantity(rl, n) == rl[n];
    }
  }

  class NodeControl {
    var node: Node

    constructor (node: Node)
      ensures this.node == node
    {
      this.node := node;
    }

    method CountPod(pod: Pod)
      modifies this
      ensures node == AddPod(old(node), pod)
    {
      if pod.ended {
        return;
      }
      var used := Charge(node.used, pod.containers);
      node := node.(pods := node.pods[pod.key := Requests(pod.containers)], used := used);
    }

    method OnPodUpdate(pod: Pod)
      requires Balanced(node) && Consistent(node, pod)
      modifies this
      ensures node == UpdatePod(old(node), pod) && Balanced(node)
    {
      UpdateKeepsBalance(node, pod);
      if pod.key !in node.pods {
        CountPod(pod);
        return;
      }
      if pod.ended {
        CanGiveBack(node, pod.key);
        var used := GiveBack(node.used, pod.containers);
        node := node.(pods := node.pods - {pod.key}, used := used);
      }
    }
  }

  // ---------- the cache ----------

  type Region = map<string, Node>

  datatype Cache = Cache(regions: map<string, Region>, nodeToRegion: map<string, string>)

  /** The node with the pods of a listing that run on it. */
  function Filled(node: Node, name: string, pods: seq<Pod>): Node
    decreases |pods|
  {
    if pods == [] then node
    else Filled(if pods[0].node == name then AddPod(node, pods[0]) else node, name, pods[1..])
  }

  /** A listing names each pod once, with requests that are not negative. */
  predicate GoodListing(pods: seq<Pod>) {
    && (forall i :: 0 <= i < |pods| ==> NonNegative(pods[i].containers))
    && (forall i, j :: 0 <= i < j < |pods| ==> pods[i].key != pods[j].key)
  }

  lemma {:induction false} FillKeepsBalance(node: Node, name: string, pods: seq<Pod>)
    requires Balanced(node) && GoodListing(pods)
    requires forall i :: 0 <= i < |pods| ==> pods[i].key !in node.pods
    ensures Balanced(Filled(node, name, pods))
    decreases |pods|
  {
    if pods == [] {
    } else {
      var p := pods[0];
      AddKeepsBalance(node, p);
      var node' := if p.node == name then AddPod(node, p) else node;
      var rest := pods[1..];
      forall i | 0 <= i < |rest| ensures rest[i].key !in node'.pods {
        assert rest[i] == pods[i + 1];
      }
      FillKeepsBalance(node', name, rest);
    }
  }

  function Built(infos: map<string, NodeInfo>, pods: seq<Pod>): Region {
    map n | n in infos :: Filled(Empty(infos[n]), n, pods)
  }

  method BuildRegion(infos: map<string, NodeInfo>, pods: seq<Pod>) returns (region: Region)
    ensures region == Built(infos, pods)
  {
    region := map n | n in infos :: Empty(infos[n]);
    for i := 0 to |pods|
      invariant region.Keys == infos.Keys
      invariant forall n :: n in infos ==> Filled(region[n], n, pods[i..]) == Filled(Empty(infos[n]), n, pods)
    {
      var pod := pods[i];
      assert pods[i..][0] == pod && pods[i..][1..] == pods[i + 1..];
      if pod.node in region {
        var control := new NodeControl(region[pod.node]);
        control.CountPod(pod);
        region := region[pod.node := control.node];
      }
    }
  }

  /** What the cache is told. A sync rebuilds it from listings in which no node has two regions;
      a region is created once; a node new to the cache brings the listing of pods with it, and
      the region it belongs to, if any. */
  datatype Event =
    | Sync(listing: map<string, map<string, NodeInfo>>, pods: seq<Pod>)
    | RegionCreate(region: string, nodes: map<string, NodeInfo>, pods: seq<Pod>)
    | NodeEvent(info: NodeInfo, home: Option<string>, pods: seq<Pod>)
    | PodEvent(pod: Pod)

  predicate OneRegionEach(listing: map<string, map<string, NodeInfo>>) {
    forall r, s, n :: r in listing && s in listing && n in listing[r] && n in listing[s] ==> r == s
  }

  /** The cached node an event about node `name` goes to. */
  predicate Known(c: Cache, name: string) {
    && name in c.nodeToRegion && c.nodeToRegion[name] in c.regions
    && name in c.regions[c.nodeToRegion[name]]
  }

  function SetNode(c: Cache, region: string, name: string, node: Node): Cache
    requires region in c.regions
  {
    c.(regions := c.regions[region := c.regions[region][name := node]])
  }

  function Homes(listing: map<string, map<string, NodeInfo>>): (m: map<string, string>)
    requires OneRegionEach(listing)
    ensures forall r, n :: r in listing && n in listing[r] ==> n in m && m[n] == r
    ensures forall n :: n in m ==> m[n] in listing && n in listing[m[n]]
  {
    map r, n | r in listing && n in listing[r] :: n := r
  }

  ghost predicate Accepts(c: Cache, e: Event) {
    match e
    case Sync(listing, pods) => OneRegionEach(listing) && GoodListing(pods)
    case RegionCreate(region, _, pods) => region !in c.regions && GoodListing(pods)
    case NodeEvent(info, home, pods) =>
      GoodListing(pods) && (info.name !in c.nodeToRegion && home.Some? ==> home.value in c.regions)
    case PodEvent(pod) =>
      NonNegative(pod.containers)
      && (Known(c, pod.node) ==> Consistent(c.regions[c.nodeToRegion[pod.node]][pod.node], pod))
  }

  /** An event about a node that is mapped to a region but not there is not handled; the
      invariant says there is none. */
  function Handle(c: Cache, e: Event): Cache
    requires Accepts(c, e)
  {
    match e
    case Sync(listing, pods) =>
      Cache(map r | r in listing :: Built(listing[r], pods), Homes(listing))
    case RegionCreate(region, nodes, pods) =>
      Cache(c.regions[region := Built(nodes, pods)], c.nodeToRegion + (map n | n in nodes :: region))
    case NodeEvent(info, home, pods) =>
      if Known(c, info.name) then
        var region := c.nodeToRegion[info.name];
        var node := c.regions[region][info.name];
        SetNode(c, region, info.name, node.(ready := info.ready, allocatable := Of(info.allocatable)))
      else if info.name in c.nodeToRegion || home.None? then c
      else
        SetNode(c, home.value, info.name, Filled(Empty(info), info.name, pods))
        .(nodeToRegion := c.nodeToRegion[info.name := home.value])
    case PodEvent(pod) =>
      if !Known(c, pod.node) then c
      else
        var region := c.nodeToRegion[pod.node];
        SetNode(c, region, pod.node, UpdatePod(c.regions[region][pod.node], pod))
  }

  /** Every node the cache can be asked about is there, and every cached node is balanced. */
  ghost predicate Inv(c: Cache) {
    && (forall n :: n in c.nodeToRegion ==> Known(c, n))
    && (forall r, n :: r in c.regions && n in c.regions[r] ==> Balanced(c.regions[r][n]))
  }

  lemma BuiltBalanced(infos: map<string, NodeInfo>, pods: seq<Pod>)
    requires GoodListing(pods)
    ensures forall n :: n in infos ==> Balanced(Built(infos, pods)[n])
  {
    forall n | n in infos ensures Balanced(Built(infos, pods)[n]) {
      FillKeepsBalance(Empty(infos[n]), n, pods);
    }
  }

  lemma SyncKeepsInv(c: Cache, listing: map<string, map<string, NodeInfo>>, pods: seq<Pod>)
    requires OneRegionEach(listing) && GoodListing(pods)
    ensures Inv(Handle(c, Sync(listing, pods)))
  {
    var c' := Handle(c, Sync(listing, pods));
    forall r, n | r in c'.regions && n in c'.regions[r] ensures Balanced(c'.regions[r][n]) {
      BuiltBalanced(listing[r], pods);
    }
  }

  lemma AddRegionKeepsInv(c: Cache, region: string, built: Region)
    requires Inv(c) && region !in c.regions && forall n :: n in built ==> Balanced(built[n])
    ensures Inv(Cache(c.regions[region := built], c.nodeToRegion + (map n | n in built :: region)))
  {
    var c' := Cache(c.regions[region := built], c.nodeToRegion + (map n | n in built :: region));
    forall n | n in c'.nodeToRegion ensures Known(c', n) {
      assert n !in built ==> Known(c, n);
    }
    forall r, n | r in c'.regions && n in c'.regions[r] ensures Balanced(c'.regions[r][n]) {
      assert r != region ==> c'.regions[r] == c.regions[r];
    }
  }

  lemma CreateKeepsInv(c: Cache, region: string, nodes: map<string, NodeInfo>, pods: seq<Pod>)
    requires Inv(c) && region !in c.regions && GoodListing(pods)
    ensures Inv(Handle(c, RegionCreate(region, nodes, pods)))
  {
    var built := Built(nodes, pods);
    BuiltBalanced(nodes, pods);
    AddRegionKeepsInv(c, region, built);
    assert (map n | n in built :: region) == (map n | n in nodes :: region);
  }

  lemma SetNodeKeepsInv(c: Cache, region: string, name: string, node: Node)
    requires Inv(c) && region in c.regions && Balanced(node)
    ensures Inv(SetNode(c, region, name, node))
  {
    var c' := SetNode(c, region, name, node);
    forall n | n in c'.nodeToRegion ensures Known(c', n) {
      assert Known(c, n);
    }
    forall r, n | r in c'.regions && n in c'.regions[r] ensures Balanced(c'.regions[r][n]) {
      assert (r == region && n == name) || c'.regions[r][n] == c.regions[r][n];
    }
  }

  lemma HomeKeepsInv(c: Cache, name: string, region: string)
    requires Inv(c) && region in c.regions && name in c.regions[region]
    ensures Inv(c.(nodeToRegion := c.nodeToRegion[name := region]))
  {
    var c' := c.(nodeToRegion := c.nodeToRegion[name := region]);
    forall n | n in c'.nodeToRegion ensures Known(c', n) {
      assert n != name ==> Known(c, n);
    }
  }

  lemma HandleKeepsInv(c: Cache, e: Event)
    requires Inv(c) && Accepts(c, e)
    ensures Inv(Handle(c, e))
  {
    match e
    case Sync(listing, pods) => SyncKeepsInv(c, listing, pods);
    case RegionCreate(region, nodes, pods) => CreateKeepsInv(c, region, nodes, pods);
    case NodeEvent(info, home, pods) =>
      if Known(c, info.name) {
        var region := c.nodeToRegion[info.name];
        var node := c.regions[region][info.name];
        assert Balanced(node);
        SetNodeKeepsInv(c, region, info.name, node.(ready := info.ready, allocatable := Of(info.allocatable)));
      } else if info.name !in c.nodeToRegion && home.Some? {
        var node := Filled(Empty(info), info.name, pods);
        FillKeepsBalance(Empty(info), info.name, pods);
        SetNodeKeepsInv(c, home.value, info.name, node);
        HomeKeepsInv(SetNode(c, home.value, info.name, node), info.name, home.value);
      }
    case PodEvent(pod) =>
      if Known(c, pod.node) {
        var region := c.nodeToRegion[pod.node];
        var node := c.regions[region][pod.node];
        assert Balanced(node);
        UpdateKeepsBalance(node, pod);
        SetNodeKeepsInv(c, region, pod.node, UpdatePod(node, pod));
      }
  }

  const START := Cache(map[], map[])

  ghost predicate Run(states: seq<Cache>, events: seq<Event>) {
    && |states| == |events| + 1 && states[0] == START
    && forall i :: 0 <= i < |events| ==>
         Accepts(states[i], events[i]) && states[i + 1] == Handle(states[i], events[i])
  }

  /** Over any sequence of events every cached node accounts exactly for what the pods it counts
      request. (What the handlers rely on, that events go to nodes that are there, comes with it.) */
  lemma {:induction false} LedgerOverRuns(states: seq<Cache>, events: seq<Event>, n: nat)
    requires Run(states, events) && n < |states|
    ensures Inv(states[n])
  {
    if n == 0 {
    } else {
      LedgerOverRuns(states, events, n - 1);
      HandleKeepsInv(states[n - 1], events[n - 1]);
    }
  }

  // ---------- what the estimate leaves out ----------

  /** The pods that the node is estimated to have room for do not fit beside those that run. */
  ghost predicate Overbooked(node: Node, request: Resource) {
    var est := Estimate(node.allocatable, request);
    || est + node.used.pods > node.allocatable.pods
    || exists n :: Checked(n) && request.Get(n) > 0
                   && est * request.Get(n) + node.used.Get(n) > node.allocatable.Get(n)
  }

  /** The estimate looks at what a node can allocate and not at what is in use, so it promises more
      than fits into what is free exactly when the node is overbooked by it; and never when nothing
      is in use. */
  lemma OverbookedExactly(node: Node, request: Resource)
    requires Balanced(node) && node.allocatable.Covers(node.used)
    ensures Estimate(node.allocatable, request) > Fit(node.allocatable.Minus(node.used), request)
       <==> Overbooked(node, request)
    ensures |node.pods| == 0 ==> !Overbooked(node, request)
  {
    var free, est := node.allocatable.Minus(node.used), Estimate(node.allocatable, request);
    CountedNonNegative(node.pods);
    FitsExactly(free, request, est);
    assert !Fits(free, request, est) <==> Overbooked(node, request);
    EstimateSandwich(node.allocatable, request);
    if |node.pods| == 0 {
      assert free == node.allocatable;
    }
  }

  /** It does overbook: a node with none of a requested resource left is still taken to have room. */
  lemma FullNodeOverbooked(node: Node, request: Resource, n: Name)
    requires Checked(n) && request.Get(n) > 0 && node.used.Get(n) == node.allocatable.Get(n)
    requires Estimate(node.allocatable, request) > 0
    ensures Overbooked(node, request)
  {
    var est := Estimate(node.allocatable, request);
    MulMono(1, est, request.Get(n));
    assert est * request.Get(n) + node.used.Get(n) > node.allocatable.Get(n);
  }
}
