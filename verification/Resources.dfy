/** Amounts of compute resources, and how many pods fit into them. */
module Resources {

  datatype Name = Cpu | Memory | Storage | PodCount | Other(name: string)

  /** Quantities by resource name, in the unit the resource is counted in. */
  type ResourceList = map<Name, int>

  datatype Resource = Resource(cpu: int, memory: int, storage: int, pods: int) {
    function Get(n: Name): int {
      match n
      case Cpu => cpu
      case Memory => memory
      case Storage => storage
      case PodCount => pods
      case Other(_) => 0
    }

    function Plus(r: Resource): Resource {
      Resource(cpu + r.cpu, memory + r.memory, storage + r.storage, pods + r.pods)
    }

    function Minus(r: Resource): Resource {
      Resource(cpu - r.cpu, memory - r.memory, storage - r.storage, pods - r.pods)
    }

    predicate Covers(r: Resource) {
      r.cpu <= cpu && r.memory <= memory && r.storage <= storage && r.pods <= pods
    }

    function With(n: Name, amount: int): Resource {
      match n
      case Cpu => this.(cpu := amount)
      case Memory => this.(memory := amount)
      case Storage => this.(storage := amount)
      case PodCount => this.(pods := amount)
      case Other(_) => this
    }
  }

  const ZERO := Resource(0, 0, 0, 0)

  function Quantity(rl: ResourceList, n: Name): int {
    if n in rl then rl[n] else 0
  }

  /** The resources a list names, unknown names aside. */
  function Of(rl: ResourceList): Resource {
    Resource(Quantity(rl, Cpu), Quantity(rl, Memory), Quantity(rl, Storage), Quantity(rl, PodCount))
  }

  /** The part of a list that has the given names. */
  function Part(rl: ResourceList, names: set<Name>): ResourceList {
    map n | n in rl && n in names :: rl[n]
  }

  /** Adds each named quantity. */
  method Add(r: Resource, rl: ResourceList) returns (r': Resource)
    ensures r' == r.Plus(Of(rl))
  {
    r' := r;
    var names, seen := rl.Keys, {};
    while names != {}
      invariant names + seen == rl.Keys && names !! seen
      invariant r' == r.Plus(Of(Part(rl, seen)))
      decreases names
    {
      var n :| n in names;
      AddOne(r, rl, seen, n);
      r' := r'.With(n, r'.Get(n) + rl[n]);
      names, seen := names - {n}, seen + {n};
    }
    assert Part(rl, seen) == rl;
  }

  lemma PartOne(rl: ResourceList, names: set<Name>, n: Name)
    requires n in rl && n !in names
    ensures var before := Of(Part(rl, names));
            Of(Part(rl, names + {n})) == before.With(n, before.Get(n) + rl[n])
            && (n.Other? || before.Get(n) == 0)
  {
  }

  lemma AddOne(r: Resource, rl: ResourceList, seen: set<Name>, n: Name)
    requires n in rl && n !in seen
    ensures var before := r.Plus(Of(Part(rl, seen)));
            r.Plus(Of(Part(rl, seen + {n}))) == before.With(n, before.Get(n) + rl[n])
  {
    PartOne(rl, seen, n);
  }

  /** One more quantity taken away. */
  lemma SubOne(r: Resource, rl: ResourceList, seen: set<Name>, n: Name)
    requires n in rl && n !in seen
    ensures var before := r.Minus(Of(Part(rl, seen)));
            && r.Minus(Of(Part(rl, seen + {n}))) == before.With(n, before.Get(n) - rl[n])
            && (n.Other? || before.Get(n) == r.Get(n))
  {
    PartOne(rl, seen, n);
  }

  /** Takes each named quantity away; fails, possibly half-way, when one is more than is left. */
  method Sub(r: Resource, rl: ResourceList) returns (r': Resource, ok: bool)
    ensures ok <==> forall n :: n in rl && !n.Other? ==> rl[n] <= r.Get(n)
    ensures ok ==> r' == r.Minus(Of(rl))
  {
    r' := r;
    var names, seen := rl.Keys, {};
    while names != {}
      invariant names + seen == rl.Keys && names !! seen
      invariant r' == r.Minus(Of(Part(rl, seen)))
      invariant forall n :: n in seen && !n.Other? ==> rl[n] <= r.Get(n)
      decreases names
    {
      var n :| n in names;
      SubOne(r, rl, seen, n);
      if !n.Other? && r'.Get(n) < rl[n] {
        return r', false;
      }
      r' := r'.With(n, r'.Get(n) - rl[n]);
      names, seen := names - {n}, seen + {n};
    }
    assert Part(rl, seen) == rl;
    return r', true;
  }

  // ---------- capacity ----------

  const MAX_INT64: int := 0x7FFF_FFFF_FFFF_FFFF

  function MinInt64(a: int, b: int): int {
    if a <= b then a else b
  }

  /** Division that drops the fraction, towards zero. */
  function Truncated(a: int, b: int): int
    requires b > 0
  {
    if a >= 0 then a / b else -((-a) / b)
  }

  /** The list of the positive amounts. */
  function ToList(r: Resource): (rl: ResourceList)
    ensures forall n :: n in rl <==> !n.Other? && r.Get(n) > 0
    ensures forall n :: n in rl ==> rl[n] == r.Get(n)
  {
    map n | n in {Cpu, Memory, Storage, PodCount} && r.Get(n) > 0 :: r.Get(n)
  }

  predicate Checked(n: Name) {
    n == Cpu || n == Memory || n == Storage
  }

  /** How many times the checked requests go into the resources, and no more than its pods. */
  method MaxDivided(r: Resource, rl: ResourceList) returns (res: int)
    requires r.pods <= MAX_INT64
    ensures res <= r.pods
    ensures forall n :: n in rl && Checked(n) && rl[n] > 0 ==> res <= Truncated(r.Get(n), rl[n])
    ensures res == r.pods || exists n :: n in rl && Checked(n) && rl[n] > 0 && res == Truncated(r.Get(n), rl[n])
  {
    res := MAX_INT64;
    var names := rl.Keys;
    while names != {}
      invariant names <= rl.Keys
      invariant forall n :: n in rl && n !in names && Checked(n) && rl[n] > 0 ==> res <= Truncated(r.Get(n), rl[n])
      invariant res == MAX_INT64 || exists n :: n in rl && Checked(n) && rl[n] > 0 && res == Truncated(r.Get(n), rl[n])
      decreases names
    {
      var n :| n in names;
      if Checked(n) && rl[n] > 0 {
        res := MinInt64(res, Truncated(r.Get(n), rl[n]));
      }
      names := names - {n};
    }
    res := MinInt64(res, r.pods);
  }

  /** `k` pods with that request fit: in every checked resource, and in the number of pods. */
  ghost predicate Fits(r: Resource, request: Resource, k: int) {
    k <= r.pods && forall n :: Checked(n) && request.Get(n) > 0 ==> k * request.Get(n) <= r.Get(n)
  }

  /** In full: the three resources that are looked at, where any of them is requested. */
  lemma FitsInFields(r: Resource, request: Resource, k: int)
    ensures Fits(r, request, k) <==>
            && k <= r.pods
            && (request.cpu > 0 ==> k * request.cpu <= r.cpu)
            && (request.memory > 0 ==> k * request.memory <= r.memory)
            && (request.storage > 0 ==> k * request.storage <= r.storage)
  {
    assert Checked(Cpu) && Checked(Memory) && Checked(Storage);
  }

  ghost predicate LargestFit(r: Resource, request: Resource, k: int) {
    0 <= k && Fits(r, request, k) && !Fits(r, request, k + 1)
  }

  /** Taking one request away first and dividing with truncation gives one less than the
      quotient, or the quotient itself when that is zero and something is there. */
  lemma TruncatedAfterOne(a: int, b: int)
    requires a >= 0 && b > 0
    ensures Truncated(a - b, b) == if 0 < a < b then 0 else a / b - 1
  {
    if a >= b {
      QuotientLessOne(a, b);
    } else if a > 0 {
      QuotientUnique(b - a, b, 0);
      QuotientUnique(a, b, 0);
    } else {
      QuotientUnique(b, b, 1);
      QuotientUnique(a, b, 0);
    }
  }

  lemma MulMono(x: int, y: int, b: int)
    requires x <= y && b > 0
    ensures x * b <= y * b
  {
  }

  lemma QuotientUnique(x: int, b: int, q: int)
    requires b > 0 && q * b <= x < (q + 1) * b
    ensures x / b == q
  {
    var p := x / b;
    assert p * b <= x < (p + 1) * b;
    if p < q {
      MulMono(p + 1, q, b);
    } else if q < p {
      MulMono(q + 1, p, b);
    }
  }

  lemma QuotientLessOne(a: int, b: int)
    requires a >= b > 0
    ensures (a - b) / b == a / b - 1
  {
    var q := a / b;
    assert q * b <= a < (q + 1) * b;
    assert (q - 1) * b == q * b - b && (q + 1) * b == q * b + b;
    QuotientUnique(a - b, b, q - 1);
  }

  lemma FitBound(a: int, b: int, k: int)
    requires a >= 0 && b > 0
    ensures k * b <= a <==> k <= a / b
    ensures a / b >= 0
  {
    var q := a / b;
    assert q * b <= a < (q + 1) * b;
    if k <= q {
      MulMono(k, q, b);
    } else {
      MulMono(q + 1, k, b);
    }
  }

  /** How many pods one checked resource allows, when nothing else limits them but their number. */
  function Bound(r: Resource, request: Resource, n: Name): int {
    if request.Get(n) > 0 then r.Get(n) / request.Get(n) else r.pods
  }

  /** The same, as the estimate sees it: after one request has been taken away. */
  function Share(r: Resource, request: Resource, n: Name): int {
    if request.Get(n) > 0 then Truncated(r.Get(n) - request.Get(n), request.Get(n)) else r.pods
  }

  function Least(pods: int, a: int, b: int, c: int): int {
    MinInt64(pods, MinInt64(a, MinInt64(b, c)))
  }

  function Fit(r: Resource, request: Resource): int {
    Least(r.pods, Bound(r, request, Cpu), Bound(r, request, Memory), Bound(r, request, Storage))
  }

  /** It is the largest number of pods that fit. */
  lemma FitIsLargest(r: Resource, request: Resource)
    requires r.Covers(ZERO)
    ensures LargestFit(r, request, Fit(r, request))
  {
    var k := Fit(r, request);
    forall n | Checked(n) && request.Get(n) > 0
      ensures k * request.Get(n) <= r.Get(n) && 0 <= Bound(r, request, n)
    {
      FitBound(r.Get(n), request.Get(n), k);
    }
    if k < r.pods {
      var n := if k == Bound(r, request, Cpu) then Cpu else if k == Bound(r, request, Memory) then Memory else Storage;
      FitBound(r.Get(n), request.Get(n), k + 1);
      assert Checked(n) && request.Get(n) > 0 && !((k + 1) * request.Get(n) <= r.Get(n));
    }
  }

  /** A number of pods fits exactly when it is at most that. */
  lemma FitsExactly(r: Resource, request: Resource, k: int)
    requires r.Covers(ZERO)
    ensures Fits(r, request, k) <==> k <= Fit(r, request)
  {
    forall n | Checked(n) && request.Get(n) > 0
      ensures k * request.Get(n) <= r.Get(n) <==> k <= Bound(r, request, n)
    {
      FitBound(r.Get(n), request.Get(n), k);
    }
    assert Checked(Cpu) && Checked(Memory) && Checked(Storage);
    if k <= Fit(r, request) {
      assert forall n :: Checked(n) ==> k <= Bound(r, request, n);
    }
  }

  lemma ShareSandwich(r: Resource, request: Resource, n: Name)
    requires r.Covers(ZERO)
    ensures Bound(r, request, n) - 1 <= Share(r, request, n) <= Bound(r, request, n)
  {
    if request.Get(n) > 0 {
      TruncatedAfterOne(r.Get(n), request.Get(n));
    }
  }

  lemma EstimateSandwich(r: Resource, request: Resource)
    requires r.Covers(ZERO)
    ensures Fit(r, request) - 1 <= Estimate(r, request) <= Fit(r, request)
  {
    ShareSandwich(r, request, Cpu);
    ShareSandwich(r, request, Memory);
    ShareSandwich(r, request, Storage);
  }

  /** What `NodeEstimate` computes. */
  function Estimate(r: Resource, request: Resource): int {
    Least(r.pods, Share(r, request, Cpu), Share(r, request, Memory), Share(r, request, Storage))
  }

  lemma ShareNegativeExactly(r: Resource, request: Resource, n: Name)
    requires r.Covers(ZERO) && Checked(n)
    ensures Share(r, request, n) >= -1
    ensures Share(r, request, n) == -1 <==> request.Get(n) > 0 && r.Get(n) == 0
  {
    if request.Get(n) > 0 {
      TruncatedAfterOne(r.Get(n), request.Get(n));
      FitBound(r.Get(n), request.Get(n), 1);
      if r.Get(n) == 0 {
        QuotientUnique(0, request.Get(n), 0);
      }
    }
  }

  /** A node takes at most one pod away from its region, and does so exactly when it has none of
      some requested resource: it is counted not as no room but as one pod less. */
  lemma EstimateNegativeExactly(r: Resource, request: Resource)
    requires r.Covers(ZERO)
    ensures Estimate(r, request) >= -1
    ensures Estimate(r, request) == -1 <==> exists n :: Checked(n) && request.Get(n) > 0 && r.Get(n) == 0
  {
    ShareNegativeExactly(r, request, Cpu);
    ShareNegativeExactly(r, request, Memory);
    ShareNegativeExactly(r, request, Storage);
    if Estimate(r, request) == -1 {
      var n := if Share(r, request, Cpu) == -1 then Cpu else if Share(r, request, Memory) == -1 then Memory else Storage;
      assert Checked(n) && request.Get(n) > 0 && r.Get(n) == 0;
    }
  }

  /** The least share, and no more than the pods, is the estimate. */
  lemma LeastIsEstimate(r: Resource, request: Resource, est: int)
    requires est <= r.pods && forall n :: Checked(n) && request.Get(n) > 0 ==> est <= Share(r, request, n)
    requires est == r.pods || exists n :: Checked(n) && request.Get(n) > 0 && est == Share(r, request, n)
    ensures est == Estimate(r, request)
  {
    assert Checked(Cpu) && Checked(Memory) && Checked(Storage);
  }

  method NodeEstimate(node: Resource, request: Resource) returns (est: int)
    requires node.Covers(ZERO) && node.pods <= MAX_INT64
    requires request.Covers(ZERO) && request.pods == 0
    ensures est == Estimate(node, request)
    ensures Fit(node, request) - 1 <= est <= Fit(node, request)
  {
    var left, rl := node.Minus(request), ToList(request);
    est := MaxDivided(left, rl);
    forall n | Checked(n) && request.Get(n) > 0 ensures n in rl && est <= Share(node, request, n) {
      assert left.Get(n) == node.Get(n) - request.Get(n);
    }
    LeastIsEstimate(node, request, est);
    EstimateSandwich(node, request);
  }

  // ---------- a region ----------

  /** Pods that fit on all the nodes together. */
  function FitTotal(nodes: seq<Resource>, request: Resource): int {
    if nodes == [] then 0 else Fit(nodes[0], request) + FitTotal(nodes[1..], request)
  }

  function EstimateTotal(nodes: seq<Resource>, request: Resource): int {
    if nodes == [] then 0 else Estimate(nodes[0], request) + EstimateTotal(nodes[1..], request)
  }

  /** The number of pods a region is taken to have room for: nothing when it failed, else the sum
      of its nodes' estimates, negative ones included. It is the number of pods that fit, short by at most one per node. */
  method RegionAllocatablePods(failed: bool, nodes: seq<Resource>, request: Resource) returns (num: int)
    requires forall i :: 0 <= i < |nodes| ==> nodes[i].Covers(ZERO) && nodes[i].pods <= MAX_INT64
    requires request.Covers(ZERO) && request.pods == 0
    ensures failed ==> num == 0
    ensures !failed ==> num == EstimateTotal(nodes, request)
    ensures !failed ==> FitTotal(nodes, request) - |nodes| <= num <= FitTotal(nodes, request)
  {
    num := 0;
    if failed {
      return;
    }
    for i := 0 to |nodes|
      invariant num + EstimateTotal(nodes[i..], request) == EstimateTotal(nodes, request)
      invariant FitTotal(nodes, request) - i <= num + FitTotal(nodes[i..], request) <= FitTotal(nodes, request)
    {
      var est := NodeEstimate(nodes[i], request);
      num := num + est;
    }
  }
}
