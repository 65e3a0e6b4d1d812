/** What a scoring cycle computes for one service, as a function of the cluster
    snapshot; and why neither the order of the nodes nor the iteration order of any
    Go map has a say in it. */
module ScorerSpec {
  import opened NodeModel
  import opened Sorting
  import opened Percentiles
  import opened Names
  import opened Criticality
  import opened ScoringRules

  const HARD_CAP := 0.85
  const DEFAULT_REQUEST := PodRequest(100, 134217728)

  datatype PodRequest = PodRequest(cpu: int, mem: int)

  datatype NodeRuntime = NodeRuntime(
    ready: bool,
    schedulable: bool,
    allocCpu: int,
    allocMem: int,
    usedCpu: int,
    usedMem: int,
    services: set<string>,
    podsByService: map<string, nat>,
    serviceResources: map<string, seq<PodRequest>>,
    taints: seq<Taint>)

  type Runtime = map<string, NodeRuntime>

  // ----- candidate nodes -----

  predicate HasBlockingTaints(runtime: Runtime, node: string) {
    node in runtime && exists t | t in runtime[node].taints :: Blocks(t)
  }

  function Untainted(runtime: Runtime): string -> bool {
    node => !HasBlockingTaints(runtime, node)
  }

  /** The untainted nodes, or all of them when every node is tainted. */
  function TargetNodes(nodes: seq<string>, runtime: Runtime): seq<string> {
    if Filter(Untainted(runtime), nodes) == [] then nodes else Filter(Untainted(runtime), nodes)
  }

  function Projected(used: int, request: int, alloc: int): real
    requires 0 < alloc
  {
    (used + request) as real / alloc as real
  }

  predicate Measurable(runtime: Runtime, node: string) {
    node in runtime && 0 < runtime[node].allocCpu && 0 < runtime[node].allocMem
  }

  predicate IsFeasible(runtime: Runtime, node: string, request: PodRequest) {
    && Measurable(runtime, node)
    && runtime[node].ready && runtime[node].schedulable
    && Projected(runtime[node].usedCpu, request.cpu, runtime[node].allocCpu) <= HARD_CAP
    && Projected(runtime[node].usedMem, request.mem, runtime[node].allocMem) <= HARD_CAP
  }

  function Fits(runtime: Runtime, request: PodRequest): string -> bool {
    node => IsFeasible(runtime, node, request)
  }

  function FeasibleNodes(nodes: seq<string>, runtime: Runtime, request: PodRequest): seq<string> {
    Filter(Fits(runtime, request), TargetNodes(nodes, runtime))
  }

  lemma TimesKeepsOrder(x: real, y: real, factor: real)
    requires 0.0 < factor
    ensures x < y ==> x * factor < y * factor
  {
  }

  lemma QuotientAtMost(x: real, y: real, cap: real)
    requires 0.0 < y
    ensures x / y <= cap <==> x <= cap * y
  {
    var q := x / y;
    assert q * y == x;
    TimesKeepsOrder(q, cap, y);
    TimesKeepsOrder(cap, q, y);
  }

  /** In integers: the projected share stays within 85 of 100. */
  lemma WithinCap(used: int, request: int, alloc: int)
    requires 0 < alloc
    ensures Projected(used, request, alloc) <= HARD_CAP <==> 100 * (used + request) <= 85 * alloc
  {
    var sum, total := (used + request) as real, alloc as real;
    QuotientAtMost(sum, total, HARD_CAP);
    assert HARD_CAP * total == 85.0 * total / 100.0;
    assert sum <= 85.0 * total / 100.0 <==> 100.0 * sum <= 85.0 * total;
    assert 100.0 * sum == (100 * (used + request)) as real && 85.0 * total == (85 * alloc) as real;
  }

  /** A listed node may take the request: it is free of NoSchedule and NoExecute taints, or
      every listed node has one; it is ready and schedulable; and with the request at most
      85% of either resource would be used. */
  ghost predicate MayTake(nodes: seq<string>, runtime: Runtime, request: PodRequest, node: string) {
    && node in nodes && node in runtime
    && (|| (forall t :: t in runtime[node].taints ==> t.effect == PreferNoSchedule)
        || (forall m :: m in nodes ==> m in runtime && exists t :: t in runtime[m].taints && t.effect != PreferNoSchedule))
    && runtime[node].ready && runtime[node].schedulable
    && 0 < runtime[node].allocCpu && 100 * (runtime[node].usedCpu + request.cpu) <= 85 * runtime[node].allocCpu
    && 0 < runtime[node].allocMem && 100 * (runtime[node].usedMem + request.mem) <= 85 * runtime[node].allocMem
  }

  lemma TargetsExactly(nodes: seq<string>, runtime: Runtime, node: string)
    ensures node in TargetNodes(nodes, runtime) <==>
              && node in nodes
              && (|| (node in runtime ==> forall t :: t in runtime[node].taints ==> t.effect == PreferNoSchedule)
                  || (forall m :: m in nodes ==> m in runtime && exists t :: t in runtime[m].taints && t.effect != PreferNoSchedule))
  {
    var untainted := Filter(Untainted(runtime), nodes);
    FilterMembers(Untainted(runtime), nodes);
    if untainted != [] {
      assert untainted[0] in untainted;
    }
  }

  /** The feasible nodes are exactly those that may take the request. */
  lemma FeasibleExactly(nodes: seq<string>, runtime: Runtime, request: PodRequest, node: string)
    ensures node in FeasibleNodes(nodes, runtime, request) <==> MayTake(nodes, runtime, request, node)
  {
    FilterMembers(Fits(runtime, request), TargetNodes(nodes, runtime));
    TargetsExactly(nodes, runtime, node);
    if Measurable(runtime, node) {
      WithinCap(runtime[node].usedCpu, request.cpu, runtime[node].allocCpu);
      WithinCap(runtime[node].usedMem, request.mem, runtime[node].allocMem);
    }
  }

  /** Scored are the nodes that may take the request, and no others. */
  ghost predicate ScoredExactly(scores: map<string, int>, nodes: seq<string>, runtime: Runtime, request: PodRequest) {
    forall n :: n in scores <==> MayTake(nodes, runtime, request, n)
  }

  lemma NoneFeasible(nodes: seq<string>, runtime: Runtime, request: PodRequest)
    ensures FeasibleNodes(nodes, runtime, request) == [] <==> ScoredExactly(map[], nodes, runtime, request)
  {
    var feasible := FeasibleNodes(nodes, runtime, request);
    forall n ensures n in feasible <==> MayTake(nodes, runtime, request, n) {
      FeasibleExactly(nodes, runtime, request, n);
    }
    var none: map<string, int> := map[];
    if feasible == [] {
      forall n ensures n in none <==> MayTake(nodes, runtime, request, n) {
      }
    } else {
      assert feasible[0] in feasible && MayTake(nodes, runtime, request, feasible[0]);
      assert feasible[0] !in none;
    }
  }

  // ----- the request estimated for a new pod -----

  function SamplesOn(rt: NodeRuntime, service: string): seq<PodRequest> {
    if service in rt.serviceResources then rt.serviceResources[service] else []
  }

  function Samples(runtime: Runtime, service: string, listing: seq<string>): seq<PodRequest> {
    if listing == [] then []
    else
      var last := listing[|listing| - 1];
      Samples(runtime, service, listing[..|listing| - 1])
      + if last in runtime then SamplesOn(runtime[last], service) else []
  }

  function CpuOf(r: PodRequest): int {
    r.cpu
  }

  function MemOf(r: PodRequest): int {
    r.mem
  }

  function EstimateFrom(samples: seq<PodRequest>): PodRequest {
    if samples == [] then DEFAULT_REQUEST
    else PodRequest(Median(Map(CpuOf, samples)), Median(Map(MemOf, samples)))
  }

  ghost function EstimateRequest(runtime: Runtime, service: string): PodRequest {
    EstimateFrom(Samples(runtime, ToLower(service), Listing(runtime.Keys)))
  }

  lemma {:induction false} SamplesOfConcat(runtime: Runtime, service: string, a: seq<string>, b: seq<string>)
    ensures Samples(runtime, service, a + b) == Samples(runtime, service, a) + Samples(runtime, service, b)
  {
    if b == [] {
      assert a + b == a;
    } else {
      SamplesOfConcat(runtime, service, a, b[..|b| - 1]);
      assert (a + b)[..|a + b| - 1] == a + b[..|b| - 1];
    }
  }

  lemma {:induction false} SamplesPermute(runtime: Runtime, service: string, a: seq<string>, b: seq<string>)
    requires multiset(a) == multiset(b)
    ensures multiset(Samples(runtime, service, a)) == multiset(Samples(runtime, service, b))
  {
    if a == [] {
      assert |multiset(b)| == 0;
    } else {
      var j := LastIn(a, b);
      SamplesPermute(runtime, service, a[..|a| - 1], b[..j] + b[j + 1..]);
      SamplesOfConcat(runtime, service, b[..j], b[j + 1..]);
      SamplesOfConcat(runtime, service, b[..j] + [b[j]], b[j + 1..]);
      SamplesOfConcat(runtime, service, b[..j], [b[j]]);
    }
  }

  lemma {:induction false} SamplesAre(runtime: Runtime, service: string, listing: seq<string>)
    ensures forall r :: r in Samples(runtime, service, listing) <==>
              exists n :: n in listing && n in runtime && service in runtime[n].serviceResources && r in runtime[n].serviceResources[service]
  {
    if listing != [] {
      SamplesAre(runtime, service, listing[..|listing| - 1]);
      assert listing == listing[..|listing| - 1] + [listing[|listing| - 1]];
    }
  }

  /** The request estimated for a new pod: a default when the service has no samples, and
      otherwise, of each resource, an amount that splits the samples of all its pods. */
  ghost predicate EstimatesWell(r: PodRequest, runtime: Runtime, service: string) {
    var samples := Samples(runtime, ToLower(service), Listing(runtime.Keys));
    && (samples == [] ==> r == PodRequest(100, 128 * 1024 * 1024))
    && (samples != [] ==>
          && Splits(r.cpu, Map((q: PodRequest) => q.cpu, samples))
          && Splits(r.mem, Map((q: PodRequest) => q.mem, samples)))
    && forall q :: q in samples <==>
         exists n :: n in runtime && ToLower(service) in runtime[n].serviceResources && q in runtime[n].serviceResources[ToLower(service)]
  }

  lemma EstimateSplits(runtime: Runtime, service: string)
    ensures EstimatesWell(EstimateRequest(runtime, service), runtime, service)
  {
    var samples := Samples(runtime, ToLower(service), Listing(runtime.Keys));
    SamplesAre(runtime, ToLower(service), Listing(runtime.Keys));
    ListingMembers(runtime.Keys);
    MedianOfSplits(samples, CpuOf, (q: PodRequest) => q.cpu);
    MedianOfSplits(samples, MemOf, (q: PodRequest) => q.mem);
  }

  lemma MedianOfSplits<T>(samples: seq<T>, f: T -> int, g: T -> int)
    requires forall x :: x in samples ==> f(x) == g(x)
    ensures Splits(Median(Map(f, samples)), Map(g, samples))
  {
    SameMap(f, g, samples);
    MedianSplits(Map(f, samples));
  }

  lemma EstimatePermutes(a: seq<PodRequest>, b: seq<PodRequest>)
    requires multiset(a) == multiset(b)
    ensures EstimateFrom(a) == EstimateFrom(b)
  {
    SameMembers(a, b);
    MapPermutes(CpuOf, a, b);
    MapPermutes(MemOf, a, b);
    MedianPermutes(Map(CpuOf, a), Map(CpuOf, b));
    MedianPermutes(Map(MemOf, a), Map(MemOf, b));
  }

  // ----- facts about the nodes -----

  /** Everything but the candidate list that the scores depend on. */
  datatype Setting = Setting(
    runtime: Runtime,
    service: string,
    request: PodRequest,
    peers: seq<PeerWeight>,
    byService: map<string, real>,
    criticality: real,
    selections: map<string, nat>,
    log1p: nat -> real)

  function PodsOf(rt: NodeRuntime, service: string): nat {
    if service in rt.podsByService then rt.podsByService[service] else 0
  }

  function Locality(rt: NodeRuntime, peers: seq<PeerWeight>, log1p: nat -> real): real {
    if peers == [] then 0.0
    else
      var last := peers[|peers| - 1];
      Locality(rt, peers[..|peers| - 1], log1p) + last.weight * log1p(PodsOf(rt, last.service))
  }

  function CountIn(selections: map<string, nat>): string -> nat {
    node => if node in selections then selections[node] else 0
  }

  function ValueIn(values: map<string, real>): string -> real {
    key => if key in values then values[key] else 0.0
  }

  /** The criticality of all services on a node together. */
  ghost function Mass(rt: NodeRuntime, byService: map<string, real>): real {
    Sum(Map(ValueIn(byService), Listing(rt.services)))
  }

  ghost function Facts(g: Setting, node: string): NodeFacts
    requires Measurable(g.runtime, node)
  {
    var rt := g.runtime[node];
    NodeFacts(
      Locality(rt, g.peers, g.log1p),
      Projected(rt.usedCpu, g.request.cpu, rt.allocCpu),
      Projected(rt.usedMem, g.request.mem, rt.allocMem),
      PodsOf(rt, g.service),
      |rt.services|,
      CountIn(g.selections)(node),
      Mass(rt, g.byService))
  }

  /** What one peer adds to a node's locality. */
  ghost function Pull(rt: NodeRuntime, log1p: nat -> real): PeerWeight -> real {
    (p: PeerWeight) => p.weight * log1p(if p.service in rt.podsByService then rt.podsByService[p.service] else 0)
  }

  /** What is measured on a node: the weighted peers on it, its projected shares, the
      service's pods and all services on it, its picks so far, and the criticality of its
      services together, where a service nobody has scored counts for nothing. */
  lemma FactsExactly(g: Setting, node: string)
    requires Measurable(g.runtime, node)
    ensures var f, rt := Facts(g, node), g.runtime[node];
            && f.locality == Sum(Map(Pull(rt, g.log1p), g.peers))
            && f.projectedCpu == (rt.usedCpu + g.request.cpu) as real / rt.allocCpu as real
            && f.projectedMem == (rt.usedMem + g.request.mem) as real / rt.allocMem as real
            && f.replicas == (if g.service in rt.podsByService then rt.podsByService[g.service] else 0)
            && f.services == |rt.services|
            && f.selections == (if node in g.selections then g.selections[node] else 0)
            && f.mass == Sum(Map((svc: string) => if svc in g.byService then g.byService[svc] else 0.0, Listing(rt.services)))
  {
    var rt := g.runtime[node];
    LocalityIsSum(rt, g.peers, g.log1p);
    SameMap(ValueIn(g.byService), (svc: string) => if svc in g.byService then g.byService[svc] else 0.0, Listing(rt.services));
  }

  lemma {:induction false} LocalityIsSum(rt: NodeRuntime, peers: seq<PeerWeight>, log1p: nat -> real)
    ensures Locality(rt, peers, log1p) == Sum(Map(Pull(rt, log1p), peers))
  {
    if peers != [] {
      LocalityIsSum(rt, peers[..|peers| - 1], log1p);
      SumOneMore(Map(Pull(rt, log1p), peers[..|peers| - 1]), Pull(rt, log1p)(peers[|peers| - 1]));
    }
  }

  ghost function FactsAt(g: Setting): string -> NodeFacts {
    node => if Measurable(g.runtime, node) then Facts(g, node) else NodeFacts(0.0, 0.0, 0.0, 0, 0, 0, 0.0)
  }

  function LocalityOf(f: NodeFacts): real {
    f.locality
  }

  function MassOf(f: NodeFacts): real {
    f.mass
  }

  function ServicesOf(f: NodeFacts): nat {
    f.services
  }

  function FieldOf(facts: seq<NodeFacts>, maxSelections: nat, criticality: real): Field {
    Field(Band(Map(LocalityOf, facts)), Band(Map(MassOf, facts)), Max(Map(ServicesOf, facts)), maxSelections, criticality)
  }

  /** How often the most selected node has been picked in this cycle. */
  ghost function MostSelected(selections: map<string, nat>): nat {
    Max(Map(CountIn(selections), Listing(selections.Keys)))
  }

  ghost function FieldAt(g: Setting, feasible: seq<string>): Field {
    FieldOf(Map(FactsAt(g), feasible), MostSelected(g.selections), g.criticality)
  }

  /** What the feasible nodes are compared against: the bands of their localities and of their
      critical masses, the most services on one of them, and the most picks of any node. */
  lemma FieldExactly(g: Setting, feasible: seq<string>)
    ensures var field, facts := FieldAt(g, feasible), Map(FactsAt(g), feasible);
            && field.localityBand == Band(Map((f: NodeFacts) => f.locality, facts))
            && field.massBand == Band(Map((f: NodeFacts) => f.mass, facts))
            && field.criticality == g.criticality
            && (forall f :: f in facts ==> f.services <= field.maxServices)
            && (field.maxServices == 0 || exists f :: f in facts && f.services == field.maxServices)
            && (forall n :: n in g.selections ==> g.selections[n] <= field.maxSelections)
            && (field.maxSelections == 0 || exists n :: n in g.selections && g.selections[n] == field.maxSelections)
  {
    var facts := Map(FactsAt(g), feasible);
    SameMap(LocalityOf, (f: NodeFacts) => f.locality, facts);
    SameMap(MassOf, (f: NodeFacts) => f.mass, facts);
    MaxOfMap(ServicesOf, facts);
    assert forall f :: f in facts ==> f.services == ServicesOf(f);
    MostSelectedExactly(g.selections);
  }

  lemma MostSelectedExactly(selections: map<string, nat>)
    ensures forall n :: n in selections ==> selections[n] <= MostSelected(selections)
    ensures MostSelected(selections) == 0 || exists n :: n in selections && selections[n] == MostSelected(selections)
  {
    MaxOfMap(CountIn(selections), Listing(selections.Keys));
    ListingMembers(selections.Keys);
    assert forall n :: n in selections ==> selections[n] == CountIn(selections)(n);
  }

  ghost function Scores(g: Setting, feasible: seq<string>): map<string, int> {
    map n | n in feasible :: Score(FactsAt(g)(n), FieldAt(g, feasible))
  }

  lemma ScoresAreExact(g: Setting, nodes: seq<string>)
    ensures ScoredExactly(Scores(g, FeasibleNodes(nodes, g.runtime, g.request)), nodes, g.runtime, g.request)
  {
    var scores := Scores(g, FeasibleNodes(nodes, g.runtime, g.request));
    forall n ensures n in scores <==> MayTake(nodes, g.runtime, g.request, n) {
      FeasibleExactly(nodes, g.runtime, g.request, n);
    }
  }

  /** The lexicographically least among the nodes of highest score. */
  ghost predicate IsBest(scores: map<string, int>, best: string) {
    && best in scores
    && forall n :: n in scores ==> scores[n] < scores[best] || (scores[n] == scores[best] && LexLe(best, n))
  }

  // ----- theorems -----

  lemma {:induction false} ListedAtMostMax(f: string -> nat, listing: seq<string>, x: string)
    requires x in listing
    ensures f(x) <= Max(Map(f, listing))
  {
    if listing[|listing| - 1] != x {
      assert x in listing[..|listing| - 1];
      ListedAtMostMax(f, listing[..|listing| - 1], x);
    }
  }

  lemma SelectedAtMostMost(selections: map<string, nat>, node: string)
    ensures CountIn(selections)(node) <= MostSelected(selections)
  {
    if node in selections {
      ListingLists(selections.Keys);
      assert node in multiset(Listing(selections.Keys));
      ListedAtMostMax(CountIn(selections), Listing(selections.Keys), node);
    }
  }

  lemma {:induction false} ServicesAtMostMax(facts: seq<NodeFacts>, i: nat)
    requires i < |facts|
    ensures facts[i].services <= Max(Map(ServicesOf, facts))
  {
    if i < |facts| - 1 {
      ServicesAtMostMax(facts[..|facts| - 1], i);
    }
  }

  /** Every feasible node's facts lie within the field they are compared in. */
  lemma FeasibleInField(g: Setting, feasible: seq<string>, node: string)
    requires node in feasible && 0.0 <= g.criticality <= 1.0
    ensures InField(FactsAt(g)(node), FieldAt(g, feasible))
  {
    var i :| 0 <= i < |feasible| && feasible[i] == node;
    MapAt(FactsAt(g), feasible);
    var facts := Map(FactsAt(g), feasible);
    ServicesAtMostMax(facts, i);
    SelectedAtMostMost(g.selections, node);
    assert FactsAt(g)(node).selections <= MostSelected(g.selections);
    BandOrdered(Map(LocalityOf, facts));
    BandOrdered(Map(MassOf, facts));
  }

  /** Whatever the metrics, the cycle state and the cluster, every feasible node scores
      between 15 and 100. */
  lemma AllScoresInRange(g: Setting, feasible: seq<string>, node: string)
    requires node in feasible && 0.0 <= g.criticality <= 1.0
    ensures node in Scores(g, feasible) && 15 <= Scores(g, feasible)[node] <= 100
  {
    FeasibleInField(g, feasible, node);
    ScoreBounds(FactsAt(g)(node), FieldAt(g, feasible));
  }

  /** A feasible node that is no worse than another in any respect scores no less. */
  lemma {:induction false} NoWorseScoresNoLess(g: Setting, feasible: seq<string>, a: string, b: string)
    requires a in feasible && b in feasible && 0.0 <= g.criticality <= 1.0
    requires NoWorse(FactsAt(g)(a), FactsAt(g)(b))
    ensures Scores(g, feasible)[a] >= Scores(g, feasible)[b]
  {
    FeasibleInField(g, feasible, a);
    FeasibleInField(g, feasible, b);
    Dominance(FactsAt(g)(a), FactsAt(g)(b), FieldAt(g, feasible));
  }

  lemma FieldPermutes(a: seq<NodeFacts>, b: seq<NodeFacts>, maxSelections: nat, criticality: real)
    requires multiset(a) == multiset(b)
    ensures FieldOf(a, maxSelections, criticality) == FieldOf(b, maxSelections, criticality)
  {
    MapPermutes(LocalityOf, a, b);
    MapPermutes(MassOf, a, b);
    MapPermutes(ServicesOf, a, b);
    BandPermutes(Map(LocalityOf, a), Map(LocalityOf, b));
    BandPermutes(Map(MassOf, a), Map(MassOf, b));
    MaxPermutes(Map(ServicesOf, a), Map(ServicesOf, b));
  }

  lemma FeasiblePermutes(a: seq<string>, b: seq<string>, runtime: Runtime, request: PodRequest)
    requires multiset(a) == multiset(b)
    ensures multiset(FeasibleNodes(a, runtime, request)) == multiset(FeasibleNodes(b, runtime, request))
  {
    FilterPermutes(Untainted(runtime), a, b);
    SameMembers(Filter(Untainted(runtime), a), Filter(Untainted(runtime), b));
    FilterPermutes(Fits(runtime, request), TargetNodes(a, runtime), TargetNodes(b, runtime));
  }

  lemma {:induction false} ScoresPermute(g: Setting, a: seq<string>, b: seq<string>)
    requires multiset(a) == multiset(b)
    ensures Scores(g, a) == Scores(g, b)
  {
    SameMembers(a, b);
    MapPermutes(FactsAt(g), a, b);
    FieldPermutes(Map(FactsAt(g), a), Map(FactsAt(g), b), MostSelected(g.selections), g.criticality);
  }

  lemma BestIsUnique(scores: map<string, int>, a: string, b: string)
    requires IsBest(scores, a) && IsBest(scores, b)
    ensures a == b
  {
    LexAntisymmetric(a, b);
  }

  /** Permuting the node list (which Go builds from a map) changes neither the scores
      nor the best node. */
  lemma {:induction false} OrderIndependence(g: Setting, nodes: seq<string>, permuted: seq<string>)
    requires multiset(nodes) == multiset(permuted)
    ensures ScoresOf(g, nodes) == ScoresOf(g, permuted)
    ensures forall a, b :: IsBest(ScoresOf(g, nodes), a) && IsBest(ScoresOf(g, permuted), b) ==> a == b
  {
    FeasiblePermutes(nodes, permuted, g.runtime, g.request);
    ScoresPermute(g, FeasibleNodes(nodes, g.runtime, g.request), FeasibleNodes(permuted, g.runtime, g.request));
    forall a, b | IsBest(ScoresOf(g, nodes), a) && IsBest(ScoresOf(g, permuted), b) ensures a == b {
      BestIsUnique(ScoresOf(g, nodes), a, b);
    }
  }

  ghost function ScoresOf(g: Setting, nodes: seq<string>): map<string, int> {
    Scores(g, FeasibleNodes(nodes, g.runtime, g.request))
  }

  // ----- a cluster in which the lower clamp acts -----

  /** An idle node without peers, off target, where the service runs twice and which has been
      picked three times; and an idle one next to it that runs the service's peer. */
  function Lopsided(log1p: nat -> real): Setting {
    Setting(
      map["a" := NodeRuntime(true, true, 1000, 1000, 200, 200, {"s"}, map["s" := 2], map[], []),
          "b" := NodeRuntime(true, true, 1000, 1000, 200, 200, {}, map["q" := 1], map[], [])],
      "s", PodRequest(100, 100), [PeerWeight("q", 1.0)], map["s" := 1.0], 1.0, map["a" := 3], log1p)
  }

  lemma SortOfTwo(x: real, y: real)
    requires x < y
    ensures Sort([x, y], RealLe) == [x, y] && Sort([y, x], RealLe) == [x, y]
  {
    var sorted := [x, y];
    assert Sorted(sorted, RealLe);
    SortIs([x, y], sorted, RealLe);
    assert multiset([y, x]) == multiset(sorted);
    SortIs([y, x], sorted, RealLe);
  }

  lemma NormOfEnds(x: real, d: real)
    requires 0.0 < d
    ensures Norm(x, x + 0.05 * d, x + 0.95 * d) == 0.0 && Norm(x + d, x + 0.05 * d, x + 0.95 * d) == 1.0
  {
    var width := 0.9 * d;
    Divided(width, 0.95 * d, width);
    WholeShare(width);
    Divided(-0.05 * d, 0.0, width);
    assert -0.05 * d / width < 0.0;
  }

  /** Of two different values one lies at the bottom of the band and one at the top. */
  lemma BandOfTwo(x: real, y: real)
    requires x < y
    ensures var band := Band([x, y]); Band([y, x]) == band && Norm(x, band.0, band.1) == 0.0 && Norm(y, band.0, band.1) == 1.0
  {
    SortOfTwo(x, y);
    assert Percentile([x, y], 0.05) == x + 0.05 * (y - x);
    assert Percentile([x, y], 0.95) == x + 0.95 * (y - x);
    NormOfEnds(x, y - x);
  }

  lemma ListingOfOne(x: string)
    ensures Listing({x}) == [x] && Listing<string>({}) == []
  {
    ListingLists({x});
    ListingLists<string>({});
    assert multiset({x}) == multiset([x]);
  }

  lemma LopsidedFacts(log1p: nat -> real)
    requires log1p(0) == 0.0
    ensures FactsAt(Lopsided(log1p))("a") == NodeFacts(0.0, 0.3, 0.3, 2, 1, 3, 1.0)
    ensures FactsAt(Lopsided(log1p))("b") == NodeFacts(log1p(1), 0.3, 0.3, 0, 0, 0, 0.0)
  {
    var g := Lopsided(log1p);
    ListingOfOne("s");
    assert Measurable(g.runtime, "a") && Measurable(g.runtime, "b");
    assert g.peers[..0] == [];
    assert ["s"][..0] == [];
    assert Map(ValueIn(g.byService), ["s"]) == [1.0];
    assert [1.0][..0] == [];
    assert Mass(g.runtime["a"], g.byService) == 1.0;
    assert Mass(g.runtime["b"], g.byService) == 0.0;
    assert Locality(g.runtime["a"], g.peers, log1p) == 0.0 + 1.0 * log1p(0);
    assert Locality(g.runtime["b"], g.peers, log1p) == 0.0 + 1.0 * log1p(1);
  }

  lemma FieldOfTwo(f: NodeFacts, g: NodeFacts, maxSelections: nat, criticality: real)
    ensures FieldOf([f, g], maxSelections, criticality)
         == Field(Band([f.locality, g.locality]), Band([f.mass, g.mass]),
                  if g.services > f.services then g.services else f.services, maxSelections, criticality)
  {
    MapOfTwo(LocalityOf, f, g);
    MapOfTwo(MassOf, f, g);
    MapOfTwo(ServicesOf, f, g);
    MaxOfTwo(f.services, g.services);
  }

  lemma MostSelectedOfOne(node: string, count: nat)
    ensures MostSelected(map[node := count]) == count
  {
    var selections := map[node := count];
    ListingOfOne(node);
    assert selections.Keys == {node};
    MapOfTwo(CountIn(selections), node, node);
    MaxOfTwo(count, count);
  }

  lemma LopsidedField(log1p: nat -> real)
    requires log1p(0) == 0.0
    ensures FieldAt(Lopsided(log1p), ["a", "b"]) == Field(Band([0.0, log1p(1)]), Band([1.0, 0.0]), 1, 3, 1.0)
  {
    var g := Lopsided(log1p);
    LopsidedFacts(log1p);
    MapOfTwo(FactsAt(g), "a", "b");
    FieldOfTwo(FactsAt(g)("a"), FactsAt(g)("b"), 3, 1.0);
    MostSelectedOfOne("a", 3);
  }

  /** The lower clamp does act in a real cluster, whatever increasing function stands for the
      logarithm: both nodes are feasible, and the idle one's raw score is negative. */
  lemma {:induction false} LowerClampActs(log1p: nat -> real)
    requires log1p(0) == 0.0 && 0.0 < log1p(1)
    ensures var g := Lopsided(log1p);
            var feasible := ["a", "b"];
            && FeasibleNodes(feasible, g.runtime, g.request) == feasible
            && RawScore(FactsAt(g)("a"), FieldAt(g, feasible)) < 0.0
            && Scores(g, feasible)["a"] == 15
  {
    var g := Lopsided(log1p);
    LopsidedFacts(log1p);
    LopsidedField(log1p);
    BandOfTwo(0.0, log1p(1));
    BandOfTwo(0.0, 1.0);
    LopsidedFeasible(log1p);
    LonelyIsNegative(FactsAt(g)("a"), FieldAt(g, ["a", "b"]));
    FeasibleInField(g, ["a", "b"], "a");
    ScoreBounds(FactsAt(g)("a"), FieldAt(g, ["a", "b"]));
  }

  lemma LopsidedNodes(log1p: nat -> real, node: string)
    requires node in {"a", "b"}
    ensures var g := Lopsided(log1p); Untainted(g.runtime)(node) && Fits(g.runtime, g.request)(node)
  {
    var rt := Lopsided(log1p).runtime[node];
    assert rt.taints == [] && Projected(200, 100, 1000) == 0.3;
  }

  lemma LopsidedFeasible(log1p: nat -> real)
    ensures var g := Lopsided(log1p); FeasibleNodes(["a", "b"], g.runtime, g.request) == ["a", "b"]
  {
    var g := Lopsided(log1p);
    LopsidedNodes(log1p, "a");
    LopsidedNodes(log1p, "b");
    FilterOfTwo(Untainted(g.runtime), "a", "b");
    FilterOfTwo(Fits(g.runtime, g.request), "a", "b");
  }
}
