/** The scoring of one service as the scorer carries it out, loop by loop, against the
    specification in ScorerSpec. Iteration over a Go map picks its next key freely. */
module Scorer {
  import opened Wrappers
  import opened NodeModel
  import opened Sorting
  import opened Percentiles
  import opened Reals
  import opened Names
  import opened Criticality
  import opened ScoringRules
  import opened ScorerSpec

  /** Best-node selections so far in this cycle. */
  class CycleState {
    var nodeSelections: map<string, nat>

    constructor ()
      ensures nodeSelections == map[]
    {
      nodeSelections := map[];
    }

    method Count(node: string)
      modifies this
      ensures nodeSelections == OneMore(old(nodeSelections), node)
    {
      nodeSelections := nodeSelections[node := CountIn(nodeSelections)(node) + 1];
    }
  }

  function OneMore(selections: map<string, nat>, node: string): map<string, nat> {
    selections[node := CountIn(selections)(node) + 1]
  }

  /** What the providers answer; a failed call answers nothing. The runtime is read a second
      time when a neutral decision is written; whether a node is a worker is read off its
      name and labels. */
  datatype Snapshot = Snapshot(
    centrality: Option<seq<CentralityScore>>,
    catalog: Option<seq<ServiceEntry>>,
    outgoing: Option<seq<Peer>>,
    incoming: Option<seq<Peer>>,
    runtime: Option<Runtime>,
    preference: Option<string>,
    log1p: nat -> real,
    runtimeAgain: Option<Runtime>,
    worker: string -> bool)

  datatype Status = Scheduled | NoMetrics

  datatype Decision = Decision(
    status: Status,
    bestNode: string,
    preferredNode: string,
    scores: map<string, int>,
    currentNodes: seq<string>)

  function Hosts(runtime: Runtime, key: string): string -> bool {
    node => node in runtime && PodsOf(runtime[node], key) > 0
  }

  /** The nodes a service runs on, by name. */
  ghost function RunsOn(runtime: Runtime, service: string): seq<string> {
    Sort(Filter(Hosts(runtime, ToLower(service)), Listing(runtime.Keys)), LexLe)
  }

  /** Sorted by name, and exactly the nodes with a pod of the service. */
  lemma RunsOnExactly(runtime: Runtime, service: string)
    ensures Sorted(RunsOn(runtime, service), LexLe)
    ensures var key := ToLower(service);
            forall n :: n in RunsOn(runtime, service) <==>
                          n in runtime && key in runtime[n].podsByService && runtime[n].podsByService[key] > 0
  {
    var hosts := Filter(Hosts(runtime, ToLower(service)), Listing(runtime.Keys));
    FilterMembers(Hosts(runtime, ToLower(service)), Listing(runtime.Keys));
    ListingMembers(runtime.Keys);
    LexTotalOrder();
    SortSorts(hosts, LexLe);
    SameMembers(Sort(hosts, LexLe), hosts);
  }

  function OrNothing(runtime: Option<Runtime>): Runtime {
    match runtime
    case None => map[]
    case Some(r) => r
  }

  /** The neutral decision: untainted nodes, or all, at 50 for a worker and 30 for another
      node; the least name is best, whatever its score. */
  ghost predicate IsNeutral(d: Decision, s: Snapshot, service: string, nodes: seq<string>) {
    var runtime := OrNothing(s.runtimeAgain);
    var targets := TargetNodes(nodes, runtime);
    && d.status.NoMetrics? && d.preferredNode == "" && d.currentNodes == RunsOn(runtime, service)
    && d.scores.Keys == (set n | n in targets)
    && (forall n :: n in targets ==> d.scores[n] == if s.worker(n) then 50 else 30)
    && (if targets == [] then d.bestNode == "" else IsLeast(d.bestNode, targets))
  }

  ghost predicate IsLeast(best: string, nodes: seq<string>) {
    best in nodes && forall n :: n in nodes ==> LexLe(best, n)
  }

  function OrEmpty<T>(o: Option<seq<T>>): seq<T> {
    if o.Some? then o.value else []
  }

  /** The setting a snapshot and a cycle state determine for a service. */
  ghost function SettingOf(s: Snapshot, topK: int, service: string, selections: map<string, nat>): Setting
    requires s.runtime.Some?
  {
    var byService := CriticalityMap(OrEmpty(s.centrality), ScaleOf(OrEmpty(s.centrality), OrEmpty(s.catalog)));
    Setting(
      s.runtime.value,
      ToLower(service),
      EstimateRequest(s.runtime.value, service),
      TopPeers(AddRates(AddRates(map[], OrEmpty(s.outgoing)), OrEmpty(s.incoming)), topK),
      byService,
      TargetCriticality(byService, service),
      selections,
      s.log1p)
  }

  /** Which answers the setting is made of: what failed counts as empty, and the service's
      name and its peers' are compared in lower case. */
  lemma SettingExactly(s: Snapshot, topK: int, service: string, selections: map<string, nat>)
    requires s.runtime.Some?
    ensures var g := SettingOf(s, topK, service, selections);
            var centrality: seq<CentralityScore> := match s.centrality case None => [] case Some(scores) => scores;
            var catalog: seq<ServiceEntry> := match s.catalog case None => [] case Some(entries) => entries;
            var outgoing: seq<Peer> := match s.outgoing case None => [] case Some(peers) => peers;
            var incoming: seq<Peer> := match s.incoming case None => [] case Some(peers) => peers;
            && g.runtime == s.runtime.value && g.service == ToLower(service) && g.selections == selections && g.log1p == s.log1p
            && g.request == EstimateRequest(s.runtime.value, service)
            && g.byService == CriticalityMap(centrality, ScaleOf(centrality, catalog))
            && g.peers == TopPeers(AddRates(AddRates(map[], outgoing), incoming), topK)
            && g.criticality == (if ToLower(service) in g.byService && g.byService[ToLower(service)] != 0.0
                                 then g.byService[ToLower(service)] else 0.5)
  {
  }

  // ----- loops over lists -----

  method FilterSchedulableNodes(nodes: seq<string>, runtime: Runtime) returns (r: seq<string>)
    ensures r == Filter(Untainted(runtime), nodes)
  {
    r := [];
    for i := 0 to |nodes|
      invariant r == Filter(Untainted(runtime), nodes[..i])
    {
      assert nodes[..i + 1][..i] == nodes[..i];
      if !HasBlockingTaints(runtime, nodes[i]) {
        r := r + [nodes[i]];
      }
    }
    assert nodes[..|nodes|] == nodes;
  }

  method CollectFeasible(targets: seq<string>, runtime: Runtime, request: PodRequest)
    returns (feasible: seq<string>, projectedCpu: map<string, real>, projectedMem: map<string, real>)
    ensures feasible == Filter(Fits(runtime, request), targets)
    ensures forall n :: n in feasible ==>
              && Measurable(runtime, n) && n in projectedCpu && n in projectedMem
              && projectedCpu[n] == Projected(runtime[n].usedCpu, request.cpu, runtime[n].allocCpu)
              && projectedMem[n] == Projected(runtime[n].usedMem, request.mem, runtime[n].allocMem)
  {
    feasible, projectedCpu, projectedMem := [], map[], map[];
    for i := 0 to |targets|
      invariant feasible == Filter(Fits(runtime, request), targets[..i])
      invariant forall n :: n in feasible ==>
                  && Measurable(runtime, n) && n in projectedCpu && n in projectedMem
                  && projectedCpu[n] == Projected(runtime[n].usedCpu, request.cpu, runtime[n].allocCpu)
                  && projectedMem[n] == Projected(runtime[n].usedMem, request.mem, runtime[n].allocMem)
    {
      var node := targets[i];
      assert targets[..i + 1][..i] == targets[..i];
      if node !in runtime || !runtime[node].ready || !runtime[node].schedulable
         || runtime[node].allocCpu <= 0 || runtime[node].allocMem <= 0 {
        continue;
      }
      var rt := runtime[node];
      var projCpu := Projected(rt.usedCpu, request.cpu, rt.allocCpu);
      var projMem := Projected(rt.usedMem, request.mem, rt.allocMem);
      if projCpu > HARD_CAP || projMem > HARD_CAP {
        continue;
      }
      projectedCpu := projectedCpu[node := projCpu];
      projectedMem := projectedMem[node := projMem];
      feasible := feasible + [node];
    }
    assert targets[..|targets|] == targets;
  }

  method LocalityOn(rt: NodeRuntime, peers: seq<PeerWeight>, log1p: nat -> real) returns (l: real)
    ensures l == Locality(rt, peers, log1p)
  {
    l := 0.0;
    for i := 0 to |peers|
      invariant l == Locality(rt, peers[..i], log1p)
    {
      assert peers[..i + 1][..i] == peers[..i];
      l := l + peers[i].weight * log1p(PodsOf(rt, peers[i].service));
    }
    assert peers[..|peers|] == peers;
  }

  predicate Normalised(out: map<string, real>, input: map<string, real>, nodes: seq<string>) {
    var band := Band(Map(ValueIn(input), nodes));
    forall n :: n in nodes ==> n in out && out[n] == Norm(ValueIn(input)(n), band.0, band.1)
  }

  method NormalizeMapValues(input: map<string, real>, nodes: seq<string>) returns (out: map<string, real>)
    ensures Normalised(out, input, nodes)
    ensures forall n :: n in nodes ==> 0.0 <= out[n] <= 1.0
    ensures forall m, n :: m in nodes && n in nodes && ValueIn(input)(m) <= ValueIn(input)(n) ==> out[m] <= out[n]
  {
    var vals: seq<real> := [];
    for i := 0 to |nodes|
      invariant vals == Map(ValueIn(input), nodes[..i])
    {
      assert nodes[..i + 1][..i] == nodes[..i];
      vals := vals + [ValueIn(input)(nodes[i])];
    }
    assert nodes[..|nodes|] == nodes;
    var band := Band(vals);
    out := NormAll(input, nodes, band);
    NormalisedKeepsOrder(out, input, nodes);
  }

  method NormAll(input: map<string, real>, nodes: seq<string>, band: (real, real)) returns (out: map<string, real>)
    ensures forall n :: n in nodes ==> n in out && out[n] == Norm(ValueIn(input)(n), band.0, band.1)
  {
    out := map[];
    for i := 0 to |nodes|
      invariant forall n :: n in nodes[..i] ==> n in out && out[n] == Norm(ValueIn(input)(n), band.0, band.1)
    {
      out := out[nodes[i] := Norm(ValueIn(input)(nodes[i]), band.0, band.1)];
    }
  }

  /** Normalising maps into the unit interval and keeps the order. */
  lemma {:induction false} NormalisedKeepsOrder(out: map<string, real>, input: map<string, real>, nodes: seq<string>)
    requires Normalised(out, input, nodes)
    ensures forall n :: n in nodes ==> 0.0 <= out[n] <= 1.0
    ensures forall m, n :: m in nodes && n in nodes && ValueIn(input)(m) <= ValueIn(input)(n) ==> out[m] <= out[n]
  {
    var band := Band(Map(ValueIn(input), nodes));
    BandOrdered(Map(ValueIn(input), nodes));
    forall n | n in nodes ensures 0.0 <= out[n] <= 1.0 {
      NormInUnit(ValueIn(input)(n), band.0, band.1);
    }
    forall m, n | m in nodes && n in nodes && ValueIn(input)(m) <= ValueIn(input)(n) ensures out[m] <= out[n] {
      NormMonotone(ValueIn(input)(m), ValueIn(input)(n), band.0, band.1);
    }
  }

  method DensityScores(feasible: seq<string>, runtime: Runtime) returns (maxServices: nat, density: map<string, real>)
    requires forall n :: n in feasible ==> n in runtime
    ensures forall n :: n in feasible ==> |runtime[n].services| <= maxServices
    ensures maxServices == 0 || exists n :: n in feasible && |runtime[n].services| == maxServices
    ensures forall n :: n in feasible ==> n in density && density[n] == DensityScore(|runtime[n].services|, maxServices)
  {
    maxServices := 0;
    for i := 0 to |feasible|
      invariant forall n :: n in feasible[..i] ==> |runtime[n].services| <= maxServices
      invariant maxServices == 0 || exists n :: n in feasible && |runtime[n].services| == maxServices
    {
      var count := |runtime[feasible[i]].services|;
      if count > maxServices {
        maxServices := count;
      }
    }
    density := map[];
    for i := 0 to |feasible|
      invariant forall n :: n in feasible[..i] ==> n in density && density[n] == DensityScore(|runtime[n].services|, maxServices)
    {
      var node := feasible[i];
      if maxServices > 0 {
        density := density[node := 1.0 - |runtime[node].services| as real / (maxServices + 1) as real];
      } else {
        density := density[node := 1.0];
      }
    }
  }

  /** The running comparison of Go keeps the lexicographically least maximiser. */
  method PickBest(feasible: seq<string>, scores: map<string, int>) returns (best: string)
    requires feasible != []
    requires scores.Keys == set n | n in feasible
    requires forall n :: n in scores ==> 0 <= scores[n]
    ensures IsBest(scores, best)
  {
    best := "";
    var bestScore := -1;
    for i := 0 to |feasible|
      invariant i == 0 ==> bestScore == -1
      invariant i > 0 ==> best in feasible && bestScore == scores[best]
      invariant forall n :: n in feasible[..i] ==> scores[n] < bestScore || (scores[n] == bestScore && LexLe(best, n))
    {
      var node := feasible[i];
      LexTotal(best, node);
      LexTotal(node, node);
      if scores[node] > bestScore || (scores[node] == bestScore && !LexLe(best, node)) {
        forall n | n in feasible[..i] && scores[n] == bestScore && scores[node] == bestScore ensures LexLe(node, n) {
          LexTransitive(node, best, n);
        }
        bestScore := scores[node];
        best := node;
      }
    }
  }

  // ----- loops over maps, in any order -----

  method EstimateIncomingRequest(service: string, runtime: Runtime) returns (r: PodRequest)
    ensures r == EstimateRequest(runtime, service) && EstimatesWell(r, runtime, service)
  {
    EstimateSplits(runtime, service);
    var key := ToLower(service);
    var samples: seq<PodRequest> := [];
    var rest := runtime.Keys;
    ghost var seen: seq<string> := [];
    while rest != {}
      invariant rest <= runtime.Keys
      invariant Lists(seen, runtime.Keys - rest)
      invariant samples == Samples(runtime, key, seen)
    {
      var node :| node in rest;
      VisitOne(seen, runtime.Keys, rest, node);
      assert (seen + [node])[..|seen|] == seen;
      samples := samples + SamplesOn(runtime[node], key);
      seen := seen + [node];
      rest := rest - {node};
    }
    VisitedAll(seen, runtime.Keys, rest);
    ListingLists(runtime.Keys);
    SamplesPermute(runtime, key, seen, Listing(runtime.Keys));
    EstimatePermutes(samples, Samples(runtime, key, Listing(runtime.Keys)));
    if samples == [] {
      return DEFAULT_REQUEST;
    }
    return PodRequest(Median(Map(CpuOf, samples)), Median(Map(MemOf, samples)));
  }

  method CollectHosts(runtime: Runtime, key: string) returns (nodes: seq<string>, ghost seen: seq<string>)
    ensures Lists(seen, runtime.Keys) && nodes == Filter(Hosts(runtime, key), seen)
  {
    nodes, seen := [], [];
    var rest := runtime.Keys;
    while rest != {}
      invariant rest <= runtime.Keys
      invariant Lists(seen, runtime.Keys - rest)
      invariant nodes == Filter(Hosts(runtime, key), seen)
    {
      var node :| node in rest;
      VisitOne(seen, runtime.Keys, rest, node);
      FilterOneMore(Hosts(runtime, key), seen, node);
      if PodsOf(runtime[node], key) > 0 {
        nodes := nodes + [node];
      }
      seen := seen + [node];
      rest := rest - {node};
    }
    VisitedAll(seen, runtime.Keys, rest);
  }

  lemma SortedHosts(runtime: Runtime, service: string, seen: seq<string>)
    requires Lists(seen, runtime.Keys)
    ensures Sort(Filter(Hosts(runtime, ToLower(service)), seen), LexLe) == RunsOn(runtime, service)
  {
    var hosts := Hosts(runtime, ToLower(service));
    ListingLists(runtime.Keys);
    FilterPermutes(hosts, seen, Listing(runtime.Keys));
    LexTotalOrder();
    SortCanonical(Filter(hosts, seen), Filter(hosts, Listing(runtime.Keys)), LexLe);
  }

  method GetCurrentNodesFromRuntime(runtime: Runtime, service: string) returns (nodes: seq<string>)
    ensures nodes == RunsOn(runtime, service)
    ensures Sorted(nodes, LexLe)
    ensures var key := ToLower(service);
            forall n :: n in nodes <==> n in runtime && key in runtime[n].podsByService && runtime[n].podsByService[key] > 0
  {
    RunsOnExactly(runtime, service);
    ghost var seen;
    nodes, seen := CollectHosts(runtime, ToLower(service));
    SortedHosts(runtime, service, seen);
    nodes := Sort(nodes, LexLe);
  }

  method LeastName(nodes: seq<string>) returns (best: string)
    requires nodes != []
    ensures IsLeast(best, nodes)
  {
    best := nodes[0];
    LexTotal(best, best);
    for i := 0 to |nodes|
      invariant best in nodes && forall n :: n in nodes[..i] ==> LexLe(best, n)
    {
      LexTotal(best, nodes[i]);
      LexTotal(nodes[i], nodes[i]);
      if !LexLe(best, nodes[i]) {
        forall n | n in nodes[..i] ensures LexLe(nodes[i], n) {
          LexTransitive(nodes[i], best, n);
        }
        best := nodes[i];
      }
    }
  }

  /** The decision written when there is nothing to score by. */
  method NeutralDecision(s: Snapshot, service: string, nodes: seq<string>) returns (d: Decision)
    ensures IsNeutral(d, s, service, nodes)
  {
    var runtime := OrNothing(s.runtimeAgain);
    var current := GetCurrentNodesFromRuntime(runtime, service);
    var targets := FilterSchedulableNodes(nodes, runtime);
    if |targets| == 0 {
      targets := nodes;
    }
    var scores: map<string, int> := map[];
    for i := 0 to |targets|
      invariant scores.Keys == set n | n in targets[..i]
      invariant forall n :: n in targets[..i] ==> scores[n] == if s.worker(n) then 50 else 30
    {
      scores := scores[targets[i] := if s.worker(targets[i]) then 50 else 30];
    }
    assert targets[..|targets|] == targets;
    var best := "";
    if |targets| > 0 {
      best := LeastName(targets);
    }
    d := Decision(NoMetrics, best, "", scores, current);
  }

  method MassOn(rt: NodeRuntime, byService: map<string, real>) returns (mass: real)
    ensures mass == Mass(rt, byService)
  {
    mass := 0.0;
    var rest := rt.services;
    ghost var seen: seq<string> := [];
    while rest != {}
      invariant rest <= rt.services
      invariant Lists(seen, rt.services - rest)
      invariant mass == Sum(Map(ValueIn(byService), seen))
    {
      var service :| service in rest;
      VisitOne(seen, rt.services, rest, service);
      MapOneMore(ValueIn(byService), seen, service);
      SumOneMore(Map(ValueIn(byService), seen), ValueIn(byService)(service));
      mass := mass + ValueIn(byService)(service);
      seen := seen + [service];
      rest := rest - {service};
    }
    VisitedAll(seen, rt.services, rest);
    ListingLists(rt.services);
    MapPermutes(ValueIn(byService), seen, Listing(rt.services));
    SumPermutes(Map(ValueIn(byService), seen), Map(ValueIn(byService), Listing(rt.services)));
  }

  lemma SumOneMore(s: seq<real>, x: real)
    ensures Sum(s + [x]) == Sum(s) + x
  {
    assert (s + [x])[..|s + [x]| - 1] == s;
  }

  method MaxSelection(selections: map<string, nat>) returns (most: nat)
    ensures most == MostSelected(selections)
  {
    most := 0;
    var rest := selections.Keys;
    ghost var seen: seq<string> := [];
    while rest != {}
      invariant rest <= selections.Keys
      invariant Lists(seen, selections.Keys - rest)
      invariant most == Max(Map(CountIn(selections), seen))
    {
      var node :| node in rest;
      VisitOne(seen, selections.Keys, rest, node);
      MapOneMore(CountIn(selections), seen, node);
      assert Map(CountIn(selections), seen + [node])[..|Map(CountIn(selections), seen)|] == Map(CountIn(selections), seen);
      if selections[node] > most {
        most := selections[node];
      }
      seen := seen + [node];
      rest := rest - {node};
    }
    VisitedAll(seen, selections.Keys, rest);
    ListingLists(selections.Keys);
    MapPermutes(CountIn(selections), seen, Listing(selections.Keys));
    MaxPermutes(Map(CountIn(selections), seen), Map(CountIn(selections), Listing(selections.Keys)));
  }

  method ConcentrationScores(feasible: seq<string>, selections: map<string, nat>) returns (r: map<string, real>)
    ensures forall n :: n in feasible ==>
              n in r && r[n] == ConcentrationScore(CountIn(selections)(n), MostSelected(selections))
  {
    r := map[];
    for i := 0 to |feasible|
      invariant forall n :: n in feasible[..i] ==> n in r && r[n] == 1.0
    {
      r := r[feasible[i] := 1.0];
    }
    var most := MaxSelection(selections);
    if |selections| > 0 && most > 0 {
      for i := 0 to |feasible|
        invariant forall n :: n in feasible[i..] ==> n in r
        invariant forall n :: n in feasible[..i] ==> n in r && r[n] == ConcentrationScore(CountIn(selections)(n), most)
      {
        r := r[feasible[i] := 1.0 - CountIn(selections)(feasible[i]) as real / (most + 1) as real];
      }
    } else if |selections| == 0 {
      assert selections.Keys == {};
    }
  }

  // ----- the service's decision -----

  method MeasureNode(g: Setting, node: string, projectedCpu: real, projectedMem: real)
    returns (locality: real, util: real, spread: real, mass: real)
    requires Measurable(g.runtime, node)
    requires projectedCpu == Projected(g.runtime[node].usedCpu, g.request.cpu, g.runtime[node].allocCpu)
    requires projectedMem == Projected(g.runtime[node].usedMem, g.request.mem, g.runtime[node].allocMem)
    ensures locality == FactsAt(g)(node).locality && mass == FactsAt(g)(node).mass
    ensures util == UtilScore(FactsAt(g)(node)) && spread == SpreadScore(FactsAt(g)(node).replicas)
  {
    var rt := g.runtime[node];
    locality := LocalityOn(rt, g.peers, g.log1p);
    var cpuScore := AtLeastZero(1.0 - Abs(projectedCpu - TARGET_UTILIZATION) / UTILIZATION_BAND);
    var memScore := AtLeastZero(1.0 - Abs(projectedMem - TARGET_UTILIZATION) / UTILIZATION_BAND);
    util := (cpuScore + memScore) / 2.0;
    var replicas := PodsOf(rt, g.service);
    spread := if replicas == 0 then 1.0 else if replicas == 1 then 0.6 else 0.2;
    mass := MassOn(rt, g.byService);
  }

  method MeasureNodes(g: Setting, feasible: seq<string>, projectedCpu: map<string, real>, projectedMem: map<string, real>)
    returns (locality: map<string, real>, util: map<string, real>, spread: map<string, real>, mass: map<string, real>)
    requires forall n :: n in feasible ==>
               && Measurable(g.runtime, n) && n in projectedCpu && n in projectedMem
               && projectedCpu[n] == Projected(g.runtime[n].usedCpu, g.request.cpu, g.runtime[n].allocCpu)
               && projectedMem[n] == Projected(g.runtime[n].usedMem, g.request.mem, g.runtime[n].allocMem)
    ensures forall n :: n in feasible ==>
              && n in locality && n in util && n in spread && n in mass
              && locality[n] == FactsAt(g)(n).locality && mass[n] == FactsAt(g)(n).mass
              && util[n] == UtilScore(FactsAt(g)(n)) && spread[n] == SpreadScore(FactsAt(g)(n).replicas)
  {
    locality, util, spread, mass := map[], map[], map[], map[];
    for i := 0 to |feasible|
      invariant forall n :: n in feasible[..i] ==>
                  && n in locality && n in util && n in spread && n in mass
                  && locality[n] == FactsAt(g)(n).locality && mass[n] == FactsAt(g)(n).mass
                  && util[n] == UtilScore(FactsAt(g)(n)) && spread[n] == SpreadScore(FactsAt(g)(n).replicas)
    {
      var node := feasible[i];
      var l, u, r, m := MeasureNode(g, node, projectedCpu[node], projectedMem[node]);
      locality := locality[node := l];
      util := util[node := u];
      spread := spread[node := r];
      mass := mass[node := m];
    }
  }

  /** The values a loop collected over the nodes are those of their facts. */
  lemma {:induction false} CollectedValues(values: map<string, real>, g: Setting, pick: NodeFacts -> real, nodes: seq<string>)
    requires forall n :: n in nodes ==> n in values && values[n] == pick(FactsAt(g)(n))
    ensures Map(ValueIn(values), nodes) == Map(pick, Map(FactsAt(g), nodes))
  {
    if nodes != [] {
      CollectedValues(values, g, pick, nodes[..|nodes| - 1]);
      MapOneMore(pick, Map(FactsAt(g), nodes[..|nodes| - 1]), FactsAt(g)(nodes[|nodes| - 1]));
    }
  }

  lemma {:induction false} MaxServicesIs(g: Setting, feasible: seq<string>, most: nat)
    requires forall n :: n in feasible ==> FactsAt(g)(n).services <= most
    requires most == 0 || exists n :: n in feasible && FactsAt(g)(n).services == most
    ensures Max(Map(ServicesOf, Map(FactsAt(g), feasible))) == most
  {
    var facts := Map(FactsAt(g), feasible);
    MapAt(FactsAt(g), feasible);
    MapAt(ServicesOf, facts);
    MaxBounds(Map(ServicesOf, facts));
    var max := Max(Map(ServicesOf, facts));
    if most != 0 {
      var n :| n in feasible && FactsAt(g)(n).services == most;
      var i :| 0 <= i < |feasible| && feasible[i] == n;
      ServicesAtMostMax(facts, i);
    }
    if max != 0 {
      assert max in Map(ServicesOf, facts);
      var i :| 0 <= i < |facts| && Map(ServicesOf, facts)[i] == max;
      assert FactsAt(g)(feasible[i]).services == max;
    }
  }

  /** The weighted sum of each node's six components. */
  method RawScores(feasible: seq<string>, criticality: real, locality: map<string, real>, util: map<string, real>,
                   spread: map<string, real>, density: map<string, real>, concentration: map<string, real>, mass: map<string, real>)
    returns (raw: map<string, real>)
    requires forall n :: n in feasible ==>
               n in locality && n in util && n in spread && n in density && n in concentration && n in mass
    ensures forall n :: n in feasible ==>
              n in raw && raw[n] == Combine(locality[n], util[n], spread[n], density[n], concentration[n], mass[n], criticality)
  {
    raw := map[];
    for i := 0 to |feasible|
      invariant forall n :: n in feasible[..i] ==>
                  n in raw && raw[n] == Combine(locality[n], util[n], spread[n], density[n], concentration[n], mass[n], criticality)
    {
      var node := feasible[i];
      var score := Combine(locality[node], util[node], spread[node], density[node], concentration[node], mass[node], criticality);
      raw := raw[node := score];
    }
  }

  /** Absolute scaling. */
  method AbsoluteScores(feasible: seq<string>, raw: map<string, real>, criticality: real) returns (scores: map<string, int>)
    requires forall n :: n in feasible ==> n in raw
    ensures scores.Keys == set n | n in feasible
    ensures forall n :: n in feasible ==> scores[n] == Scaled(raw[n], criticality)
  {
    scores := map[];
    for i := 0 to |feasible|
      invariant scores.Keys == set n | n in feasible[..i]
      invariant forall n :: n in feasible[..i] ==> scores[n] == Scaled(raw[n], criticality)
    {
      var node := feasible[i];
      var score := Scaled(raw[node], criticality);
      scores := scores[node := score];
    }
    assert feasible[..|feasible|] == feasible;
  }

  /** Scores of the feasible nodes, component by component. */
  method ScoreNodes(g: Setting, feasible: seq<string>, projectedCpu: map<string, real>, projectedMem: map<string, real>)
    returns (scores: map<string, int>)
    requires forall n :: n in feasible ==>
               && Measurable(g.runtime, n) && n in projectedCpu && n in projectedMem
               && projectedCpu[n] == Projected(g.runtime[n].usedCpu, g.request.cpu, g.runtime[n].allocCpu)
               && projectedMem[n] == Projected(g.runtime[n].usedMem, g.request.mem, g.runtime[n].allocMem)
    ensures scores == Scores(g, feasible)
  {
    var localityScore, util, spread, density, concentration, massNorm :=
      ScoreComponents(g, feasible, projectedCpu, projectedMem);
    ghost var field := FieldAt(g, feasible);
    ComponentsCombine(g, feasible, field, localityScore, util, spread, density, concentration, massNorm);
    var raw := RawScores(feasible, g.criticality, localityScore, util, spread, density, concentration, massNorm);
    scores := AbsoluteScores(feasible, raw, g.criticality);
    ScoresAre(g, feasible, raw, scores);
  }

  method ScoreComponents(g: Setting, feasible: seq<string>, projectedCpu: map<string, real>, projectedMem: map<string, real>)
    returns (localityScore: map<string, real>, util: map<string, real>, spread: map<string, real>,
             density: map<string, real>, concentration: map<string, real>, massNorm: map<string, real>)
    requires forall n :: n in feasible ==>
               && Measurable(g.runtime, n) && n in projectedCpu && n in projectedMem
               && projectedCpu[n] == Projected(g.runtime[n].usedCpu, g.request.cpu, g.runtime[n].allocCpu)
               && projectedMem[n] == Projected(g.runtime[n].usedMem, g.request.mem, g.runtime[n].allocMem)
    ensures forall n :: n in feasible ==>
              Components(g, n, FieldAt(g, feasible), localityScore, util, spread, density, concentration, massNorm)
  {
    var locality, mass;
    locality, util, spread, mass := MeasureNodes(g, feasible, projectedCpu, projectedMem);
    var maxServices;
    maxServices, density := DensityScores(feasible, g.runtime);
    concentration := ConcentrationScores(feasible, g.selections);
    localityScore := NormalizeMapValues(locality, feasible);
    massNorm := NormalizeMapValues(mass, feasible);
    NormalisedComponents(g, feasible, locality, mass, maxServices, localityScore, massNorm);
  }

  /** The bands and the maximum the loops found are those of the field. */
  lemma {:induction false} NormalisedComponents(g: Setting, feasible: seq<string>, locality: map<string, real>, mass: map<string, real>,
                             maxServices: nat, localityScore: map<string, real>, massNorm: map<string, real>)
    requires forall n :: n in feasible ==>
               && Measurable(g.runtime, n) && n in locality && n in mass
               && locality[n] == FactsAt(g)(n).locality && mass[n] == FactsAt(g)(n).mass
               && FactsAt(g)(n).services <= maxServices
    requires maxServices == 0 || exists n :: n in feasible && FactsAt(g)(n).services == maxServices
    requires Normalised(localityScore, locality, feasible) && Normalised(massNorm, mass, feasible)
    ensures FieldAt(g, feasible).maxServices == maxServices
    ensures forall n :: n in feasible ==>
              && localityScore[n] == LocalityNorm(FactsAt(g)(n), FieldAt(g, feasible))
              && massNorm[n] == MassNorm(FactsAt(g)(n), FieldAt(g, feasible))
  {
    CollectedValues(locality, g, LocalityOf, feasible);
    CollectedValues(mass, g, MassOf, feasible);
    MaxServicesIs(g, feasible, maxServices);
  }

  ghost predicate Components(g: Setting, n: string, field: Field, locality: map<string, real>, util: map<string, real>,
                             spread: map<string, real>, density: map<string, real>, concentration: map<string, real>,
                             mass: map<string, real>)
  {
    var f := FactsAt(g)(n);
    && n in locality && n in util && n in spread && n in density && n in concentration && n in mass
    && locality[n] == LocalityNorm(f, field) && util[n] == UtilScore(f) && spread[n] == SpreadScore(f.replicas)
    && density[n] == DensityScore(f.services, field.maxServices)
    && concentration[n] == ConcentrationScore(f.selections, field.maxSelections)
    && mass[n] == MassNorm(f, field)
  }

  lemma ComponentsCombine(g: Setting, feasible: seq<string>, field: Field, locality: map<string, real>, util: map<string, real>,
                          spread: map<string, real>, density: map<string, real>, concentration: map<string, real>,
                          mass: map<string, real>)
    requires field.criticality == g.criticality
    requires forall n :: n in feasible ==> Components(g, n, field, locality, util, spread, density, concentration, mass)
    ensures forall n :: n in feasible ==>
              && n in locality && n in util && n in spread && n in density && n in concentration && n in mass
              && RawScore(FactsAt(g)(n), field)
                 == Combine(locality[n], util[n], spread[n], density[n], concentration[n], mass[n], g.criticality)
  {
    forall n | n in feasible
      ensures RawScore(FactsAt(g)(n), field)
           == Combine(locality[n], util[n], spread[n], density[n], concentration[n], mass[n], g.criticality)
    {
      assert Components(g, n, field, locality, util, spread, density, concentration, mass);
    }
  }

  lemma ScoresAre(g: Setting, feasible: seq<string>, raw: map<string, real>, scores: map<string, int>)
    requires scores.Keys == set n | n in feasible
    requires forall n :: n in feasible ==> n in raw && raw[n] == RawScore(FactsAt(g)(n), FieldAt(g, feasible))
    requires forall n :: n in feasible ==> scores[n] == Scaled(raw[n], g.criticality)
    ensures scores == Scores(g, feasible)
  {
  }

  class Scorer {
    const topKPeers: int

    constructor (topKPeers: int)
      ensures this.topKPeers == if topKPeers <= 0 then 3 else topKPeers
    {
      this.topKPeers := if topKPeers <= 0 then 3 else topKPeers;
    }

    /** The feasible nodes and their scores, whatever order any map is iterated in. Scored is
        exactly each listed node that is free of blocking taints (or every listed one has
        one), is ready and schedulable, and of which the estimated request would leave at
        most 85% of either resource used. */
    method ScoreService(s: Snapshot, service: string, nodes: seq<string>, selections: map<string, nat>)
      returns (feasible: seq<string>, scores: map<string, int>)
      requires s.runtime.Some?
      ensures var g := SettingOf(s, topKPeers, service, selections);
              && feasible == FeasibleNodes(nodes, g.runtime, g.request)
              && scores == Scores(g, feasible)
              && forall n :: n in scores ==> 15 <= scores[n] <= 100
      ensures ScoredExactly(scores, nodes, s.runtime.value, EstimateRequest(s.runtime.value, service))
    {
      var agg := AggregatePeerTraffic(OrEmpty(s.outgoing), OrEmpty(s.incoming));
      var topPeers := TopKPeerWeights(agg, topKPeers);
      var runtime := s.runtime.value;
      var targets := FilterSchedulableNodes(nodes, runtime);
      if |targets| == 0 {
        targets := nodes;
      }
      var byService, criticality := ComputeCriticality(service, OrEmpty(s.centrality), OrEmpty(s.catalog));
      var request := EstimateIncomingRequest(service, runtime);
      var projectedCpu, projectedMem;
      feasible, projectedCpu, projectedMem := CollectFeasible(targets, runtime, request);
      var g := Setting(runtime, ToLower(service), request, topPeers, byService, criticality, selections, s.log1p);
      scores := ScoreNodes(g, feasible, projectedCpu, projectedMem);
      forall n | n in scores ensures 15 <= scores[n] <= 100 {
        AllScoresInRange(g, feasible, n);
      }
      ScoresAreExact(g, nodes);
    }

    /** Decides the best node for a service: the least-named node of highest score, unless
        the user's preferred node is feasible. When the cluster state is unavailable or no
        node is feasible the decision is neutral. A scored decision that is saved counts
        its best node in the cycle state. */
    method ComputeForService(s: Snapshot, service: string, nodes: seq<string>, cs: CycleState?, saved: bool)
      returns (decision: Decision)
      modifies cs
      ensures decision.status.NoMetrics? <==>
                s.runtime.None? || ScoredExactly(map[], nodes, s.runtime.value, EstimateRequest(s.runtime.value, service))
      ensures decision.status.NoMetrics? ==> IsNeutral(decision, s, service, nodes)
      ensures decision.status.Scheduled? ==>
                var g := SettingOf(s, topKPeers, service, if cs == null then map[] else old(cs.nodeSelections));
                && decision.scores == Scores(g, FeasibleNodes(nodes, g.runtime, g.request))
                && ScoredExactly(decision.scores, nodes, g.runtime, g.request)
                && WellChosen(decision, s, service)
      ensures cs != null ==>
                if decision.status.Scheduled? && saved
                then cs.nodeSelections == OneMore(old(cs.nodeSelections), decision.bestNode)
                else cs.nodeSelections == old(cs.nodeSelections)
    {
      if s.runtime.None? {
        decision := NeutralDecision(s, service, nodes);
        return;
      }
      var selections: map<string, nat> := map[];
      if cs != null {
        selections := cs.nodeSelections;
      }
      var feasible, scores := ScoreService(s, service, nodes, selections);
      NoneFeasible(nodes, s.runtime.value, EstimateRequest(s.runtime.value, service));
      if |feasible| == 0 {
        decision := NeutralDecision(s, service, nodes);
        return;
      }
      decision := ChooseNode(s, service, feasible, scores);
      if saved && cs != null {
        cs.Count(decision.bestNode);
      }
    }

    /** The best node by score, or the user's preferred node if it is feasible. */
    method ChooseNode(s: Snapshot, service: string, feasible: seq<string>, scores: map<string, int>) returns (d: Decision)
      requires s.runtime.Some?
      requires feasible != [] && scores.Keys == set n | n in feasible
      requires forall n :: n in scores ==> 15 <= scores[n] <= 100
      ensures d.status.Scheduled? && d.scores == scores && WellChosen(d, s, service)
    {
      var best := PickBest(feasible, scores);
      var current := GetCurrentNodesFromRuntime(s.runtime.value, service);
      d := Decision(Scheduled, best, "", scores, current);
      if s.preference.Some? && s.preference.value != "" {
        d := d.(preferredNode := s.preference.value);
        if s.preference.value in scores && scores[s.preference.value] > 0 {
          d := d.(bestNode := s.preference.value);
        }
      }
    }
  }

  /** Scores in range, one of the scored nodes best, and the preference on record. */
  ghost predicate WellChosen(d: Decision, s: Snapshot, service: string)
    requires s.runtime.Some?
  {
    && (forall n :: n in d.scores ==> 15 <= d.scores[n] <= 100)
    && d.bestNode in d.scores
    && (if s.preference.Some? && s.preference.value != "" && s.preference.value in d.scores
        then d.bestNode == s.preference.value else IsBest(d.scores, d.bestNode))
    && d.preferredNode == (if s.preference.Some? then s.preference.value else "")
    && d.currentNodes == RunsOn(s.runtime.value, service)
  }
}
