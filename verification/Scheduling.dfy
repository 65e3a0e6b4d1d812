/** The scheduler's pipeline: what a pod asks for, the hard filter, the soft score and the
    round-robin rotation that order the nodes for `reserveAndBind`; and the whole call,
    with its fallbacks. */
module Scheduling {
  import opened Wrappers
  import opened NodeModel
  import opened Reals
  import opened Sorting
  import opened Protocol
  import opened Attempts
  import opened ReserveAndBind
  import Accounting
  import RoundRobin

  const WEIGHT_CPU_FREE := 1.0
  const WEIGHT_MEM_FREE := 1.0
  const WEIGHT_FRAGMENTATION := 0.5
  const WEIGHT_TAINT := 2.0
  const TAINT_PENALTY := 0.1
  const WORKER_BONUS := 0.2

  // ----- the pod's intent -----

  datatype PodSpec = PodSpec(
    namespace: string,
    name: string,
    nodeSelector: map<string, string>,
    tolerations: seq<string>,
    resources: Accounting.Pod)

  function FirstOf(m: map<string, string>, key: string, beta: string, default: string): string {
    if key in m then m[key] else if beta in m then m[beta] else default
  }

  /** The larger of the containers' sum and the largest init container. */
  function RequestOf(spec: PodSpec, amount: Accounting.Request -> int): int {
    Accounting.Effective(Accounting.LoadOf(amount)(spec.resources))
  }

  /** What the pod asks for, if it says so of both resources and names no empty
      architecture or system. */
  function IntentOf(spec: PodSpec): Option<PodIntent> {
    var arch := FirstOf(spec.nodeSelector, "kubernetes.io/arch", "beta.kubernetes.io/arch", "arm64");
    var os := FirstOf(spec.nodeSelector, "kubernetes.io/os", "beta.kubernetes.io/os", "linux");
    var cpu, mem := RequestOf(spec, Accounting.CpuOf), RequestOf(spec, Accounting.MemOf);
    if cpu == 0 || mem == 0 || arch == "" || os == "" then None
    else Some(PodIntent(spec.namespace, spec.name, cpu, mem, arch, os, spec.nodeSelector, spec.tolerations))
  }

  /** Refused exactly when one of the two requests is missing, or the selector names an empty
      architecture or system: a stable label in the selector counts before its beta form,
      and arm64 and linux are assumed where there is neither. A pod that is scheduled on
      its intent requests something of both resources. */
  method ExtractPodIntent(spec: PodSpec) returns (intent: Option<PodIntent>)
    requires Accounting.RequestsNonNegative(spec.resources)
    ensures intent == IntentOf(spec)
    ensures var cpu, mem := RequestOf(spec, Accounting.CpuOf), RequestOf(spec, Accounting.MemOf);
            var selector := spec.nodeSelector;
            var arch := if "kubernetes.io/arch" in selector then selector["kubernetes.io/arch"]
                        else if "beta.kubernetes.io/arch" in selector then selector["beta.kubernetes.io/arch"] else "arm64";
            var os := if "kubernetes.io/os" in selector then selector["kubernetes.io/os"]
                      else if "beta.kubernetes.io/os" in selector then selector["beta.kubernetes.io/os"] else "linux";
            && (intent.None? <==> cpu == 0 || mem == 0 || arch == "" || os == "")
            && (intent.Some? ==>
                  && intent.value.cpu == cpu > 0 && intent.value.mem == mem > 0
                  && intent.value.arch == arch && intent.value.os == os
                  && intent.value.namespace == spec.namespace && intent.value.name == spec.name
                  && intent.value.nodeSelector == selector && intent.value.tolerations == spec.tolerations)
    ensures intent.Some? ==>
              var cpu, mem, pod := intent.value.cpu, intent.value.mem, spec.resources;
              var cpuSum, memSum := Accounting.Total(Map(Accounting.CpuOf, pod.containers)), Accounting.Total(Map(Accounting.MemOf, pod.containers));
              && cpuSum <= cpu && memSum <= mem && (forall r :: r in pod.inits ==> r.cpu <= cpu && r.mem <= mem)
              && (cpu == cpuSum || exists r :: r in pod.inits && r.cpu == cpu)
              && (mem == memSum || exists r :: r in pod.inits && r.mem == mem)
  {
    var arch := FirstOf(spec.nodeSelector, "kubernetes.io/arch", "beta.kubernetes.io/arch", "arm64");
    var os := FirstOf(spec.nodeSelector, "kubernetes.io/os", "beta.kubernetes.io/os", "linux");
    var cpu, mem := Accounting.PodResourceRequest(spec.resources);
    Accounting.EffectiveNonNegative(Accounting.LoadOf(Accounting.CpuOf)(spec.resources));
    Accounting.EffectiveNonNegative(Accounting.LoadOf(Accounting.MemOf)(spec.resources));
    if cpu == 0 || mem == 0 {
      return None;
    }
    if |arch| == 0 || |os| == 0 {
      return None;
    }
    return Some(PodIntent(spec.namespace, spec.name, cpu, mem, arch, os, spec.nodeSelector, spec.tolerations));
  }

  // ----- the soft score -----

  function Ratio(free: int, total: int): real {
    if total == 0 then 0.0 else free as real / total as real
  }

  function CpuFree(node: NodeState): real {
    Ratio(node.cpuAlloc - node.cpuUsed, node.cpuAlloc)
  }

  function MemFree(node: NodeState): real {
    Ratio(node.memAlloc - node.memUsed, node.memAlloc)
  }

  function RawScore(cpuFree: real, memFree: real, taints: nat, worker: bool): real {
    WEIGHT_CPU_FREE * cpuFree + WEIGHT_MEM_FREE * memFree
    - WEIGHT_FRAGMENTATION * Abs(cpuFree - memFree)
    - WEIGHT_TAINT * (taints as real * TAINT_PENALTY)
    + if worker then WORKER_BONUS else 0.0
  }

  function Clamp(x: real): real {
    var top := if x < 100.0 then x else 100.0;
    if top > 0.0 then top else 0.0
  }

  function CalculateScore(node: NodeState, worker: bool): real {
    Clamp(RawScore(CpuFree(node), MemFree(node), |node.taints|, worker) * 100.0)
  }

  /** Freer in both resources, no more taints, and a worker if the other is: no lower score.
      The imbalance penalty never outweighs the resource that causes it. */
  lemma FreerScoresNoLess(c1: real, m1: real, t1: nat, w1: bool, c2: real, m2: real, t2: nat, w2: bool)
    requires c1 >= c2 && m1 >= m2 && t1 <= t2 && (w2 ==> w1)
    ensures Clamp(RawScore(c1, m1, t1, w1) * 100.0) >= Clamp(RawScore(c2, m2, t2, w2) * 100.0)
  {
    assert RawScore(c1, m1, t1, w1) >= RawScore(c2, m2, t2, w2);
  }

  /** The upper clamp is not dead: the two ratios alone add up to two, so the score cannot
      tell apart nodes that are free enough. Exactly when a node is at the top: the ratios
      together, less half their difference and a fifth per taint, with a fifth more for a
      worker, reach one. */
  lemma ScoreSaturates(c: real, m: real, taints: nat, worker: bool)
    ensures Clamp(RawScore(c, m, taints, worker) * 100.0) == 100.0
       <==> c + m - 0.5 * Abs(c - m) - 0.2 * taints as real + (if worker then 0.2 else 0.0) >= 1.0
  {
  }

  lemma RatioGrows(free: int, total: int, free': int, total': int)
    requires 0 < total && 0 < total' && free * total' >= free' * total
    ensures Ratio(free, total) >= Ratio(free', total')
  {
    var p, q, p', q' := free as real, total as real, free' as real, total' as real;
    assert p * q' == (free * total') as real && p' * q == (free' * total) as real;
    assert p / q == (p * q') / (q * q') && p' / q' == (p' * q) / (q * q');
  }

  /** The same on two records: a larger free share of both resources, no more taints, and a
      worker if the other is. */
  lemma EmptierScoresNoLess(a: NodeState, workerA: bool, b: NodeState, workerB: bool)
    requires 0 < a.cpuAlloc && 0 < a.memAlloc && 0 < b.cpuAlloc && 0 < b.memAlloc
    requires (a.cpuAlloc - a.cpuUsed) * b.cpuAlloc >= (b.cpuAlloc - b.cpuUsed) * a.cpuAlloc
    requires (a.memAlloc - a.memUsed) * b.memAlloc >= (b.memAlloc - b.memUsed) * a.memAlloc
    requires |a.taints| <= |b.taints| && (workerB ==> workerA)
    ensures CalculateScore(a, workerA) >= CalculateScore(b, workerB)
  {
    RatioGrows(a.cpuAlloc - a.cpuUsed, a.cpuAlloc, b.cpuAlloc - b.cpuUsed, b.cpuAlloc);
    RatioGrows(a.memAlloc - a.memUsed, a.memAlloc, b.memAlloc - b.memUsed, b.memAlloc);
    FreerScoresNoLess(CpuFree(a), MemFree(a), |a.taints|, workerA, CpuFree(b), MemFree(b), |b.taints|, workerB);
  }

  /** A record's score: both free shares in full, half their difference off, a fifth of a
      point off for each taint and a fifth on for a worker; a hundred from one upwards and
      nothing from zero downwards. */
  lemma ScoreOfRecord(node: NodeState, worker: bool)
    requires 0 < node.cpuAlloc && 0 < node.memAlloc
    ensures var c := (node.cpuAlloc - node.cpuUsed) as real / node.cpuAlloc as real;
            var m := (node.memAlloc - node.memUsed) as real / node.memAlloc as real;
            var sum := c + m - 0.5 * (if c > m then c - m else m - c) - 0.2 * |node.taints| as real + if worker then 0.2 else 0.0;
            CalculateScore(node, worker) == if sum >= 1.0 then 100.0 else if sum <= 0.0 then 0.0 else 100.0 * sum
  {
  }

  // ----- the pipeline -----

  function Admits(intent: PodIntent): NodeState -> bool {
    (node: NodeState) => CheckHardConstraints(intent, node).None?
  }

  method FilterNodes(intent: PodIntent, nodes: seq<NodeState>) returns (passed: seq<NodeState>)
    ensures passed == Filter(Admits(intent), nodes)
  {
    passed := [];
    for i := 0 to |nodes|
      invariant passed == Filter(Admits(intent), nodes[..i])
    {
      assert nodes[..i + 1][..i] == nodes[..i];
      var reason := CheckHardConstraints(intent, nodes[i]);
      if reason.Some? {
        continue;
      }
      passed := passed + [nodes[i]];
    }
    assert nodes[..|nodes|] == nodes;
  }

  datatype Scored = Scored(node: NodeState, score: real)

  function EntryOf(s: Scored): ScoredNode {
    ScoredNode(s.node.name, s.node.version)
  }

  function ScoreOf(s: Scored): real {
    s.score
  }

  function Rate(worker: NodeState -> bool): NodeState -> Scored {
    (node: NodeState) => Scored(node, CalculateScore(node, worker(node)))
  }

  /** The nodes with their scores, best first; ties fall as the sort pleases. */
  method ScoreNodes(nodes: seq<NodeState>, worker: NodeState -> bool) returns (ranked: seq<Scored>)
    ensures multiset(ranked) == multiset(Map(Rate(worker), nodes)) && Descending(ranked, ScoreOf)
  {
    var scored: seq<Scored> := [];
    for i := 0 to |nodes|
      invariant scored == Map(Rate(worker), nodes[..i])
    {
      assert nodes[..i + 1][..i] == nodes[..i];
      scored := scored + [Scored(nodes[i], CalculateScore(nodes[i], worker(nodes[i])))];
    }
    assert nodes[..|nodes|] == nodes;
    ranked := SortDescending(scored, ScoreOf);
  }

  /** An entry of the candidate list comes from a listed record that passed the filter. */
  ghost predicate FromListing(e: ScoredNode, intent: PodIntent, states: seq<NodeState>) {
    exists node :: node in states && CheckHardConstraints(intent, node).None? && e == ScoredNode(node.name, node.version)
  }

  /** Every record on the ranked list was listed, passed the filter and carries its score. */
  lemma RankedFromListing(ranked: seq<Scored>, intent: PodIntent, states: seq<NodeState>, worker: NodeState -> bool)
    requires multiset(ranked) == multiset(Map(Rate(worker), Filter(Admits(intent), states)))
    ensures forall s :: s in ranked ==>
              && s.node in states && CheckHardConstraints(intent, s.node).None?
              && s.score == CalculateScore(s.node, worker(s.node))
  {
    var passed := Filter(Admits(intent), states);
    SameMembers(ranked, Map(Rate(worker), passed));
    MapAt(Rate(worker), passed);
    FilterMembers(Admits(intent), states);
    forall s | s in ranked
      ensures s.node in states && CheckHardConstraints(intent, s.node).None? && s.score == CalculateScore(s.node, worker(s.node))
    {
      var j :| 0 <= j < |passed| && Map(Rate(worker), passed)[j] == s;
      assert passed[j] in passed;
    }
  }

  method EntriesOf(list: seq<Scored>) returns (entries: seq<ScoredNode>)
    ensures entries == Map(EntryOf, list)
  {
    entries := [];
    for i := 0 to |list|
      invariant entries == Map(EntryOf, list[..i])
    {
      assert list[..i + 1][..i] == list[..i];
      entries := entries + [EntryOf(list[i])];
    }
    assert list[..|list|] == list;
  }

  /** No record is ranked behind a fuller one, in free shares, taints and role, unless they
      score the same. */
  ghost predicate EmptierFirst(ranked: seq<Scored>, worker: NodeState -> bool) {
    forall i, j :: 0 <= i < j < |ranked| ==>
      var a, b := ranked[i].node, ranked[j].node;
      && 0 < a.cpuAlloc && 0 < a.memAlloc && 0 < b.cpuAlloc && 0 < b.memAlloc
      && (b.cpuAlloc - b.cpuUsed) * a.cpuAlloc >= (a.cpuAlloc - a.cpuUsed) * b.cpuAlloc
      && (b.memAlloc - b.memUsed) * a.memAlloc >= (a.memAlloc - a.memUsed) * b.memAlloc
      && |b.taints| <= |a.taints| && (worker(a) ==> worker(b))
      ==> ranked[i].score == ranked[j].score
  }

  /** Filter, score, rotate: exactly the records that pass the filter, with the versions
      they were listed with, best first from the turn that was drawn. */
  method Candidates(intent: PodIntent, states: seq<NodeState>, worker: NodeState -> bool, index: Option<nat>)
    returns (scored: seq<ScoredNode>, ghost ranked: seq<Scored>)
    ensures multiset(ranked) == multiset(Map(Rate(worker), Filter(Admits(intent), states))) && Descending(ranked, ScoreOf)
    ensures scored == RoundRobin.InTurn(Map(EntryOf, ranked), index)
    ensures |scored| == |Filter(Admits(intent), states)|
    ensures forall k :: 0 <= k < |scored| ==> FromListing(scored[k], intent, states)
    ensures EmptierFirst(ranked, worker)
  {
    var passed := FilterNodes(intent, states);
    var list := ScoreNodes(passed, worker);
    ranked := list;
    var entries := EntriesOf(list);
    scored := RoundRobin.RotateRanked(entries, index);
    CandidatesFromListing(intent, states, worker, list, scored);
    RankedFromListing(ranked, intent, states, worker);
    FullerNotAhead(ranked, worker);
  }

  lemma FullerNotAhead(ranked: seq<Scored>, worker: NodeState -> bool)
    requires Descending(ranked, ScoreOf)
    requires forall s :: s in ranked ==> s.score == CalculateScore(s.node, worker(s.node))
    ensures EmptierFirst(ranked, worker)
  {
    forall i, j | 0 <= i < j < |ranked| &&
      var a, b := ranked[i].node, ranked[j].node;
      && 0 < a.cpuAlloc && 0 < a.memAlloc && 0 < b.cpuAlloc && 0 < b.memAlloc
      && (b.cpuAlloc - b.cpuUsed) * a.cpuAlloc >= (a.cpuAlloc - a.cpuUsed) * b.cpuAlloc
      && (b.memAlloc - b.memUsed) * a.memAlloc >= (a.memAlloc - a.memUsed) * b.memAlloc
      && |b.taints| <= |a.taints| && (worker(a) ==> worker(b))
      ensures ranked[i].score == ranked[j].score
    {
      EmptierScoresNoLess(ranked[j].node, worker(ranked[j].node), ranked[i].node, worker(ranked[i].node));
      assert ranked[i] in ranked && ranked[j] in ranked;
      assert ScoreOf(ranked[i]) >= ScoreOf(ranked[j]);
    }
  }

  lemma {:induction false} CandidatesFromListing(intent: PodIntent, states: seq<NodeState>, worker: NodeState -> bool,
                              ranked: seq<Scored>, scored: seq<ScoredNode>)
    requires multiset(ranked) == multiset(Map(Rate(worker), Filter(Admits(intent), states)))
    requires multiset(scored) == multiset(Map(EntryOf, ranked))
    ensures |scored| == |Filter(Admits(intent), states)|
    ensures forall k :: 0 <= k < |scored| ==> FromListing(scored[k], intent, states)
  {
    SameMembers(ranked, Map(Rate(worker), Filter(Admits(intent), states)));
    MapAt(Rate(worker), Filter(Admits(intent), states));
    MapAt(EntryOf, ranked);
    SameMembers(scored, Map(EntryOf, ranked));
    RankedFromListing(ranked, intent, states, worker);
    forall k | 0 <= k < |scored| ensures FromListing(scored[k], intent, states) {
      assert scored[k] in Map(EntryOf, ranked);
      var j :| 0 <= j < |ranked| && EntryOf(ranked[j]) == scored[k];
      assert ranked[j] in ranked;
    }
  }

  // ----- the whole call -----

  datatype Placement = NoNodesAvailable | Placed(node: NodeName, reserved: bool)

  predicate Listed(kube: seq<KubeNode>, name: NodeName) {
    exists k :: 0 <= k < |kube| && kube[k].name == name
  }

  /** What the outside world answers during one call: the precomputed decision and whether
      binding to it succeeds, the listing of node records, the pod, the turn drawn, and
      which nodes are workers. */
  datatype Answers = Answers(
    decision: Option<NodeName>,
    decisionBinds: bool,
    states: Option<seq<NodeState>>,
    pod: PodLookup,
    index: Option<nat>,
    worker: NodeState -> bool)

  /** The call's claim on a node it returns: its one reservation there, on a record that
      was listed and passed the filter, and which the API list vouches for. */
  ghost predicate Claims(cluster: Cluster, me: nat, states: seq<NodeState>, kube: seq<KubeNode>, node: NodeName)
    reads cluster, cluster.repo
  {
    && me in cluster.clients && cluster.HoldsOnly(me, Some(node)) && Listed(kube, node)
    && HasNode(cluster.clients[me]) && Vouched(cluster.clients[me])
    && exists e: ScoredNode :: e.name == node && FromListing(e, cluster.clients[me].intent, states)
  }

  ghost predicate ClaimsNothing(cluster: Cluster, me: nat)
    reads cluster, cluster.repo
  {
    me in cluster.clients ==> cluster.HoldsOnly(me, None)
  }

  /** The call has gone through all its candidates. */
  ghost predicate TriedAll(cluster: Cluster, me: nat)
    reads cluster, cluster.repo
  {
    && me in cluster.clients && cluster.clients[me].pc == Trying(|cluster.clients[me].scored|)
    && forall i: nat :: i < |cluster.clients[me].scored| ==> Tried(cluster.origin, cluster.trace, me, i)
  }

  /** Reserves and binds on the best candidate, and falls back to the first listed node if
      the pod cannot be looked up or every candidate was tried in vain. */
  method Place(cluster: Cluster, me: nat, intent: PodIntent, states: seq<NodeState>, scored: seq<ScoredNode>, kube: seq<KubeNode>, pod: PodLookup)
    returns (r: Placement)
    requires cluster.Valid() && me !in cluster.clients && 0 <= intent.cpu && 0 <= intent.mem
    requires kube != [] && scored != []
    requires forall k :: 0 <= k < |scored| ==> FromListing(scored[k], intent, states)
    modifies cluster, cluster.repo
    ensures cluster.Valid() && cluster.origin == old(cluster.origin) && old(cluster.trace) <= cluster.trace
    ensures r.Placed?
    ensures pod == PodMissing ==> r == Placed(kube[0].name, false)
    ensures pod.PodOn? ==> r == Placed(pod.node, false)
    ensures !pod.PodUnassigned? ==> cluster.trace == old(cluster.trace) && me !in cluster.clients
    ensures pod.PodUnassigned? ==>
              && me in cluster.clients && cluster.clients[me].intent == intent
              && cluster.clients[me].scored == scored && cluster.clients[me].kube == kube
              && (!r.reserved ==> r.node == kube[0].name && TriedAll(cluster, me))
    ensures if r.reserved then Claims(cluster, me, states, kube, r.node) else ClaimsNothing(cluster, me)
    ensures me in cluster.clients ==> cluster.KeepsOnlyOrphans(me)
  {
    var out := cluster.ReserveAndBind(me, intent, scored, kube, pod);
    match out {
      case LookupError =>
        return Placed(kube[0].name, false);
      case Panicked =>
        assert false;
      case AlreadyOn(node) =>
        return Placed(node, false);
      case ReservedOn(node) =>
        assert FromListing(scored[cluster.clients[me].pc.i], intent, states);
        return Placed(node, true);
      case FirstNode(node) =>
        return Placed(node, false);
      case NoNodes =>
        assert false;
    }
  }

  lemma SomeAdmitted(intent: PodIntent, states: seq<NodeState>)
    ensures Filter(Admits(intent), states) == [] <==> forall node :: node in states ==> CheckHardConstraints(intent, node).Some?
  {
    FilterMembers(Admits(intent), states);
    if Filter(Admits(intent), states) != [] {
      assert Filter(Admits(intent), states)[0] in Filter(Admits(intent), states);
    }
  }

  /** The call has taken no step. */
  twostate predicate Untouched(cluster: Cluster, me: nat)
    reads cluster
  {
    cluster.trace == old(cluster.trace) && me !in cluster.clients
  }

  /** Candidates for this intent, ranked and rotated, are what the call has gone by, and it
      claims one of them or has tried them all. */
  ghost predicate WentBy(cluster: Cluster, me: nat, intent: PodIntent, states: seq<NodeState>, ranked: seq<Scored>,
                         kube: seq<KubeNode>, world: Answers, r: Placement)
    requires r.Placed? && kube != []
    reads cluster, cluster.repo
  {
    && me in cluster.clients && cluster.clients[me].intent == intent && cluster.clients[me].kube == kube
    && multiset(ranked) == multiset(Map(Rate(world.worker), Filter(Admits(intent), states)))
    && Descending(ranked, ScoreOf)
    && cluster.clients[me].scored == RoundRobin.InTurn(Map(EntryOf, ranked), world.index)
    && (if r.reserved then Claims(cluster, me, states, kube, r.node)
        else r.node == kube[0].name && TriedAll(cluster, me) && ClaimsNothing(cluster, me))
  }

  /** Schedules by the records, when there is no decision to follow. */
  method ScheduleByRecords(cluster: Cluster, me: nat, spec: PodSpec, kube: seq<KubeNode>, world: Answers)
    returns (r: Placement, ghost ranked: seq<Scored>)
    requires cluster.Valid() && me !in cluster.clients && kube != []
    requires Accounting.RequestsNonNegative(spec.resources)
    modifies cluster, cluster.repo
    ensures cluster.Valid() && cluster.origin == old(cluster.origin) && old(cluster.trace) <= cluster.trace && r.Placed?
    ensures var intent := IntentOf(spec);
            if intent.None? || world.states.None? || (forall node :: node in world.states.value ==> CheckHardConstraints(intent.value, node).Some?)
            then r == Placed(kube[0].name, false) && Untouched(cluster, me)
            else match world.pod
                 case PodMissing => r == Placed(kube[0].name, false) && Untouched(cluster, me)
                 case PodOn(node) => r == Placed(node, false) && Untouched(cluster, me)
                 case PodUnassigned => WentBy(cluster, me, intent.value, world.states.value, ranked, kube, world, r)
    ensures me in cluster.clients ==> cluster.KeepsOnlyOrphans(me)
  {
    ranked := [];
    var first := kube[0].name;
    var intent := ExtractPodIntent(spec);
    if intent.None? || world.states.None? {
      return Placed(first, false), ranked;
    }
    var scored;
    scored, ranked := Candidates(intent.value, world.states.value, world.worker, world.index);
    SomeAdmitted(intent.value, world.states.value);
    if |scored| == 0 {
      return Placed(first, false), ranked;
    }
    r := Place(cluster, me, intent.value, world.states.value, scored, kube, world.pod);
  }

  /** Schedules a pod. Whatever interferes, a node is returned as soon as the API lists one,
      and which one, and how, is settled case by case. A precomputed decision that is listed
      and can be bound is taken as it is. Without an intent, a listing, or a record that
      passes the filter, the first listed node is returned and nothing is reserved; so it is
      when the pod cannot be looked up, and a pod that has a node keeps it. In every other
      case the call tries the filtered, ranked and rotated candidates in order: if it claims
      a reservation it holds exactly this one, on a record that was listed and passed the
      filter and that the API list vouches for; otherwise it has tried every candidate,
      holds none (but for those leaked by lost messages), and the first listed node is
      returned. The access to the first of no candidates never happens. */
  method Schedule(cluster: Cluster, me: nat, spec: PodSpec, kube: seq<KubeNode>, world: Answers)
    returns (r: Placement, ghost ranked: seq<Scored>)
    requires cluster.Valid() && me !in cluster.clients
    requires Accounting.RequestsNonNegative(spec.resources)
    modifies cluster, cluster.repo
    ensures cluster.Valid() && cluster.origin == old(cluster.origin) && old(cluster.trace) <= cluster.trace
    ensures r == NoNodesAvailable <==> kube == []
    ensures kube != [] ==>
              var intent := IntentOf(spec);
              if world.decision.Some? && Listed(kube, world.decision.value) && world.decisionBinds
              then r == Placed(world.decision.value, false) && Untouched(cluster, me)
              else if intent.None? || world.states.None?
                      || (forall node :: node in world.states.value ==> CheckHardConstraints(intent.value, node).Some?)
              then r == Placed(kube[0].name, false) && Untouched(cluster, me)
              else match world.pod
                   case PodMissing => r == Placed(kube[0].name, false) && Untouched(cluster, me)
                   case PodOn(node) => r == Placed(node, false) && Untouched(cluster, me)
                   case PodUnassigned => WentBy(cluster, me, intent.value, world.states.value, ranked, kube, world, r)
    ensures if r.Placed? && r.reserved
            then world.states.Some? && Claims(cluster, me, world.states.value, kube, r.node)
            else ClaimsNothing(cluster, me)
    ensures me in cluster.clients ==> cluster.KeepsOnlyOrphans(me)
  {
    ranked := [];
    if |kube| == 0 {
      return NoNodesAvailable, ranked;
    }
    if world.decision.Some? {
      FindsFirst(kube, world.decision.value);
      var found := FindKubeNode(kube, world.decision.value);
      if found.Some? && world.decisionBinds {
        return Placed(world.decision.value, false), ranked;
      }
    }
    r, ranked := ScheduleByRecords(cluster, me, spec, kube, world);
  }
}
