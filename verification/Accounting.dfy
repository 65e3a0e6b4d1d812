/** Two ways of adding up what the pods on a node request. The placement provider takes,
    pod by pod, the larger of the containers' sum and the largest init container. The
    fallback scheduler keeps one running total per node, adds the containers to it and
    raises it to any larger init container. */
module Accounting {
  import opened Wrappers
  import opened Sorting
  import opened Reals

  type NodeName = nat

  datatype Request = Request(cpu: int, mem: int)

  datatype Pod = Pod(node: Option<NodeName>, terminal: bool, containers: seq<Request>, inits: seq<Request>)

  /** One resource of one pod: what its containers and its init containers request. */
  datatype Load = Load(containers: seq<int>, inits: seq<int>)

  function Total(s: seq<int>): int {
    if s == [] then 0 else Total(s[..|s| - 1]) + s[|s| - 1]
  }

  /** The largest request, or zero. */
  function Peak(s: seq<int>): int {
    if s == [] then 0 else Larger(Peak(s[..|s| - 1]), s[|s| - 1])
  }

  function Larger(a: int, b: int): int {
    if b > a then b else a
  }

  /** Kubernetes refuses negative requests. */
  predicate NonNegative(p: Load) {
    NoneNegative(p.containers) && NoneNegative(p.inits)
  }

  predicate NoneNegative(s: seq<int>) {
    forall i :: 0 <= i < |s| ==> 0 <= s[i]
  }

  predicate AllNonNegative(pods: seq<Load>) {
    forall k :: 0 <= k < |pods| ==> NonNegative(pods[k])
  }

  // ----- the two ways -----

  /** The provider's request of one pod. */
  function Effective(p: Load): int {
    Larger(Total(p.containers), Peak(p.inits))
  }

  function EffectiveSum(pods: seq<Load>): int {
    if pods == [] then 0 else EffectiveSum(pods[..|pods| - 1]) + Effective(pods[|pods| - 1])
  }

  function ContainerSum(pods: seq<Load>): int {
    if pods == [] then 0 else ContainerSum(pods[..|pods| - 1]) + Total(pods[|pods| - 1].containers)
  }

  function Raised(x: int, inits: seq<int>): int {
    if inits == [] then x else Larger(Raised(x, inits[..|inits| - 1]), inits[|inits| - 1])
  }

  /** What one pod does to the scheduler's running total. */
  function AddPod(running: int, p: Load): int {
    Raised(running + Total(p.containers), p.inits)
  }

  function Running(pods: seq<Load>): int {
    if pods == [] then 0 else AddPod(Running(pods[..|pods| - 1]), pods[|pods| - 1])
  }

  // ----- how they relate -----

  lemma {:induction false} TotalNonNegative(s: seq<int>)
    requires NoneNegative(s)
    ensures 0 <= Total(s)
  {
    if s != [] {
      TotalNonNegative(s[..|s| - 1]);
    }
  }

  /** The peak is the largest request, if any is positive. */
  lemma {:induction false} PeakIsLargest(s: seq<int>)
    ensures 0 <= Peak(s) && (forall i :: 0 <= i < |s| ==> s[i] <= Peak(s))
    ensures Peak(s) == 0 || Peak(s) in s
  {
    if s != [] {
      PeakIsLargest(s[..|s| - 1]);
    }
  }

  lemma EffectiveNonNegative(p: Load)
    requires NonNegative(p)
    ensures 0 <= Effective(p)
  {
    TotalNonNegative(p.containers);
  }

  lemma {:induction false} RaisedIsLarger(x: int, inits: seq<int>)
    requires 0 <= x
    ensures Raised(x, inits) == Larger(x, Peak(inits))
  {
    if inits != [] {
      RaisedIsLarger(x, inits[..|inits| - 1]);
    }
  }

  lemma AddPodIs(running: int, p: Load)
    requires 0 <= running && NonNegative(p)
    ensures 0 <= Total(p.containers)
    ensures AddPod(running, p) == Larger(running + Total(p.containers), Peak(p.inits))
  {
    TotalNonNegative(p.containers);
    RaisedIsLarger(running + Total(p.containers), p.inits);
  }

  /** For every list of pods in every order: the running total is at least the sum of all
      container requests and at most the sum of the pods' effective requests. */
  lemma {:induction false} Sandwich(pods: seq<Load>)
    requires AllNonNegative(pods)
    ensures 0 <= ContainerSum(pods) <= Running(pods) <= EffectiveSum(pods)
  {
    if pods != [] {
      Sandwich(pods[..|pods| - 1]);
      AddPodIs(Running(pods[..|pods| - 1]), pods[|pods| - 1]);
    }
  }

  /** Pod k's init requests do not exceed the container sum up to and including its own. */
  predicate Covered(pods: seq<Load>, k: nat)
    requires k < |pods|
  {
    Peak(pods[k].inits) <= ContainerSum(pods[..k + 1])
  }

  /** The running total is the container sum exactly when every pod's init requests are
      covered. */
  lemma {:induction false} RunningIsContainerSum(pods: seq<Load>)
    requires AllNonNegative(pods)
    ensures Running(pods) == ContainerSum(pods) <==> forall k :: 0 <= k < |pods| ==> Covered(pods, k)
  {
    if pods != [] {
      var rest, last := pods[..|pods| - 1], pods[|pods| - 1];
      RunningIsContainerSum(rest);
      Sandwich(rest);
      AddPodIs(Running(rest), last);
      forall k | 0 <= k < |rest| ensures Covered(pods, k) <==> Covered(rest, k) {
        assert pods[..k + 1] == rest[..k + 1];
      }
      assert pods[..|rest| + 1] == pods;
      assert Covered(pods, |rest|) <==> Peak(last.inits) <= ContainerSum(pods);
    }
  }

  /** A pod's largest init request plus the containers of all later pods. */
  function TotalFrom(pods: seq<Load>, k: nat): int
    requires k < |pods|
  {
    Peak(pods[k].inits) + ContainerSum(pods[k + 1..])
  }

  lemma TotalFromOneMore(rest: seq<Load>, last: Load)
    ensures forall k: nat :: k < |rest| ==> TotalFrom(rest + [last], k) == TotalFrom(rest, k) + Total(last.containers)
    ensures TotalFrom(rest + [last], |rest|) == Peak(last.inits)
  {
    var pods := rest + [last];
    forall k: nat | k < |rest| ensures TotalFrom(pods, k) == TotalFrom(rest, k) + Total(last.containers) {
      assert pods[k + 1..][..|pods[k + 1..]| - 1] == rest[k + 1..];
    }
    assert pods[|rest| + 1..] == [];
  }

  /** In closed form: the running total is the container sum or the largest of these. */
  lemma {:induction false} RunningIsLargest(pods: seq<Load>)
    requires AllNonNegative(pods)
    ensures ContainerSum(pods) <= Running(pods)
    ensures forall k: nat :: k < |pods| ==> TotalFrom(pods, k) <= Running(pods)
    ensures Running(pods) == ContainerSum(pods) || exists k: nat :: k < |pods| && Running(pods) == TotalFrom(pods, k)
  {
    if pods != [] {
      var rest, last := pods[..|pods| - 1], pods[|pods| - 1];
      RunningIsLargest(rest);
      Sandwich(rest);
      AddPodIs(Running(rest), last);
      TotalFromOneMore(rest, last);
      assert pods == rest + [last];
      if Running(pods) == Peak(last.inits) {
        assert Running(pods) == TotalFrom(pods, |rest|);
      } else if Running(rest) != ContainerSum(rest) {
        var k: nat :| k < |rest| && Running(rest) == TotalFrom(rest, k);
        assert Running(pods) == TotalFrom(pods, k);
      }
    }
  }

  // ----- permuted listings -----

  function Contained(p: Load): int {
    Total(p.containers)
  }

  lemma {:induction false} SumsAreTotals(pods: seq<Load>)
    ensures EffectiveSum(pods) == Total(Map(Effective, pods))
    ensures ContainerSum(pods) == Total(Map(Contained, pods))
  {
    if pods != [] {
      var rest, last := pods[..|pods| - 1], pods[|pods| - 1];
      SumsAreTotals(rest);
      OneMoreAmount(Map(Effective, rest), Effective(last));
      OneMoreAmount(Map(Contained, rest), Contained(last));
    }
  }

  lemma {:induction false} TotalOfConcat(a: seq<int>, b: seq<int>)
    ensures Total(a + b) == Total(a) + Total(b)
  {
    if b == [] {
      assert a + b == a;
    } else {
      assert (a + b)[..|a + b| - 1] == a + b[..|b| - 1];
      TotalOfConcat(a, b[..|b| - 1]);
    }
  }

  lemma {:induction false} TotalPermutes(a: seq<int>, b: seq<int>)
    requires multiset(a) == multiset(b)
    ensures Total(a) == Total(b)
  {
    if a == [] {
      assert |multiset(b)| == 0;
    } else {
      var j := LastIn(a, b);
      TotalPermutes(a[..|a| - 1], b[..j] + b[j + 1..]);
      TotalOfConcat(b[..j], b[j + 1..]);
      TotalOfConcat(b[..j] + [b[j]], b[j + 1..]);
      OneMoreAmount(b[..j], b[j]);
    }
  }

  /** Neither the provider's sum nor the sum of all containers depends on the order in which
      the pods are listed. */
  lemma SumsPermute(a: seq<Load>, b: seq<Load>)
    requires multiset(a) == multiset(b)
    ensures EffectiveSum(a) == EffectiveSum(b) && ContainerSum(a) == ContainerSum(b)
  {
    SumsAreTotals(a);
    SumsAreTotals(b);
    MapPermutes(Effective, a, b);
    MapPermutes(Contained, a, b);
    TotalPermutes(Map(Effective, a), Map(Effective, b));
    TotalPermutes(Map(Contained, a), Map(Contained, b));
  }

  lemma {:induction false} ContainerSumOfConcat(a: seq<Load>, b: seq<Load>)
    ensures ContainerSum(a + b) == ContainerSum(a) + ContainerSum(b)
  {
    if b == [] {
      assert a + b == a;
    } else {
      assert (a + b)[..|a + b| - 1] == a + b[..|b| - 1];
      ContainerSumOfConcat(a, b[..|b| - 1]);
    }
  }

  lemma ContainerSumSplits(pods: seq<Load>, k: nat)
    requires k <= |pods|
    ensures ContainerSum(pods) == ContainerSum(pods[..k]) + ContainerSum(pods[k..])
  {
    assert pods == pods[..k] + pods[k..];
    ContainerSumOfConcat(pods[..k], pods[k..]);
  }

  /** By how much a pod's largest init request exceeds its containers. */
  function Excess(p: Load): int {
    Peak(p.inits) - Total(p.containers)
  }

  /** The largest excess, or zero. */
  function TopExcess(pods: seq<Load>): int {
    if pods == [] then 0 else Larger(TopExcess(pods[..|pods| - 1]), Excess(pods[|pods| - 1]))
  }

  /** No init request exceeds its pod's containers, or every pod with containers exceeds
      them by the same, largest, amount. */
  predicate OrderFree(pods: seq<Load>) {
    || TopExcess(pods) == 0
    || forall k :: 0 <= k < |pods| && Total(pods[k].containers) > 0 ==> Excess(pods[k]) == TopExcess(pods)
  }

  lemma {:induction false} TopExcessIs(pods: seq<Load>)
    ensures 0 <= TopExcess(pods)
    ensures forall k :: 0 <= k < |pods| ==> Excess(pods[k]) <= TopExcess(pods)
    ensures TopExcess(pods) == 0 || exists k :: 0 <= k < |pods| && Excess(pods[k]) == TopExcess(pods)
  {
    if pods != [] {
      var rest := pods[..|pods| - 1];
      TopExcessIs(rest);
      assert forall k :: 0 <= k < |rest| ==> pods[k] == rest[k];
    }
  }

  lemma TopExcessPermutes(a: seq<Load>, b: seq<Load>)
    requires multiset(a) == multiset(b)
    ensures TopExcess(a) == TopExcess(b) && (OrderFree(a) <==> OrderFree(b))
  {
    TopExcessCovers(a, b);
    TopExcessCovers(b, a);
  }

  lemma TopExcessCovers(a: seq<Load>, b: seq<Load>)
    requires multiset(a) == multiset(b)
    ensures TopExcess(a) <= TopExcess(b)
    ensures TopExcess(a) == TopExcess(b) && OrderFree(b) ==> OrderFree(a)
  {
    TopExcessIs(a);
    TopExcessIs(b);
    SameMembers(a, b);
    forall k | 0 <= k < |a|
      ensures Excess(a[k]) <= TopExcess(b)
      ensures TopExcess(b) != 0 && OrderFree(b) && Total(a[k].containers) > 0 ==> Excess(a[k]) == TopExcess(b)
    {
      assert a[k] in b;
      var j :| 0 <= j < |b| && b[j] == a[k];
    }
  }

  /** The running total exceeds the container sum by at most the largest excess. */
  lemma {:induction false} RunningAtMost(pods: seq<Load>, e: int)
    requires AllNonNegative(pods) && 0 <= e && forall k :: 0 <= k < |pods| ==> Excess(pods[k]) <= e
    ensures Running(pods) <= ContainerSum(pods) + e
  {
    if pods != [] {
      var rest, last := pods[..|pods| - 1], pods[|pods| - 1];
      assert forall k :: 0 <= k < |rest| ==> pods[k] == rest[k];
      RunningAtMost(rest, e);
      Sandwich(rest);
      AddPodIs(Running(rest), last);
    }
  }

  /** It stays strictly below that when the first pod has containers and a smaller excess. */
  lemma {:induction false} RunningBelow(pods: seq<Load>, e: int)
    requires AllNonNegative(pods) && pods != [] && 0 < e && forall k :: 0 <= k < |pods| ==> Excess(pods[k]) <= e
    requires Total(pods[0].containers) > 0 && Excess(pods[0]) < e
    ensures 0 < ContainerSum(pods) && Running(pods) < ContainerSum(pods) + e
  {
    var rest, last := pods[..|pods| - 1], pods[|pods| - 1];
    assert forall k :: 0 <= k < |rest| ==> pods[k] == rest[k];
    if rest != [] {
      RunningBelow(rest, e);
    }
    Sandwich(rest);
    AddPodIs(Running(rest), last);
  }

  /** It is at least a pod's excess plus the containers from that pod on. */
  lemma RunningAtLeast(pods: seq<Load>, k: nat)
    requires AllNonNegative(pods) && k < |pods|
    ensures Excess(pods[k]) + ContainerSum(pods[k..]) <= Running(pods)
  {
    RunningIsLargest(pods);
    assert TotalFrom(pods, k) <= Running(pods);
    ContainerSumSplits(pods[k..], 1);
    assert pods[k..][..1] == [pods[k]] && pods[k..][1..] == pods[k + 1..];
    assert [pods[k]][..0] == [] && ContainerSum([pods[k]]) == Total(pods[k].containers);
  }

  /** The first pod with containers, if there is one. */
  lemma {:induction false} FirstContained(pods: seq<Load>) returns (k: nat)
    requires AllNonNegative(pods)
    ensures k <= |pods| && ContainerSum(pods[..k]) == 0
    ensures k < |pods| ==> Total(pods[k].containers) > 0
  {
    if pods == [] {
      k := 0;
      assert pods[..0] == [];
    } else {
      var rest := pods[..|pods| - 1];
      k := FirstContained(rest);
      assert pods[..k] == rest[..k];
      if k == |rest| {
        assert rest[..k] == rest && pods[..|pods|] == pods;
        assert NonNegative(pods[k]);
        TotalNonNegative(pods[k].containers);
        if Total(pods[k].containers) == 0 {
          k := |pods|;
        }
      }
    }
  }

  /** When the order is free, the running total is the container sum plus the largest excess. */
  lemma OrderFreeRunning(pods: seq<Load>)
    requires AllNonNegative(pods) && OrderFree(pods)
    ensures Running(pods) == ContainerSum(pods) + TopExcess(pods)
  {
    TopExcessIs(pods);
    RunningAtMost(pods, TopExcess(pods));
    Sandwich(pods);
    if TopExcess(pods) != 0 {
      var k := FirstContained(pods);
      if k == |pods| {
        assert pods[..k] == pods;
        k :| 0 <= k < |pods| && Excess(pods[k]) == TopExcess(pods);
        SuffixNonNegative(pods, k);
      } else {
        ContainerSumSplits(pods, k);
      }
      RunningAtLeast(pods, k);
    }
  }

  lemma SuffixNonNegative(pods: seq<Load>, k: nat)
    requires AllNonNegative(pods) && k <= |pods|
    ensures 0 <= ContainerSum(pods[k..])
  {
    forall j | 0 <= j < |pods[k..]| ensures NonNegative(pods[k..][j]) {
      assert pods[k..][j] == pods[k + j];
    }
    Sandwich(pods[k..]);
  }

  predicate Permutes(a: seq<Load>, b: seq<Load>) {
    multiset(a) == multiset(b)
  }

  function ToFront(pods: seq<Load>, k: nat): seq<Load>
    requires k < |pods|
  {
    [pods[k]] + pods[..k] + pods[k + 1..]
  }

  lemma ToFrontPermutes(pods: seq<Load>, k: nat)
    requires k < |pods|
    ensures Permutes(ToFront(pods, k), pods)
  {
    assert pods == pods[..k] + [pods[k]] + pods[k + 1..];
  }

  lemma PermutedNonNegative(a: seq<Load>, b: seq<Load>)
    requires Permutes(a, b) && AllNonNegative(b)
    ensures AllNonNegative(a)
  {
    SameMembers(a, b);
    forall k | 0 <= k < |a| ensures NonNegative(a[k]) {
      assert a[k] in b;
    }
  }

  /** Two pods whose turn at the front makes a difference. */
  lemma OrderMatters(pods: seq<Load>) returns (p: seq<Load>, q: seq<Load>)
    requires AllNonNegative(pods) && !OrderFree(pods)
    ensures Permutes(p, pods) && Permutes(q, pods) && Running(q) < Running(p)
  {
    var e := TopExcess(pods);
    TopExcessIs(pods);
    var a :| 0 <= a < |pods| && Excess(pods[a]) == e;
    var b :| 0 <= b < |pods| && Total(pods[b].containers) > 0 && Excess(pods[b]) != e;
    p, q := ToFront(pods, a), ToFront(pods, b);
    ToFrontPermutes(pods, a);
    ToFrontPermutes(pods, b);
    PermutedNonNegative(p, pods);
    PermutedNonNegative(q, pods);
    SumsPermute(p, pods);
    SumsPermute(q, pods);
    TopExcessPermutes(q, pods);
    TopExcessIs(q);
    RunningAtLeast(p, 0);
    assert p[0..] == p;
    RunningBelow(q, e);
  }

  /** Every order of the listing gives the same running total if and only if no init request
      exceeds its pod's containers or every pod with containers exceeds them by the same,
      largest, amount. */
  lemma SameInEveryOrder(pods: seq<Load>)
    requires AllNonNegative(pods)
    ensures (forall q :: Permutes(q, pods) ==> Running(q) == Running(pods)) <==> OrderFree(pods)
  {
    if OrderFree(pods) {
      forall q | Permutes(q, pods) ensures Running(q) == Running(pods) {
        PermutedNonNegative(q, pods);
        SumsPermute(q, pods);
        TopExcessPermutes(q, pods);
        OrderFreeRunning(q);
        OrderFreeRunning(pods);
      }
    } else {
      var p, q := OrderMatters(pods);
    }
  }

  // ----- which pods count -----

  function CpuOf(r: Request): int {
    r.cpu
  }

  function MemOf(r: Request): int {
    r.mem
  }

  function LoadOf(amount: Request -> int): Pod -> Load {
    (p: Pod) => Load(Map(amount, p.containers), Map(amount, p.inits))
  }

  predicate Counts(p: Pod, node: NodeName) {
    p.node == Some(node) && !p.terminal
  }

  function CountsOn(node: NodeName): Pod -> bool {
    (p: Pod) => Counts(p, node)
  }

  /** The loads, in one resource, of the pods that count on a node. */
  function Loads(pods: seq<Pod>, node: NodeName, amount: Request -> int): seq<Load> {
    Map(LoadOf(amount), Filter(CountsOn(node), pods))
  }

  /** They are the pods assigned to the node that have neither succeeded nor failed. */
  lemma {:induction false} LoadsExactly(pods: seq<Pod>, node: NodeName, amount: Request -> int)
    ensures Loads(pods, node, amount)
         == Map((p: Pod) => Load(Map(amount, p.containers), Map(amount, p.inits)),
                Filter((p: Pod) => p.node == Some(node) && !p.terminal, pods))
  {
    SameFilter(CountsOn(node), (p: Pod) => p.node == Some(node) && !p.terminal, pods);
    SameMap(LoadOf(amount), (p: Pod) => Load(Map(amount, p.containers), Map(amount, p.inits)), Filter(CountsOn(node), pods));
  }

  lemma LoadsOneMore(pods: seq<Pod>, p: Pod, node: NodeName, amount: Request -> int)
    ensures Loads(pods + [p], node, amount) == Loads(pods, node, amount) + if Counts(p, node) then [LoadOf(amount)(p)] else []
  {
    assert (pods + [p])[..|pods + [p]| - 1] == pods;
    MapOneMore(LoadOf(amount), Filter(CountsOn(node), pods), p);
  }

  lemma RunningOneMore(pods: seq<Load>, p: Load)
    ensures Running(pods + [p]) == AddPod(Running(pods), p)
    ensures EffectiveSum(pods + [p]) == EffectiveSum(pods) + Effective(p)
  {
    assert (pods + [p])[..|pods + [p]| - 1] == pods;
  }

  // ----- the provider -----

  /** The larger of the containers' sum and the largest init request, of each resource. */
  lemma EffectiveIsLarger(p: Pod, amount: Request -> int)
    ensures var request := Effective(LoadOf(amount)(p));
            && Total(Map(amount, p.containers)) <= request && (forall r :: r in p.inits ==> amount(r) <= request)
            && (request == Total(Map(amount, p.containers)) || request == 0 || exists r :: r in p.inits && amount(r) == request)
  {
    var inits := Map(amount, p.inits);
    PeakIsLargest(inits);
    MapAt(amount, p.inits);
    if Peak(inits) in inits {
      var i :| 0 <= i < |inits| && inits[i] == Peak(inits);
      assert p.inits[i] in p.inits;
    }
  }

  method PodResourceRequest(p: Pod) returns (cpu: int, mem: int)
    ensures cpu == Effective(LoadOf(CpuOf)(p)) && mem == Effective(LoadOf(MemOf)(p))
    ensures Total(Map(CpuOf, p.containers)) <= cpu && Total(Map(MemOf, p.containers)) <= mem
    ensures forall r :: r in p.inits ==> r.cpu <= cpu && r.mem <= mem
    ensures cpu == Total(Map(CpuOf, p.containers)) || cpu == 0 || exists r :: r in p.inits && r.cpu == cpu
    ensures mem == Total(Map(MemOf, p.containers)) || mem == 0 || exists r :: r in p.inits && r.mem == mem
  {
    cpu, mem := 0, 0;
    for i := 0 to |p.containers|
      invariant cpu == Total(Map(CpuOf, p.containers[..i])) && mem == Total(Map(MemOf, p.containers[..i]))
    {
      OneMoreRequest(p.containers, i);
      cpu := cpu + p.containers[i].cpu;
      mem := mem + p.containers[i].mem;
    }
    assert p.containers[..|p.containers|] == p.containers;
    var maxInitCpu, maxInitMem := 0, 0;
    for i := 0 to |p.inits|
      invariant maxInitCpu == Peak(Map(CpuOf, p.inits[..i])) && maxInitMem == Peak(Map(MemOf, p.inits[..i]))
    {
      OneMoreRequest(p.inits, i);
      if p.inits[i].cpu > maxInitCpu {
        maxInitCpu := p.inits[i].cpu;
      }
      if p.inits[i].mem > maxInitMem {
        maxInitMem := p.inits[i].mem;
      }
    }
    assert p.inits[..|p.inits|] == p.inits;
    if maxInitCpu > cpu {
      cpu := maxInitCpu;
    }
    if maxInitMem > mem {
      mem := maxInitMem;
    }
    EffectiveIsLarger(p, CpuOf);
    EffectiveIsLarger(p, MemOf);
  }

  lemma OneMoreRequest(rs: seq<Request>, i: nat)
    requires i < |rs|
    ensures Total(Map(CpuOf, rs[..i + 1])) == Total(Map(CpuOf, rs[..i])) + rs[i].cpu
    ensures Total(Map(MemOf, rs[..i + 1])) == Total(Map(MemOf, rs[..i])) + rs[i].mem
    ensures forall y :: Raised(y, Map(CpuOf, rs[..i + 1])) == Larger(Raised(y, Map(CpuOf, rs[..i])), rs[i].cpu)
    ensures forall y :: Raised(y, Map(MemOf, rs[..i + 1])) == Larger(Raised(y, Map(MemOf, rs[..i])), rs[i].mem)
    ensures Peak(Map(CpuOf, rs[..i + 1])) == Larger(Peak(Map(CpuOf, rs[..i])), rs[i].cpu)
    ensures Peak(Map(MemOf, rs[..i + 1])) == Larger(Peak(Map(MemOf, rs[..i])), rs[i].mem)
  {
    assert rs[..i + 1][..|rs[..i + 1]| - 1] == rs[..i];
    OneMoreAmount(Map(CpuOf, rs[..i]), rs[i].cpu);
    OneMoreAmount(Map(MemOf, rs[..i]), rs[i].mem);
  }

  lemma OneMoreAmount(s: seq<int>, x: int)
    ensures Total(s + [x]) == Total(s) + x && Peak(s + [x]) == Larger(Peak(s), x)
    ensures forall y :: Raised(y, s + [x]) == Larger(Raised(y, s), x)
  {
    assert (s + [x])[..|s + [x]| - 1] == s;
  }

  /** What the provider knows of a node's use. */
  datatype Usage = Usage(cpu: int, mem: int)

  lemma SumOneMore(pods: seq<Pod>, p: Pod, n: NodeName, amount: Request -> int)
    ensures EffectiveSum(Loads(pods + [p], n, amount))
         == EffectiveSum(Loads(pods, n, amount)) + if Counts(p, n) then Effective(LoadOf(amount)(p)) else 0
    ensures Running(Loads(pods + [p], n, amount))
         == if Counts(p, n) then AddPod(Running(Loads(pods, n, amount)), LoadOf(amount)(p)) else Running(Loads(pods, n, amount))
  {
    LoadsOneMore(pods, p, n, amount);
    RunningOneMore(Loads(pods, n, amount), LoadOf(amount)(p));
  }

  function UsageOf(pods: seq<Pod>, n: NodeName): Usage {
    Usage(EffectiveSum(Loads(pods, n, CpuOf)), EffectiveSum(Loads(pods, n, MemOf)))
  }

  /** What one more pod adds to a node's use. */
  function UsageWith(u: Usage, p: Pod, n: NodeName): Usage {
    if Counts(p, n) then Usage(u.cpu + Effective(LoadOf(CpuOf)(p)), u.mem + Effective(LoadOf(MemOf)(p))) else u
  }

  lemma CpuOneMore(pods: seq<Pod>, p: Pod, n: NodeName)
    ensures UsageOf(pods + [p], n).cpu == UsageWith(UsageOf(pods, n), p, n).cpu
  {
    SumOneMore(pods, p, n, CpuOf);
  }

  lemma MemOneMore(pods: seq<Pod>, p: Pod, n: NodeName)
    ensures UsageOf(pods + [p], n).mem == UsageWith(UsageOf(pods, n), p, n).mem
  {
    SumOneMore(pods, p, n, MemOf);
  }

  lemma UsageOneMore(pods: seq<Pod>, p: Pod, n: NodeName)
    ensures UsageOf(pods + [p], n) == UsageWith(UsageOf(pods, n), p, n)
  {
    CpuOneMore(pods, p, n);
    MemOneMore(pods, p, n);
  }

  ghost predicate UsageIs(runtime: map<NodeName, Usage>, nodes: set<NodeName>, pods: seq<Pod>) {
    runtime.Keys == nodes && forall n :: n in nodes ==> runtime[n] == UsageOf(pods, n)
  }

  method AddUsage(runtime: map<NodeName, Usage>, p: Pod) returns (after: map<NodeName, Usage>)
    ensures after.Keys == runtime.Keys
    ensures forall n :: n in runtime ==> after[n] == UsageWith(runtime[n], p, n)
  {
    after := runtime;
    if p.node.Some? && p.node.value in runtime && !p.terminal {
      var nr := runtime[p.node.value];
      var cpu, mem := PodResourceRequest(p);
      nr := nr.(cpu := nr.cpu + cpu);
      nr := nr.(mem := nr.mem + mem);
      after := runtime[p.node.value := nr];
    }
  }

  /** The accumulation over a listing: each node's use is the effective sum of its pods. */
  method AccumulateUsage(nodes: set<NodeName>, pods: seq<Pod>) returns (runtime: map<NodeName, Usage>)
    ensures UsageIs(runtime, nodes, pods)
  {
    runtime := map n | n in nodes :: Usage(0, 0);
    for i := 0 to |pods|
      invariant UsageIs(runtime, nodes, pods[..i])
    {
      assert pods[..i + 1] == pods[..i] + [pods[i]];
      runtime := AddUsage(runtime, pods[i]);
      forall n | n in nodes ensures runtime[n] == UsageOf(pods[..i + 1], n) {
        UsageOneMore(pods[..i], pods[i], n);
      }
    }
    assert pods[..|pods|] == pods;
  }

  // ----- the fallback scheduler -----

  class NodeResources {
    const node: NodeName
    const allocCpu: int
    const allocMem: int
    var reqCpu: int
    var reqMem: int

    constructor (node: NodeName, allocCpu: int, allocMem: int)
      ensures this.node == node && this.allocCpu == allocCpu && this.allocMem == allocMem
      ensures reqCpu == 0 && reqMem == 0
    {
      this.node, this.allocCpu, this.allocMem := node, allocCpu, allocMem;
      reqCpu, reqMem := 0, 0;
    }

    method AddContainers(p: Pod)
      modifies this
      ensures reqCpu == old(reqCpu) + Total(Map(CpuOf, p.containers))
      ensures reqMem == old(reqMem) + Total(Map(MemOf, p.containers))
    {
      for i := 0 to |p.containers|
        invariant reqCpu == old(reqCpu) + Total(Map(CpuOf, p.containers[..i]))
        invariant reqMem == old(reqMem) + Total(Map(MemOf, p.containers[..i]))
      {
        OneMoreRequest(p.containers, i);
        reqCpu := reqCpu + p.containers[i].cpu;
        reqMem := reqMem + p.containers[i].mem;
      }
      assert p.containers[..|p.containers|] == p.containers;
    }

    method RaiseByInits(p: Pod)
      modifies this
      ensures reqCpu == Raised(old(reqCpu), Map(CpuOf, p.inits))
      ensures reqMem == Raised(old(reqMem), Map(MemOf, p.inits))
    {
      for i := 0 to |p.inits|
        invariant reqCpu == Raised(old(reqCpu), Map(CpuOf, p.inits[..i]))
        invariant reqMem == Raised(old(reqMem), Map(MemOf, p.inits[..i]))
      {
        OneMoreRequest(p.inits, i);
        if p.inits[i].cpu > reqCpu {
          reqCpu := p.inits[i].cpu;
        }
        if p.inits[i].mem > reqMem {
          reqMem := p.inits[i].mem;
        }
      }
      assert p.inits[..|p.inits|] == p.inits;
    }

    /** Containers add up; a larger init container raises the node's running total. */
    method Account(p: Pod)
      modifies this
      ensures reqCpu == AddPod(old(reqCpu), LoadOf(CpuOf)(p)) && reqMem == AddPod(old(reqMem), LoadOf(MemOf)(p))
    {
      AddContainers(p);
      RaiseByInits(p);
      assert LoadOf(CpuOf)(p) == Load(Map(CpuOf, p.containers), Map(CpuOf, p.inits));
      assert LoadOf(MemOf)(p) == Load(Map(MemOf, p.containers), Map(MemOf, p.inits));
    }
  }

  /** Every node's running totals are those of the pods listed so far. */
  ghost predicate Summed(nodeMap: map<NodeName, NodeResources>, pods: seq<Pod>)
    reads nodeMap.Values
  {
    forall n :: n in nodeMap ==> NodeSummed(nodeMap[n], pods, n)
  }

  ghost predicate NodeSummed(nr: NodeResources, pods: seq<Pod>, n: NodeName)
    reads nr
  {
    nr.node == n && nr.reqCpu == Running(Loads(pods, n, CpuOf)) && nr.reqMem == Running(Loads(pods, n, MemOf))
  }

  method SumRequests(nodeMap: map<NodeName, NodeResources>, pods: seq<Pod>)
    requires Summed(nodeMap, [])
    modifies nodeMap.Values
    ensures Summed(nodeMap, pods)
  {
    for i := 0 to |pods|
      invariant Summed(nodeMap, pods[..i])
    {
      assert pods[..i + 1] == pods[..i] + [pods[i]];
      AccountPod(nodeMap, pods[..i], pods[i]);
    }
    assert pods[..|pods|] == pods;
  }

  method AccountPod(nodeMap: map<NodeName, NodeResources>, ghost before: seq<Pod>, p: Pod)
    requires Summed(nodeMap, before)
    modifies nodeMap.Values
    ensures Summed(nodeMap, before + [p])
  {
    if p.node.Some? && !p.terminal && p.node.value in nodeMap {
      var nr := nodeMap[p.node.value];
      assert NodeSummed(nr, before, p.node.value);
      nr.Account(p);
    }
    forall n | n in nodeMap ensures NodeSummed(nodeMap[n], before + [p], n) {
      assert old(NodeSummed(nodeMap[n], before, n));
      SumOneMore(before, p, n, CpuOf);
      SumOneMore(before, p, n, MemOf);
    }
  }

  // ----- choosing a node -----

  /** Least requested plus balanced allocation, each out of 100. With nothing allocatable
      the code divides zero by zero, and the score is not a number. */
  function Score(allocCpu: int, allocMem: int, usedCpu: int, usedMem: int): Option<real> {
    if allocCpu == 0 || allocMem == 0 then None
    else
      var cpuScore := (allocCpu - usedCpu) as real / allocCpu as real * 100.0;
      var memScore := (allocMem - usedMem) as real / allocMem as real * 100.0;
      var cpuFraction := usedCpu as real / allocCpu as real;
      var memFraction := usedMem as real / allocMem as real;
      Some((cpuScore + memScore) / 2.0 + (1.0 - Abs(cpuFraction - memFraction)) * 100.0)
  }

  lemma Cancel(x: real, y: real, a: real)
    requires 0.0 < a && x * a == y * a
    ensures x == y
  {
    assert (x - y) * a == 0.0;
  }

  lemma Complement(u: real, a: real)
    requires 0.0 < a
    ensures (a - u) / a == 1.0 - u / a
  {
    var p, q := (a - u) / a, u / a;
    assert p * a == a - u && q * a == u;
    Cancel(p, 1.0 - q, a);
  }

  lemma FractionInUnit(used: int, alloc: int)
    requires 0 <= used <= alloc && 0 < alloc
    ensures 0.0 <= used as real / alloc as real <= 1.0
    ensures (alloc - used) as real / alloc as real == 1.0 - used as real / alloc as real
  {
    Complement(used as real, alloc as real);
    assert (alloc - used) as real == alloc as real - used as real;
  }

  /** On a node that fits, the score falls by 1.5 points for every percent of the more used
      resource and rises by half a point for every percent of the less used one; so it
      lies between 50 and 200, and the initial best of -1 loses to every number. */
  lemma ScoreByBottleneck(allocCpu: int, allocMem: int, usedCpu: int, usedMem: int)
    requires 0 <= usedCpu <= allocCpu && 0 <= usedMem <= allocMem
    ensures Score(allocCpu, allocMem, usedCpu, usedMem).Some? <==> 0 < allocCpu && 0 < allocMem
    ensures 0 < allocCpu && 0 < allocMem ==>
              var c, m := usedCpu as real / allocCpu as real, usedMem as real / allocMem as real;
              var more, less := (if c < m then m else c), (if c < m then c else m);
              var s := Score(allocCpu, allocMem, usedCpu, usedMem).value;
              s == 200.0 - 150.0 * more + 50.0 * less && 50.0 <= s <= 200.0
  {
    if 0 < allocCpu && 0 < allocMem {
      FractionInUnit(usedCpu, allocCpu);
      FractionInUnit(usedMem, allocMem);
    }
  }

  lemma ScoreBeatsNone(allocCpu: int, allocMem: int, usedCpu: int, usedMem: int)
    requires 0 <= usedCpu <= allocCpu && 0 <= usedMem <= allocMem
    ensures Score(allocCpu, allocMem, usedCpu, usedMem).Some? <==> 0 < allocCpu && 0 < allocMem
    ensures var s := Score(allocCpu, allocMem, usedCpu, usedMem); s.Some? ==> s.value > -1.0
  {
    ScoreByBottleneck(allocCpu, allocMem, usedCpu, usedMem);
  }

  /** The node fits the pod's containers, and its score is a number. */
  predicate Selectable(nr: NodeResources, podCpu: int, podMem: int)
    reads nr
  {
    && nr.reqCpu + podCpu <= nr.allocCpu && nr.reqMem + podMem <= nr.allocMem
    && 0 < nr.allocCpu && 0 < nr.allocMem
  }

  function ScoreOf(nr: NodeResources, podCpu: int, podMem: int): Option<real>
    reads nr
  {
    Score(nr.allocCpu, nr.allocMem, nr.reqCpu + podCpu, nr.reqMem + podMem)
  }

  predicate BestOf(nodeMap: map<NodeName, NodeResources>, names: set<NodeName>, podCpu: int, podMem: int, best: Option<NodeName>)
    reads nodeMap.Values
  {
    match best
    case None => forall n :: n in names && n in nodeMap ==> !Selectable(nodeMap[n], podCpu, podMem)
    case Some(b) =>
      && b in nodeMap && b in names && Selectable(nodeMap[b], podCpu, podMem)
      && forall n :: n in names && n in nodeMap && Selectable(nodeMap[n], podCpu, podMem) ==>
                       ScoreOf(nodeMap[n], podCpu, podMem).value <= ScoreOf(nodeMap[b], podCpu, podMem).value
  }

  /** The fit check and the running maximum, over the map in any order: a node of maximal
      score among those that fit, and none exactly when none fits. */
  method SelectNode(nodeMap: map<NodeName, NodeResources>, podCpu: int, podMem: int) returns (best: Option<NodeName>)
    requires 0 <= podCpu && 0 <= podMem
    requires forall n :: n in nodeMap ==> 0 <= nodeMap[n].reqCpu && 0 <= nodeMap[n].reqMem
    ensures BestOf(nodeMap, nodeMap.Keys, podCpu, podMem, best)
  {
    best := None;
    var bestScore := -1.0;
    var rest := nodeMap.Keys;
    while rest != {}
      invariant rest <= nodeMap.Keys
      invariant BestOf(nodeMap, nodeMap.Keys - rest, podCpu, podMem, best)
      invariant if best.None? then bestScore == -1.0 else ScoreOf(nodeMap[best.value], podCpu, podMem) == Some(bestScore)
    {
      var name :| name in rest;
      rest := rest - {name};
      var nr := nodeMap[name];
      var usedCpu, usedMem := nr.reqCpu + podCpu, nr.reqMem + podMem;
      if usedCpu > nr.allocCpu || usedMem > nr.allocMem {
        continue;
      }
      ScoreBeatsNone(nr.allocCpu, nr.allocMem, usedCpu, usedMem);
      var score := Score(nr.allocCpu, nr.allocMem, usedCpu, usedMem);
      // a comparison with a score that is not a number is false
      if score.Some? && score.value > bestScore {
        bestScore := score.value;
        best := Some(name);
      }
    }
  }

  // ----- the fallback, from the listings to the choice -----

  datatype NodeInfo = NodeInfo(name: NodeName, allocCpu: int, allocMem: int)

  datatype SelectError = NoEligibleNodes | PodListFailed | InsufficientResources

  predicate RequestsNonNegative(p: Pod) {
    NonNegative(LoadOf(CpuOf)(p)) && NonNegative(LoadOf(MemOf)(p))
  }

  lemma {:induction false} LoadsNonNegative(pods: seq<Pod>, n: NodeName)
    requires forall k :: 0 <= k < |pods| ==> RequestsNonNegative(pods[k])
    ensures AllNonNegative(Loads(pods, n, CpuOf)) && AllNonNegative(Loads(pods, n, MemOf))
  {
    if pods != [] {
      var rest, last := pods[..|pods| - 1], pods[|pods| - 1];
      LoadsNonNegative(rest, n);
      assert pods == rest + [last] && RequestsNonNegative(last);
      LoadsOneMore(rest, last, n, CpuOf);
      LoadsOneMore(rest, last, n, MemOf);
    }
  }

  method IndexEligible(nodes: seq<NodeInfo>, eligible: set<NodeName>) returns (nodeMap: map<NodeName, NodeResources>)
    requires forall i, j :: 0 <= i < j < |nodes| ==> nodes[i].name != nodes[j].name
    ensures Summed(nodeMap, [])
    ensures forall info :: info in nodes && info.name in eligible ==> info.name in nodeMap && InfoOf(nodeMap[info.name]) == info
    ensures forall n :: n in nodeMap ==> fresh(nodeMap[n]) && n in eligible && InfoOf(nodeMap[n]) in nodes
  {
    nodeMap := map[];
    for i := 0 to |nodes|
      invariant Summed(nodeMap, [])
      invariant forall k :: 0 <= k < i && nodes[k].name in eligible ==> nodes[k].name in nodeMap && InfoOf(nodeMap[nodes[k].name]) == nodes[k]
      invariant forall n :: n in nodeMap ==> fresh(nodeMap[n]) && n in eligible && InfoOf(nodeMap[n]) in nodes
    {
      if nodes[i].name !in eligible {
        continue;
      }
      var nr := new NodeResources(nodes[i].name, nodes[i].allocCpu, nodes[i].allocMem);
      nodeMap := nodeMap[nodes[i].name := nr];
    }
  }

  /** Room for the pod's containers on top of all containers on the node. */
  ghost predicate HasRoom(info: NodeInfo, pods: seq<Pod>, pod: Pod) {
    && ContainerSum(Loads(pods, info.name, CpuOf)) + Total(Map(CpuOf, pod.containers)) <= info.allocCpu
    && ContainerSum(Loads(pods, info.name, MemOf)) + Total(Map(MemOf, pod.containers)) <= info.allocMem
  }

  /** Room for the pod's containers on top of all effective requests on the node. */
  ghost predicate HasAmpleRoom(info: NodeInfo, pods: seq<Pod>, pod: Pod) {
    && 0 < info.allocCpu && 0 < info.allocMem
    && EffectiveSum(Loads(pods, info.name, CpuOf)) + Total(Map(CpuOf, pod.containers)) <= info.allocCpu
    && EffectiveSum(Loads(pods, info.name, MemOf)) + Total(Map(MemOf, pod.containers)) <= info.allocMem
  }

  function InfoOf(nr: NodeResources): NodeInfo {
    NodeInfo(nr.node, nr.allocCpu, nr.allocMem)
  }

  lemma RoomMeans(nr: NodeResources, pods: seq<Pod>, pod: Pod, podCpu: int, podMem: int)
    requires NodeSummed(nr, pods, nr.node)
    requires forall k :: 0 <= k < |pods| ==> RequestsNonNegative(pods[k])
    requires podCpu == Total(Map(CpuOf, pod.containers)) && podMem == Total(Map(MemOf, pod.containers))
    ensures 0 <= nr.reqCpu && 0 <= nr.reqMem
    ensures HasAmpleRoom(InfoOf(nr), pods, pod) ==> Selectable(nr, podCpu, podMem)
    ensures Selectable(nr, podCpu, podMem) ==> HasRoom(InfoOf(nr), pods, pod)
  {
    LoadsNonNegative(pods, nr.node);
    Sandwich(Loads(pods, nr.node, CpuOf));
    Sandwich(Loads(pods, nr.node, MemOf));
  }

  /** What would be requested on the node with the pod on it, as the running totals have it. */
  function RequestedWith(info: NodeInfo, pods: seq<Pod>, pod: Pod, amount: Request -> int): int {
    Running(Loads(pods, info.name, amount)) + Total(Map(amount, pod.containers))
  }

  /** The pod fits the node by these totals, and the node's score is a number. */
  ghost predicate FitsOn(info: NodeInfo, pods: seq<Pod>, pod: Pod) {
    && 0 < info.allocCpu && RequestedWith(info, pods, pod, CpuOf) <= info.allocCpu
    && 0 < info.allocMem && RequestedWith(info, pods, pod, MemOf) <= info.allocMem
  }

  /** The node's score by these totals: 200 points, less 1.5 for every percent of the more
      used resource, plus half a point for every percent of the less used one. */
  ghost function ScoreOn(info: NodeInfo, pods: seq<Pod>, pod: Pod): real {
    if info.allocCpu == 0 || info.allocMem == 0 then 0.0
    else
      var c := RequestedWith(info, pods, pod, CpuOf) as real / info.allocCpu as real;
      var m := RequestedWith(info, pods, pod, MemOf) as real / info.allocMem as real;
      200.0 - 150.0 * (if c < m then m else c) + 50.0 * (if c < m then c else m)
  }

  /** The node fits, and no other eligible node that fits has a higher score. */
  ghost predicate Highest(info: NodeInfo, nodes: seq<NodeInfo>, eligible: set<NodeName>, pods: seq<Pod>, pod: Pod) {
    && info in nodes && info.name in eligible && FitsOn(info, pods, pod)
    && forall other :: other in nodes && other.name in eligible && FitsOn(other, pods, pod) ==>
                         ScoreOn(other, pods, pod) <= ScoreOn(info, pods, pod)
  }

  lemma ScoreOfTotals(info: NodeInfo, pods: seq<Pod>, pod: Pod, usedCpu: int, usedMem: int)
    requires usedCpu == RequestedWith(info, pods, pod, CpuOf) && usedMem == RequestedWith(info, pods, pod, MemOf)
    requires 0 <= usedCpu <= info.allocCpu && 0 <= usedMem <= info.allocMem && 0 < info.allocCpu && 0 < info.allocMem
    ensures Score(info.allocCpu, info.allocMem, usedCpu, usedMem) == Some(ScoreOn(info, pods, pod))
  {
    ScoreByBottleneck(info.allocCpu, info.allocMem, usedCpu, usedMem);
  }

  lemma SelectableFits(nr: NodeResources, pods: seq<Pod>, pod: Pod, podCpu: int, podMem: int)
    requires NodeSummed(nr, pods, nr.node) && RequestsNonNegative(pod)
    requires forall k :: 0 <= k < |pods| ==> RequestsNonNegative(pods[k])
    requires podCpu == Total(Map(CpuOf, pod.containers)) && podMem == Total(Map(MemOf, pod.containers))
    ensures 0 <= nr.reqCpu && 0 <= nr.reqMem && 0 <= podCpu && 0 <= podMem
    ensures Selectable(nr, podCpu, podMem) <==> FitsOn(InfoOf(nr), pods, pod)
    ensures Selectable(nr, podCpu, podMem) ==> ScoreOf(nr, podCpu, podMem) == Some(ScoreOn(InfoOf(nr), pods, pod))
    ensures HasAmpleRoom(InfoOf(nr), pods, pod) ==> FitsOn(InfoOf(nr), pods, pod)
    ensures FitsOn(InfoOf(nr), pods, pod) ==> HasRoom(InfoOf(nr), pods, pod)
  {
    RoomMeans(nr, pods, pod, podCpu, podMem);
    TotalNonNegative(LoadOf(CpuOf)(pod).containers);
    TotalNonNegative(LoadOf(MemOf)(pod).containers);
    if Selectable(nr, podCpu, podMem) {
      ScoreOfTotals(InfoOf(nr), pods, pod, nr.reqCpu + podCpu, nr.reqMem + podMem);
    }
  }

  method SumAndSelect(nodeMap: map<NodeName, NodeResources>, pods: seq<Pod>, pod: Pod) returns (best: Option<NodeName>)
    requires Summed(nodeMap, []) && RequestsNonNegative(pod)
    requires forall k :: 0 <= k < |pods| ==> RequestsNonNegative(pods[k])
    modifies nodeMap.Values
    ensures forall n :: n in nodeMap ==> nodeMap[n].node == n
    ensures match best
            case None => forall n :: n in nodeMap ==> !FitsOn(InfoOf(nodeMap[n]), pods, pod)
            case Some(b) =>
              && b in nodeMap && FitsOn(InfoOf(nodeMap[b]), pods, pod)
              && forall n :: n in nodeMap && FitsOn(InfoOf(nodeMap[n]), pods, pod) ==>
                               ScoreOn(InfoOf(nodeMap[n]), pods, pod) <= ScoreOn(InfoOf(nodeMap[b]), pods, pod)
    ensures best.Some? ==> HasRoom(InfoOf(nodeMap[best.value]), pods, pod)
    ensures best.None? ==> forall n :: n in nodeMap ==> !HasAmpleRoom(InfoOf(nodeMap[n]), pods, pod)
  {
    SumRequests(nodeMap, pods);
    var podCpu, podMem := ContainerRequests(pod);
    forall n | n in nodeMap
      ensures 0 <= nodeMap[n].reqCpu && 0 <= nodeMap[n].reqMem && nodeMap[n].node == n && 0 <= podCpu && 0 <= podMem
      ensures Selectable(nodeMap[n], podCpu, podMem) <==> FitsOn(InfoOf(nodeMap[n]), pods, pod)
      ensures Selectable(nodeMap[n], podCpu, podMem) ==> ScoreOf(nodeMap[n], podCpu, podMem) == Some(ScoreOn(InfoOf(nodeMap[n]), pods, pod))
      ensures HasAmpleRoom(InfoOf(nodeMap[n]), pods, pod) ==> FitsOn(InfoOf(nodeMap[n]), pods, pod)
      ensures FitsOn(InfoOf(nodeMap[n]), pods, pod) ==> HasRoom(InfoOf(nodeMap[n]), pods, pod)
    {
      assert NodeSummed(nodeMap[n], pods, n);
      SelectableFits(nodeMap[n], pods, pod, podCpu, podMem);
    }
    TotalNonNegative(LoadOf(CpuOf)(pod).containers);
    TotalNonNegative(LoadOf(MemOf)(pod).containers);
    best := SelectNode(nodeMap, podCpu, podMem);
  }

  /** Chooses a node for a pod: one of highest score among the eligible nodes that fit by the
      running totals. On the chosen node the requests of all containers, the pod's included,
      stay within what is allocatable; and none is refused for lack of resources while an
      eligible node has room on top of all effective requests. */
  method ScoreAndSelectNode(nodes: seq<NodeInfo>, eligible: set<NodeName>, pods: Option<seq<Pod>>, pod: Pod)
    returns (r: Result<NodeName, SelectError>)
    requires RequestsNonNegative(pod)
    requires pods.Some? ==> forall k :: 0 <= k < |pods.value| ==> RequestsNonNegative(pods.value[k])
    requires forall i, j :: 0 <= i < j < |nodes| ==> nodes[i].name != nodes[j].name
    ensures r == Err(NoEligibleNodes) <==> forall info :: info in nodes ==> info.name !in eligible
    ensures r == Err(PodListFailed) <==> pods.None? && exists info :: info in nodes && info.name in eligible
    ensures r == Err(InsufficientResources) <==>
              && pods.Some? && (exists info :: info in nodes && info.name in eligible)
              && forall info :: info in nodes && info.name in eligible ==> !FitsOn(info, pods.value, pod)
    ensures r.Ok? ==> pods.Some? && exists info: NodeInfo :: info.name == r.value && Highest(info, nodes, eligible, pods.value, pod)
    ensures r.Ok? ==> pods.Some? && r.value in eligible && exists info :: info in nodes && info.name == r.value && HasRoom(info, pods.value, pod)
    ensures r == Err(InsufficientResources) ==>
              pods.Some? && forall info :: info in nodes && info.name in eligible ==> !HasAmpleRoom(info, pods.value, pod)
  {
    var nodeMap := IndexEligible(nodes, eligible);
    if |nodeMap| == 0 {
      assert nodeMap.Keys == {};
      return Err(NoEligibleNodes);
    }
    var some :| some in nodeMap.Keys;
    assert InfoOf(nodeMap[some]) in nodes && nodeMap[some].node == some;
    if pods.None? {
      return Err(PodListFailed);
    }
    var best := SumAndSelect(nodeMap, pods.value, pod);
    if best.None? {
      return Err(InsufficientResources);
    }
    assert Highest(InfoOf(nodeMap[best.value]), nodes, eligible, pods.value, pod);
    return Ok(best.value);
  }

  /** The incoming pod's init containers do not count. */
  method ContainerRequests(p: Pod) returns (cpu: int, mem: int)
    ensures cpu == Total(Map(CpuOf, p.containers)) && mem == Total(Map(MemOf, p.containers))
  {
    cpu, mem := 0, 0;
    for i := 0 to |p.containers|
      invariant cpu == Total(Map(CpuOf, p.containers[..i])) && mem == Total(Map(MemOf, p.containers[..i]))
    {
      OneMoreRequest(p.containers, i);
      cpu := cpu + p.containers[i].cpu;
      mem := mem + p.containers[i].mem;
    }
    assert p.containers[..|p.containers|] == p.containers;
  }
}
