/** The versioned node record kept in Redis, the pod's scheduling intent, the
    Kubernetes API's view of a node, and the two checks a scheduler makes of them. */
module NodeModel {
  import opened Wrappers

  /** Node names are identifiers: the protocol only ever compares them for equality. */
  type NodeName = nat

  datatype NodeState = NodeState(
    name: NodeName,
    arch: string,
    os: string,
    cpuAlloc: int,
    memAlloc: int,
    podsAlloc: int,
    cpuUsed: int,
    memUsed: int,
    podsUsed: int,
    ready: bool,
    taints: seq<string>,
    labels: map<string, string>,
    version: int)

  datatype PodIntent = PodIntent(
    namespace: string,
    name: string,
    cpu: int,
    mem: int,
    arch: string,
    os: string,
    nodeSelector: map<string, string>,
    tolerations: seq<string>)

  datatype FilterReason =
    | NotReady
    | ArchMismatch
    | OsMismatch
    | InsufficientCpu
    | InsufficientMemory
    | PodLimitReached
    | TaintNoToleration
    | NodeSelectorFail

  datatype Effect = NoSchedule | PreferNoSchedule | NoExecute

  datatype Taint = Taint(key: string, effect: Effect)

  datatype Condition = Condition(kind: string, status: string)

  datatype KubeNode = KubeNode(
    name: NodeName,
    labels: map<string, string>,
    conditions: seq<Condition>,
    taints: seq<Taint>,
    cpuAlloc: int,
    memAlloc: int,
    podsAlloc: int)

  /** Whether the record has room for one more pod with these requests. */
  predicate HasRoom(node: NodeState, cpu: int, mem: int) {
    && node.cpuAlloc - node.cpuUsed >= cpu
    && node.memAlloc - node.memUsed >= mem
    && node.podsUsed < node.podsAlloc
  }

  /** The record's usage lies between zero and its allocatable amounts. */
  predicate WithinCapacity(node: NodeState) {
    && 0 <= node.cpuUsed <= node.cpuAlloc
    && 0 <= node.memUsed <= node.memAlloc
    && 0 <= node.podsUsed <= node.podsAlloc
  }

  function CheckHardConstraints(intent: PodIntent, node: NodeState): Option<FilterReason> {
    if !node.ready then
      Some(NotReady)
    else if node.arch != intent.arch then
      Some(ArchMismatch)
    else if node.os != intent.os then
      Some(OsMismatch)
    else if node.cpuAlloc - node.cpuUsed < intent.cpu then
      Some(InsufficientCpu)
    else if node.memAlloc - node.memUsed < intent.mem then
      Some(InsufficientMemory)
    else if node.podsUsed >= node.podsAlloc then
      Some(PodLimitReached)
    else if exists t | t in node.taints :: t !in intent.tolerations then
      Some(TaintNoToleration)
    else if exists k | k in intent.nodeSelector :: k !in node.labels || node.labels[k] != intent.nodeSelector[k] then
      Some(NodeSelectorFail)
    else
      None
  }

  /** A label, or the empty string Go's map lookup yields when it is missing. */
  function Label(labels: map<string, string>, key: string): string {
    if key in labels then labels[key] else ""
  }

  /** The stable label of a node property, or its beta form when that is empty. */
  function LabelOrBeta(labels: map<string, string>, key: string): string {
    if Label(labels, key) != "" then Label(labels, key) else Label(labels, "beta." + key)
  }

  predicate IsReady(conditions: seq<Condition>) {
    exists c | c in conditions :: c.kind == "Ready" && c.status == "True"
  }

  predicate Blocks(taint: Taint) {
    taint.effect == NoSchedule || taint.effect == NoExecute
  }

  predicate ValidateApiNode(intent: PodIntent, node: KubeNode) {
    && IsReady(node.conditions)
    && LabelOrBeta(node.labels, "kubernetes.io/arch") == intent.arch
    && forall t | t in node.taints :: Blocks(t) ==> t.key in intent.tolerations
  }

  function FindKubeNode(nodes: seq<KubeNode>, name: NodeName): Option<KubeNode> {
    if nodes == [] then None
    else if nodes[0].name == name then Some(nodes[0])
    else FindKubeNode(nodes[1..], name)
  }

  /** The first entry of that name, if there is one. */
  lemma {:induction false} FindsFirst(nodes: seq<KubeNode>, name: NodeName)
    ensures match FindKubeNode(nodes, name)
            case None => forall k :: 0 <= k < |nodes| ==> nodes[k].name != name
            case Some(node) =>
              node.name == name && exists k :: 0 <= k < |nodes| && nodes[k] == node && forall j :: 0 <= j < k ==> nodes[j].name != name
  {
    if nodes != [] && nodes[0].name != name {
      FindsFirst(nodes[1..], name);
      if FindKubeNode(nodes, name).Some? {
        var node := FindKubeNode(nodes, name).value;
        var k :| 0 <= k < |nodes[1..]| && nodes[1..][k] == node && forall j :: 0 <= j < k ==> nodes[1..][j].name != name;
        assert nodes[k + 1] == node;
        forall j | 0 <= j < k + 1 ensures nodes[j].name != name {
          if j > 0 {
            assert nodes[j] == nodes[1..][j - 1];
          }
        }
      }
    }
  }

  function TaintKeys(taints: seq<Taint>): seq<string> {
    seq(|taints|, i requires 0 <= i < |taints| => taints[i].key)
  }

  /** The record the background sync writes for an API node, given what it read
      of the existing record (nothing when the key was missing or the read failed). */
  function StateFromApi(node: KubeNode, existing: Option<NodeState>): NodeState {
    NodeState(
      node.name,
      LabelOrBeta(node.labels, "kubernetes.io/arch"),
      LabelOrBeta(node.labels, "kubernetes.io/os"),
      node.cpuAlloc,
      node.memAlloc,
      node.podsAlloc,
      if existing.Some? then existing.value.cpuUsed else 0,
      if existing.Some? then existing.value.memUsed else 0,
      if existing.Some? then existing.value.podsUsed else 0,
      IsReady(node.conditions),
      TaintKeys(node.taints),
      node.labels,
      if existing.Some? then existing.value.version else 0)
  }

  /** Whether two records carry the same nine fields a sync may overwrite. */
  predicate SameMetadata(a: NodeState, b: NodeState) {
    && a.name == b.name && a.arch == b.arch && a.os == b.os
    && a.cpuAlloc == b.cpuAlloc && a.memAlloc == b.memAlloc && a.podsAlloc == b.podsAlloc
    && a.ready == b.ready && a.taints == b.taints && a.labels == b.labels
  }

  predicate SameUsage(a: NodeState, b: NodeState) {
    a.cpuUsed == b.cpuUsed && a.memUsed == b.memUsed && a.podsUsed == b.podsUsed
  }

  /** Exactly which records the hard filter admits; in particular the room test is the
      script's. */
  lemma FilterAdmits(intent: PodIntent, node: NodeState)
    ensures CheckHardConstraints(intent, node).None?
      <==> (&& node.ready && node.arch == intent.arch && node.os == intent.os
            && node.cpuUsed + intent.cpu <= node.cpuAlloc
            && node.memUsed + intent.mem <= node.memAlloc
            && node.podsUsed + 1 <= node.podsAlloc
            && (forall t | t in node.taints :: t in intent.tolerations)
            && (forall k | k in intent.nodeSelector :: k in node.labels && node.labels[k] == intent.nodeSelector[k]))
    ensures CheckHardConstraints(intent, node).None? ==> HasRoom(node, intent.cpu, intent.mem)
  {
  }

  /** Exactly which API nodes pass the validation: a true Ready condition, the pod's
      architecture on the stable label or, where that is missing or empty, on the beta
      one, and no NoSchedule or NoExecute taint whose key the pod does not tolerate. */
  lemma ValidationExactly(intent: PodIntent, node: KubeNode)
    ensures ValidateApiNode(intent, node)
      <==> (&& (exists c :: c in node.conditions && c.kind == "Ready" && c.status == "True")
            && (var labels := node.labels;
                if "kubernetes.io/arch" in labels && labels["kubernetes.io/arch"] != ""
                then labels["kubernetes.io/arch"] == intent.arch
                else if "beta.kubernetes.io/arch" in labels then labels["beta.kubernetes.io/arch"] == intent.arch
                else intent.arch == "")
            && (forall t :: t in node.taints && t.effect != PreferNoSchedule ==> t.key in intent.tolerations))
  {
    BetaKeys();
  }

  lemma BetaKeys()
    ensures "beta." + "kubernetes.io/arch" == "beta.kubernetes.io/arch"
    ensures "beta." + "kubernetes.io/os" == "beta.kubernetes.io/os"
  {
  }

  /** What a sync is about to write: of the API node the name, the labels and the three
      amounts as they are, the taints' keys in order, readiness, and the two properties off
      their stable labels or, where those are missing or empty, the beta ones; and of the
      record it read, if there was one, the usage and the version. */
  lemma SyncedExactly(api: KubeNode, existing: Option<NodeState>)
    ensures var node, labels := StateFromApi(api, existing), api.labels;
            && node.cpuUsed == (match existing case None => 0 case Some(was) => was.cpuUsed)
            && node.memUsed == (match existing case None => 0 case Some(was) => was.memUsed)
            && node.podsUsed == (match existing case None => 0 case Some(was) => was.podsUsed)
            && node.version == (match existing case None => 0 case Some(was) => was.version)
            && node.name == api.name && node.labels == labels
            && node.cpuAlloc == api.cpuAlloc && node.memAlloc == api.memAlloc && node.podsAlloc == api.podsAlloc
            && (node.ready <==> exists c :: c in api.conditions && c.kind == "Ready" && c.status == "True")
            && |node.taints| == |api.taints| && (forall i :: 0 <= i < |api.taints| ==> node.taints[i] == api.taints[i].key)
            && node.arch == (if "kubernetes.io/arch" in labels && labels["kubernetes.io/arch"] != ""
                             then labels["kubernetes.io/arch"]
                             else if "beta.kubernetes.io/arch" in labels then labels["beta.kubernetes.io/arch"] else "")
            && node.os == (if "kubernetes.io/os" in labels && labels["kubernetes.io/os"] != ""
                           then labels["kubernetes.io/os"]
                           else if "beta.kubernetes.io/os" in labels then labels["beta.kubernetes.io/os"] else "")
  {
    BetaKeys();
  }

  /** A record synced from an API node that passes the hard filter makes the API
      validation of that same node succeed, whatever usage the record carries. */
  lemma FilterImpliesValidation(intent: PodIntent, api: KubeNode, node: NodeState)
    requires SameMetadata(node, StateFromApi(api, None))
    requires CheckHardConstraints(intent, node).None?
    ensures ValidateApiNode(intent, api)
  {
    forall t | t in api.taints && Blocks(t)
      ensures t.key in intent.tolerations
    {
      var i :| 0 <= i < |api.taints| && api.taints[i] == t;
      assert node.taints[i] == t.key;
      assert t.key in node.taints;
    }
  }
}
