/** The reservation protocol as a step system: any number of scheduler calls and
    background syncs share the store, locks may expire at any moment, and any
    request to Redis or any reply from it may be lost.

    A run is any sequence of steps; a step that is not enabled does nothing, so
    every theorem below about `Run(s, steps)` speaks of every interleaving. */
module Protocol {
  import opened Wrappers
  import opened NodeModel
  import opened SchedulerRepo
  import opened Ledger

  // ----- state -----

  /** An entry of the ranked list: the name and the version cached when it was listed. */
  datatype ScoredNode = ScoredNode(name: NodeName, version: int)

  /** Where a `reserveAndBind` call stands; `i` indexes its ranked list. */
  datatype Pc =
    | Trying(i: nat)
    | Locked(i: nat, uuid: nat)
    | Fetched(i: nat, uuid: nat, seen: NodeState)
    | Releasing(i: nat, uuid: nat)
    | Reserving(i: nat, uuid: nat)
    | Unlocked(i: nat)
    | RollingBack(i: nat)
    | Bound(i: nat)

  /** One call. `leaked` and `strays` record what lost messages left behind:
      reservations nobody will roll back, and lock UUIDs nobody will release. */
  datatype Client = Client(
    intent: PodIntent,
    scored: seq<ScoredNode>,
    kube: seq<KubeNode>,
    pc: Pc,
    leaked: multiset<NodeName>,
    strays: set<nat>)

  /** The shared store, the calls and syncs in progress, and the history:
      who drew each UUID, each node's record when it was first written, and the
      log of executed scripts. */
  datatype Sys = Sys(
    nodes: map<NodeName, NodeState>,
    locks: map<NodeName, nat>,
    nextUuid: nat,
    clients: map<nat, Client>,
    syncs: map<nat, NodeState>,
    owners: map<nat, nat>,
    base: map<NodeName, NodeState>,
    log: seq<Event>)

  /** What binding meets at the API server. */
  datatype BindReply = LookupFailed | AlreadyAssigned(node: NodeName) | BindCall(ok: bool)

  datatype Step =
    | Arrive(c: nat, intent: PodIntent, scored: seq<ScoredNode>, kube: seq<KubeNode>)
    | TryLock(c: nat, reply: Reply)
    | Fetch(c: nat, reply: Reply)
    | Reserve(c: nat, reply: Reply)
    | Unlock(c: nat, reply: Reply)
    | Conclude(c: nat, bind: BindReply)
    | Rollback(c: nat, reply: Reply)
    | Expire(node: NodeName)
    | SyncRead(k: nat, api: KubeNode, reply: Reply)
    | SyncMerge(k: nat, reply: Reply)

  predicate HasNode(client: Client) {
    client.pc.i < |client.scored|
  }

  function NodeOf(client: Client): NodeName
    requires HasNode(client)
  {
    client.scored[client.pc.i].name
  }

  /** The call has returned: with a reservation, or having tried every node. */
  predicate Finished(client: Client) {
    client.pc.Bound? || (client.pc.Trying? && !HasNode(client))
  }

  predicate Ready(s: Sys, c: nat) {
    c in s.clients && HasNode(s.clients[c])
  }

  predicate Enabled(s: Sys, l: Step) {
    match l
    case Arrive(c, intent, scored, kube) => c !in s.clients && 0 <= intent.cpu && 0 <= intent.mem
    case TryLock(c, _) => Ready(s, c) && s.clients[c].pc.Trying?
    case Fetch(c, _) => Ready(s, c) && s.clients[c].pc.Locked?
    case Reserve(c, _) => Ready(s, c) && s.clients[c].pc.Fetched?
    case Unlock(c, _) => Ready(s, c) && (s.clients[c].pc.Releasing? || s.clients[c].pc.Reserving?)
    case Conclude(c, _) => Ready(s, c) && s.clients[c].pc.Unlocked?
    case Rollback(c, _) => Ready(s, c) && s.clients[c].pc.RollingBack?
    case Expire(n) => n in s.locks
    case SyncRead(k, _, _) => k !in s.syncs
    case SyncMerge(k, _) => k in s.syncs
  }

  // ----- effects -----

  /** The state after call c becomes `client`. */
  function Put(s: Sys, c: nat, client: Client): Sys {
    s.(clients := s.clients[c := client])
  }

  /** The state after a script run by call c turned the node's record into `after`. */
  function Record(s: Sys, kind: Kind, c: nat, node: NodeName, after: NodeState): Sys
    requires c in s.clients && node in s.nodes
  {
    var intent := s.clients[c].intent;
    s.(nodes := s.nodes[node := after],
       log := s.log + [Event(kind, c, node, intent.cpu, intent.mem, s.nodes[node].version)])
  }

  /** SET NX: the UUID is drawn in any case, the lock taken only if it is free. */
  function DoTryLock(s: Sys, c: nat, reply: Reply): Sys
    requires Ready(s, c) && s.clients[c].pc.Trying?
  {
    var client := s.clients[c];
    var n := NodeOf(client);
    var u := s.nextUuid;
    var taken := !reply.RequestLost? && n !in s.locks;
    Put(s.(nextUuid := u + 1,
           owners := s.owners[u := c],
           locks := if taken then s.locks[n := u] else s.locks),
        c,
        client.(pc := if taken && reply.Delivered? then Locked(client.pc.i, u) else Trying(client.pc.i + 1),
                strays := if taken && reply.ReplyLost? then client.strays + {u} else client.strays))
  }

  /** Re-read, version comparison and re-check of the hard constraints. */
  predicate StillFits(s: Sys, client: Client)
    requires HasNode(client)
  {
    var n := NodeOf(client);
    && n in s.nodes
    && s.nodes[n].version == client.scored[client.pc.i].version
    && CheckHardConstraints(client.intent, s.nodes[n]).None?
  }

  function DoFetch(s: Sys, c: nat, reply: Reply): Sys
    requires Ready(s, c) && s.clients[c].pc.Locked?
  {
    var client := s.clients[c];
    Put(s, c, client.(pc :=
      if reply.Delivered? && StillFits(s, client)
      then Fetched(client.pc.i, client.pc.uuid, s.nodes[NodeOf(client)])
      else Releasing(client.pc.i, client.pc.uuid)))
  }

  function ReserveOutcome(s: Sys, c: nat): Result<NodeState, ScriptError>
    requires Ready(s, c) && s.clients[c].pc.Fetched?
  {
    var client := s.clients[c];
    var n := NodeOf(client);
    if n !in s.nodes then Err(NodeNotFound)
    else ReserveRecord(s.nodes[n], client.intent.cpu, client.intent.mem, client.pc.seen.version)
  }

  function DoReserve(s: Sys, c: nat, reply: Reply): Sys
    requires Ready(s, c) && s.clients[c].pc.Fetched?
  {
    var client := s.clients[c];
    var n := NodeOf(client);
    var outcome := ReserveOutcome(s, c);
    var executed := !reply.RequestLost? && outcome.Ok?;
    Put(if executed then Record(s, Reserved, c, n, outcome.value) else s,
        c,
        client.(pc := if executed && reply.Delivered? then Reserving(client.pc.i, client.pc.uuid)
                      else Releasing(client.pc.i, client.pc.uuid),
                leaked := if executed && reply.ReplyLost? then client.leaked + multiset{n} else client.leaked))
  }

  function DoUnlock(s: Sys, c: nat, reply: Reply): Sys
    requires Ready(s, c) && (s.clients[c].pc.Releasing? || s.clients[c].pc.Reserving?)
  {
    var client := s.clients[c];
    var u := client.pc.uuid;
    Put(s.(locks := if reply.RequestLost? then s.locks else Freed(s.locks, NodeOf(client), u)),
        c,
        client.(pc := if client.pc.Releasing? then Trying(client.pc.i + 1) else Unlocked(client.pc.i),
                strays := if reply.RequestLost? then client.strays + {u} else client.strays))
  }

  /** `bindPod` succeeds also when it finds the pod already assigned, to any node. */
  predicate BindAccepted(bind: BindReply) {
    match bind
    case LookupFailed => false
    case AlreadyAssigned(_) => true
    case BindCall(ok) => ok
  }

  /** Whether the API list still vouches for the reserved node. */
  predicate Vouched(client: Client)
    requires HasNode(client)
  {
    var found := FindKubeNode(client.kube, NodeOf(client));
    found.Some? && ValidateApiNode(client.intent, found.value)
  }

  function DoConclude(s: Sys, c: nat, bind: BindReply): Sys
    requires Ready(s, c) && s.clients[c].pc.Unlocked?
  {
    var client := s.clients[c];
    if Vouched(client) && BindAccepted(bind)
    then Put(s, c, client.(pc := Bound(client.pc.i)))
    else Put(s, c, client.(pc := RollingBack(client.pc.i)))
  }

  function DoRollback(s: Sys, c: nat, reply: Reply): Sys
    requires Ready(s, c) && s.clients[c].pc.RollingBack?
  {
    var client := s.clients[c];
    var n := NodeOf(client);
    var executed := !reply.RequestLost? && n in s.nodes;
    Put(if executed then Record(s, RolledBack, c, n, RollbackRecord(s.nodes[n], client.intent.cpu, client.intent.mem)) else s,
        c,
        client.(pc := Trying(client.pc.i + 1),
                leaked := if reply.RequestLost? then client.leaked + multiset{n} else client.leaked))
  }

  function DoSyncRead(s: Sys, k: nat, api: KubeNode, reply: Reply): Sys
    requires k !in s.syncs
  {
    var existing := if reply.Delivered? then Lookup(s.nodes, api.name) else None;
    s.(syncs := s.syncs[k := StateFromApi(api, existing)])
  }

  function DoSyncMerge(s: Sys, k: nat, reply: Reply): Sys
    requires k in s.syncs
  {
    var patch := s.syncs[k];
    var n := patch.name;
    var done := s.(syncs := s.syncs - {k});
    if reply.RequestLost? then done
    else done.(nodes := s.nodes[n := MergeRecord(Lookup(s.nodes, n), patch)],
               base := if n in s.base then s.base else s.base[n := patch])
  }

  function Apply(s: Sys, l: Step): Sys {
    if !Enabled(s, l) then s
    else
      match l
      case Arrive(c, intent, scored, kube) =>
        Put(s, c, Client(intent, scored, kube, Trying(0), multiset{}, {}))
      case TryLock(c, reply) => DoTryLock(s, c, reply)
      case Fetch(c, reply) => DoFetch(s, c, reply)
      case Reserve(c, reply) => DoReserve(s, c, reply)
      case Unlock(c, reply) => DoUnlock(s, c, reply)
      case Conclude(c, bind) => DoConclude(s, c, bind)
      case Rollback(c, reply) => DoRollback(s, c, reply)
      case Expire(n) => s.(locks := s.locks - {n})
      case SyncRead(k, api, reply) => DoSyncRead(s, k, api, reply)
      case SyncMerge(k, reply) => DoSyncMerge(s, k, reply)
  }

  function Run(s: Sys, steps: seq<Step>): Sys {
    if steps == [] then s else Apply(Run(s, steps[..|steps| - 1]), steps[|steps| - 1])
  }

  /** Before any call: records with non-negative usage and no history. */
  ghost predicate Init(s: Sys) {
    && s.clients == map[] && s.syncs == map[] && s.locks == map[] && s.owners == map[]
    && s.log == [] && s.base == s.nodes
    && forall n | n in s.nodes :: 0 <= s.nodes[n].cpuUsed && 0 <= s.nodes[n].memUsed && 0 <= s.nodes[n].podsUsed
  }
}
