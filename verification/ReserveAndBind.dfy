/** `reserveAndBind` and the background sync as they run against the shared store,
    with any amount of interference between any two commands. Each command is shown to
    be one step of the protocol, so that all theorems about runs apply to them. */
module ReserveAndBind {
  import opened Wrappers
  import opened NodeModel
  import opened SchedulerRepo
  import opened Ledger
  import opened Protocol
  import opened Invariant
  import opened Safety
  import opened Losses
  import opened Attempts

  /** What the API server says of the pod when the call starts. */
  datatype PodLookup = PodMissing | PodOn(node: NodeName) | PodUnassigned

  datatype Outcome =
    | LookupError
    | Panicked
    | AlreadyOn(node: NodeName)
    | ReservedOn(node: NodeName)
    | FirstNode(node: NodeName)
    | NoNodes

  /** What becomes of each command, and what each bind meets: the k-th step of the run gets
      the k-th answer. */
  datatype Network = Network(reply: nat -> Reply, bind: nat -> BindReply)

  predicate AnsweredBy(network: Network, k: nat, l: Step) {
    match l
    case TryLock(_, reply) => reply == network.reply(k)
    case Fetch(_, reply) => reply == network.reply(k)
    case Reserve(_, reply) => reply == network.reply(k)
    case Unlock(_, reply) => reply == network.reply(k)
    case Rollback(_, reply) => reply == network.reply(k)
    case SyncRead(_, _, reply) => reply == network.reply(k)
    case SyncMerge(_, reply) => reply == network.reply(k)
    case Conclude(_, bind) => bind == network.bind(k)
    case Arrive(_, _, _, _) => true
    case Expire(_) => true
  }

  ghost predicate AllAnswered(network: Network, steps: seq<Step>) {
    forall k: nat {:trigger AnsweredBy(network, k, steps[k])} :: k < |steps| ==> AnsweredBy(network, k, steps[k])
  }

  lemma OneMoreAnswer(network: Network, steps: seq<Step>, l: Step)
    requires AllAnswered(network, steps) && AnsweredBy(network, |steps|, l)
    ensures AllAnswered(network, steps + [l])
  {
    forall k: nat | k < |steps + [l]| ensures AnsweredBy(network, k, (steps + [l])[k]) {
      assert k < |steps| ==> AnsweredBy(network, k, steps[k]);
    }
  }

  lemma OneMoreStep(s0: Sys, steps: seq<Step>, l: Step)
    ensures Run(s0, steps + [l]) == Apply(Run(s0, steps), l)
  {
    assert (steps + [l])[..|steps + [l]| - 1] == steps;
  }

  class Cluster {
    const repo: SchedulerRepository
    const network: Network
    var taken: nat
    // the other parties, and the history of executed scripts
    var clients: map<nat, Client>
    var syncs: map<nat, NodeState>
    var owners: map<nat, nat>
    var base: map<NodeName, NodeState>
    var log: seq<Event>
    // the run so far
    ghost var origin: Sys
    ghost var trace: seq<Step>

    function View(): Sys
      reads this`clients, this`syncs, this`owners, this`base, this`log, repo
    {
      Sys(repo.nodes, repo.locks, repo.nextUuid, clients, syncs, owners, base, log)
    }

    predicate AtNode(me: nat)
      reads this
    {
      me in clients && HasNode(clients[me])
    }

    ghost predicate Valid()
      reads this, repo
    {
      && Init(origin) && View() == Run(origin, trace)
      && taken == |trace| && AllAnswered(network, trace)
    }

    constructor (repo: SchedulerRepository, network: Network)
      requires repo.locks == map[]
      requires forall n | n in repo.nodes :: 0 <= repo.nodes[n].cpuUsed && 0 <= repo.nodes[n].memUsed && 0 <= repo.nodes[n].podsUsed
      ensures Valid() && this.repo == repo && this.network == network && View() == origin && trace == []
    {
      this.repo, this.network, taken := repo, network, 0;
      clients, syncs, owners, base, log := map[], map[], map[], repo.nodes, [];
      origin := Sys(repo.nodes, repo.locks, repo.nextUuid, map[], map[], map[], repo.nodes, []);
      trace := [];
    }

    /** Writes down a step that the store has just taken. */
    method Note(ghost before: Sys, after: Sys, ghost l: Step)
      requires Init(origin) && before == Run(origin, trace) && after == Apply(before, l)
      requires taken == |trace| && AllAnswered(network, trace)
      requires AnsweredBy(network, taken, l)
      requires repo.nodes == after.nodes && repo.locks == after.locks && repo.nextUuid == after.nextUuid
      modifies this
      ensures Valid() && View() == after
      ensures origin == old(origin) && trace == old(trace) + [l]
    {
      Become(after);
      OneMoreStep(origin, trace, l);
      OneMoreAnswer(network, trace, l);
      trace, taken := trace + [l], taken + 1;
    }

    method Become(after: Sys)
      requires repo.nodes == after.nodes && repo.locks == after.locks && repo.nextUuid == after.nextUuid
      modifies this`clients, this`syncs, this`owners, this`base, this`log
      ensures View() == after
    {
      clients, syncs, owners, base, log := after.clients, after.syncs, after.owners, after.base, after.log;
    }

    /** Other calls, syncs and lock expiries take any number of steps of their own. */
    method Interfere(me: nat)
      requires Valid()
      modifies this, repo
      ensures Valid() && origin == old(origin) && old(trace) <= trace
      ensures me in clients <==> me in old(clients)
      ensures me in clients ==> clients[me] == old(clients[me])
    {
      var rounds: nat := *;
      while rounds > 0
        invariant Valid() && origin == old(origin) && old(trace) <= trace
        invariant me in clients <==> me in old(clients)
        invariant me in clients ==> clients[me] == old(clients[me])
      {
        var l: Step := *;
        if Mover(l) != Some(me) && AnsweredBy(network, taken, l) {
          var before := View();
          var after := Apply(before, l);
          OthersUntouched(before, l, me);
          repo.nodes, repo.locks, repo.nextUuid := after.nodes, after.locks, after.nextUuid;
          Note(before, after, l);
        }
        rounds := rounds - 1;
      }
    }

    method LockNode(me: nat, name: NodeName) returns (r: Option<nat>)
      requires Valid() && AtNode(me) && clients[me].pc.Trying? && name == NodeOf(clients[me])
      modifies this, repo
      ensures Valid() && origin == old(origin) && old(trace) <= trace
      ensures me in clients
      ensures var was := old(clients[me]);
              clients[me] == was.(pc := if r.Some? then Locked(was.pc.i, r.value) else Trying(was.pc.i + 1),
                                  strays := clients[me].strays)
    {
      Interfere(me);
      var net := network.reply(taken);
      var before := View();
      r := repo.LockNode(name, net);
      Note(before, Apply(before, TryLock(me, net)), TryLock(me, net));
    }

    method ReadNode(me: nat, name: NodeName) returns (r: Option<NodeState>)
      requires Valid() && AtNode(me) && clients[me].pc.Locked? && name == NodeOf(clients[me])
      modifies this, repo
      ensures Valid() && origin == old(origin) && old(trace) <= trace
      ensures me in clients
      ensures var was := old(clients[me]);
              clients[me] == was.(pc :=
                if r.Some? && r.value.version == was.scored[was.pc.i].version && CheckHardConstraints(was.intent, r.value).None?
                then Fetched(was.pc.i, was.pc.uuid, r.value) else Releasing(was.pc.i, was.pc.uuid))
    {
      Interfere(me);
      var net := network.reply(taken);
      var before := View();
      r := repo.GetNodeState(name, net);
      Note(before, Apply(before, Fetch(me, net)), Fetch(me, net));
    }

    method ReserveNode(me: nat, name: NodeName, cpu: int, mem: int, version: int) returns (r: Result<int, ScriptError>)
      requires Valid() && AtNode(me) && clients[me].pc.Fetched? && name == NodeOf(clients[me])
      requires cpu == clients[me].intent.cpu && mem == clients[me].intent.mem && version == clients[me].pc.seen.version
      modifies this, repo
      ensures Valid() && origin == old(origin) && old(trace) <= trace
      ensures me in clients
      ensures var was := old(clients[me]);
              clients[me] == was.(pc := if r.Ok? then Reserving(was.pc.i, was.pc.uuid) else Releasing(was.pc.i, was.pc.uuid),
                                  leaked := clients[me].leaked)
    {
      Interfere(me);
      var net := network.reply(taken);
      var before := View();
      r := repo.ReserveResources(name, cpu, mem, version, net);
      Note(before, Apply(before, Reserve(me, net)), Reserve(me, net));
    }

    method UnlockNode(me: nat, name: NodeName, uuid: nat)
      requires Valid() && AtNode(me) && (clients[me].pc.Releasing? || clients[me].pc.Reserving?)
      requires name == NodeOf(clients[me]) && uuid == clients[me].pc.uuid
      modifies this, repo
      ensures Valid() && origin == old(origin) && old(trace) <= trace
      ensures me in clients
      ensures var was := old(clients[me]);
              clients[me] == was.(pc := if was.pc.Releasing? then Trying(was.pc.i + 1) else Unlocked(was.pc.i),
                                  strays := clients[me].strays)
    {
      Interfere(me);
      var net := network.reply(taken);
      var before := View();
      repo.UnlockNode(name, uuid, net);
      Note(before, Apply(before, Unlock(me, net)), Unlock(me, net));
    }

    method RollbackNode(me: nat, name: NodeName, cpu: int, mem: int)
      requires Valid() && AtNode(me) && clients[me].pc.RollingBack? && name == NodeOf(clients[me])
      requires cpu == clients[me].intent.cpu && mem == clients[me].intent.mem
      modifies this, repo
      ensures Valid() && origin == old(origin) && old(trace) <= trace
      ensures me in clients
      ensures var was := old(clients[me]);
              clients[me] == was.(pc := Trying(was.pc.i + 1), leaked := clients[me].leaked)
    {
      Interfere(me);
      var net := network.reply(taken);
      var before := View();
      var _ := repo.RollbackResources(name, cpu, mem, net);
      Note(before, Apply(before, Rollback(me, net)), Rollback(me, net));
    }

    method ApiVouches(intent: PodIntent, kube: seq<KubeNode>, name: NodeName) returns (ok: bool)
      ensures forall client: Client ::
                HasNode(client) && NodeOf(client) == name && client.intent == intent && client.kube == kube ==> (ok <==> Vouched(client))
    {
      var found := FindKubeNode(kube, name);
      return found.Some? && ValidateApiNode(intent, found.value);
    }

    /** Validation against the API list and binding, with whatever the API server says. */
    method ValidateAndBind(me: nat, intent: PodIntent, kube: seq<KubeNode>, name: NodeName) returns (ok: bool)
      requires Valid() && AtNode(me) && clients[me].pc.Unlocked? && name == NodeOf(clients[me])
      requires intent == clients[me].intent && kube == clients[me].kube
      modifies this, repo
      ensures Valid() && origin == old(origin) && old(trace) <= trace
      ensures me in clients
      ensures var was := old(clients[me]);
              clients[me] == was.(pc := if ok then Bound(was.pc.i) else RollingBack(was.pc.i))
      ensures ok ==> Vouched(clients[me])
    {
      Interfere(me);
      var bind := network.bind(taken);
      var before := View();
      ok := ApiVouches(intent, kube, name);
      if ok {
        ok := BindAccepted(bind);
      }
      Note(before, Apply(before, Conclude(me, bind)), Conclude(me, bind));
    }

    /** The call's own reservations are exactly these. */
    ghost predicate HoldsOnly(me: nat, node: Option<NodeName>)
      reads this, repo
    {
      && me in clients
      && forall n: NodeName :: Count(Outstanding(log), Mine(clients[me], me, n))
                     == Leaked(origin, trace, me, n) + if node == Some(n) then 1 else 0
    }

    lemma FinishedHoldsOnly(me: nat)
      requires Valid() && me in clients && Finished(clients[me])
      ensures HoldsOnly(me, if clients[me].pc.Bound? && HasNode(clients[me]) then Some(NodeOf(clients[me])) else None)
    {
      forall n: NodeName {
        FinishedCallExact(origin, trace, me, n);
      }
    }

    /** The critical section of one iteration: lock, re-read, re-check, reserve, unlock. */
    method ReserveUnderLock(me: nat, intent: PodIntent, node: ScoredNode) returns (reserved: bool)
      requires Valid() && AtNode(me) && clients[me].pc.Trying?
      requires clients[me].intent == intent && clients[me].scored[clients[me].pc.i] == node
      modifies this, repo
      ensures Valid() && origin == old(origin) && old(trace) <= trace
      ensures me in clients
      ensures var was := old(clients[me]);
              clients[me] == was.(pc := if reserved then Unlocked(was.pc.i) else Trying(was.pc.i + 1),
                                  leaked := clients[me].leaked, strays := clients[me].strays)
    {
      var lock := LockNode(me, node.name);
      if lock.None? {
        return false;
      }
      var state := ReadNode(me, node.name);
      if state.None? || state.value.version != node.version || CheckHardConstraints(intent, state.value).Some? {
        UnlockNode(me, node.name, lock.value);
        return false;
      }
      var result := ReserveNode(me, node.name, intent.cpu, intent.mem, state.value.version);
      UnlockNode(me, node.name, lock.value);
      return result.Ok?;
    }

    /** One iteration of the loop: reserve under the lock, then validate and bind, or
        roll back. */
    method TryNode(me: nat, intent: PodIntent, node: ScoredNode, kube: seq<KubeNode>) returns (bound: bool)
      requires Valid() && AtNode(me) && clients[me].pc.Trying?
      requires clients[me].intent == intent && clients[me].kube == kube && clients[me].scored[clients[me].pc.i] == node
      modifies this, repo
      ensures Valid() && origin == old(origin) && old(trace) <= trace
      ensures me in clients
      ensures var was := old(clients[me]);
              clients[me] == was.(pc := if bound then Bound(was.pc.i) else Trying(was.pc.i + 1),
                                  leaked := clients[me].leaked, strays := clients[me].strays)
      ensures bound ==> Vouched(clients[me])
    {
      var reserved := ReserveUnderLock(me, intent, node);
      if !reserved {
        return false;
      }
      bound := ValidateAndBind(me, intent, kube, node.name);
      if !bound {
        RollbackNode(me, node.name, intent.cpu, intent.mem);
      }
    }

    method Arrived(me: nat, intent: PodIntent, scored: seq<ScoredNode>, kube: seq<KubeNode>)
      requires Valid() && me !in clients && 0 <= intent.cpu && 0 <= intent.mem
      modifies this
      ensures Valid() && origin == old(origin) && old(trace) <= trace
      ensures me in clients && clients[me] == Client(intent, scored, kube, Trying(0), multiset{}, {})
    {
      var before := View();
      Note(before, Apply(before, Arrive(me, intent, scored, kube)), Arrive(me, intent, scored, kube));
    }

    /** Tries the ranked nodes in order until one is reserved, vouched for and bound; only
        when all have been tried does it fall back to the first listed node, unreserved.
        Whatever interferes, the call ends with one reservation outstanding on the node
        it returns as reserved and with none on every other exit, but for those leaked
        by lost messages; and it leaves a lock exactly where a lost lock reply or unlock
        request did and the lock has not expired. The node it returns as reserved was
        reserved at the version it was listed with, and its entry in the API list is ready,
        of the pod's architecture and without a blocking taint that the pod does not
        tolerate. */
    method ReserveAndBind(me: nat, intent: PodIntent, scored: seq<ScoredNode>, kube: seq<KubeNode>, pod: PodLookup)
      returns (out: Outcome)
      requires Valid() && me !in clients && 0 <= intent.cpu && 0 <= intent.mem
      modifies this, repo
      ensures Valid() && origin == old(origin) && old(trace) <= trace
      ensures out == LookupError <==> pod == PodMissing
      ensures out == Panicked <==> pod.PodOn? && scored == []
      ensures out.AlreadyOn? <==> pod.PodOn? && scored != []
      ensures out.AlreadyOn? ==> out.node == pod.node
      ensures !pod.PodUnassigned? ==> trace == old(trace) && clients == old(clients)
      ensures pod.PodUnassigned? ==>
                && me in clients && clients[me].intent == intent && clients[me].scored == scored && clients[me].kube == kube
                && HoldsOnly(me, if out.ReservedOn? then Some(out.node) else None)
                && KeepsOnlyOrphans(me)
                && (if out.ReservedOn?
                    then clients[me].pc.Bound? && HasNode(clients[me]) && Vouched(clients[me]) && scored[clients[me].pc.i].name == out.node
                         && Event(Reserved, me, out.node, intent.cpu, intent.mem, scored[clients[me].pc.i].version) in log
                    else clients[me].pc == Trying(|scored|) && (forall i: nat :: i < |scored| ==> Tried(origin, trace, me, i))
                         && out == if kube != [] then FirstNode(kube[0].name) else NoNodes)
      ensures out.ReservedOn? ==>
                exists k :: 0 <= k < |kube| && kube[k].name == out.node && (forall j :: 0 <= j < k ==> kube[j].name != out.node)
                  && (exists c :: c in kube[k].conditions && c.kind == "Ready" && c.status == "True")
                  && (var labels := kube[k].labels;
                      if "kubernetes.io/arch" in labels && labels["kubernetes.io/arch"] != ""
                      then labels["kubernetes.io/arch"] == intent.arch
                      else if "beta.kubernetes.io/arch" in labels then labels["beta.kubernetes.io/arch"] == intent.arch
                      else intent.arch == "")
                  && (forall t :: t in kube[k].taints && (t.effect == NoSchedule || t.effect == NoExecute) ==> t.key in intent.tolerations)
    {
      match pod {
        case PodMissing =>
          return LookupError;
        case PodOn(node) =>
          if |scored| > 0 && scored[0].name == node {
            return AlreadyOn(node);
          }
          if |scored| == 0 {
            return Panicked;
          }
          return AlreadyOn(node);
        case PodUnassigned =>
      }
      Arrived(me, intent, scored, kube);
      for i := 0 to |scored|
        invariant Valid() && origin == old(origin) && old(trace) <= trace
        invariant me in clients && clients[me].intent == intent && clients[me].scored == scored && clients[me].kube == kube
        invariant clients[me].pc == Trying(i)
      {
        var bound := TryNode(me, intent, scored[i], kube);
        if bound {
          HeldAsListed(origin, trace, me);
          FindsFirst(kube, scored[i].name);
          ValidationExactly(intent, FindKubeNode(kube, scored[i].name).value);
          FinishedHoldsOnly(me);
          FinishedKeepsOnlyOrphans(me);
          return ReservedOn(scored[i].name);
        }
      }
      forall i: nat | i < |scored| ensures Tried(origin, trace, me, i) {
        TriedInOrder(origin, trace, me, i);
      }
      FinishedHoldsOnly(me);
      FinishedKeepsOnlyOrphans(me);
      return if |kube| > 0 then FirstNode(kube[0].name) else NoNodes;
    }

    /** A lock carries a UUID of this call exactly where a lost message of the call left one
        that has not expired since. */
    ghost predicate KeepsOnlyOrphans(me: nat)
      reads this, repo
    {
      forall n: NodeName, uuid: nat ::
        n in repo.locks && repo.locks[n] == uuid && uuid in owners && owners[uuid] == me <==>
          LeftInPlace(origin, trace, me, n, uuid)
    }

    lemma FinishedKeepsOnlyOrphans(me: nat)
      requires Valid() && me in clients && !HasLockId(clients[me].pc)
      ensures KeepsOnlyOrphans(me)
    {
      forall n: NodeName, uuid: nat {
        OrphanedExactly(origin, trace, me, n, uuid);
      }
    }

    method BeginSync(k: nat, api: KubeNode)
      requires Valid() && k !in syncs
      modifies this
      ensures Valid() && origin == old(origin) && old(trace) <= trace
      ensures k in syncs && SameMetadata(syncs[k], StateFromApi(api, None))
      ensures syncs[k] == StateFromApi(api, if old(network.reply(taken)).Delivered? && api.name in repo.nodes then Some(repo.nodes[api.name]) else None)
    {
      var net := network.reply(taken);
      var before := View();
      var existing := repo.GetNodeState(api.name, net);
      var after := Apply(before, SyncRead(k, api, net));
      assert after.syncs[k] == StateFromApi(api, existing);
      Note(before, after, SyncRead(k, api, net));
    }

    method FinishSync(k: nat) returns (ok: bool)
      requires Valid() && k in syncs
      modifies this, repo
      ensures Valid() && origin == old(origin) && old(trace) <= trace
      ensures trace != [] && trace[|trace| - 1] == SyncMerge(k, network.reply(|trace| - 1))
      ensures ok <==> network.reply(|trace| - 1).Delivered?
      ensures ok ==> var patch := old(syncs[k]); patch.name in repo.nodes && SameMetadata(repo.nodes[patch.name], patch)
      ensures ok ==> var n := old(syncs[k]).name;
                     n in old(repo.nodes) ==>
                       SameUsage(repo.nodes[n], old(repo.nodes[n])) && repo.nodes[n].version == old(repo.nodes[n]).version
    {
      var net := network.reply(taken);
      var before := View();
      ok := repo.SetNodeState(syncs[k], net);
      Note(before, Apply(before, SyncMerge(k, net)), SyncMerge(k, net));
    }

    /** Reads the existing record, then merges; anything may happen in between. A merge
        that succeeds leaves a record with the API's name, labels, amounts, readiness and
        taint keys, and with the two properties off the stable labels or, where those are
        missing or empty, the beta ones. */
    method UpdateNodeStateFromApi(k: nat, api: KubeNode) returns (ok: bool)
      requires Valid() && k !in syncs
      modifies this, repo
      ensures Valid() && origin == old(origin) && old(trace) <= trace
      ensures trace != [] && trace[|trace| - 1] == SyncMerge(k, network.reply(|trace| - 1))
      ensures ok <==> network.reply(|trace| - 1).Delivered?
      ensures ok ==> api.name in repo.nodes
      ensures ok ==>
                var node, labels := repo.nodes[api.name], api.labels;
                && node.name == api.name && node.labels == labels
                && node.cpuAlloc == api.cpuAlloc && node.memAlloc == api.memAlloc && node.podsAlloc == api.podsAlloc
                && (node.ready <==> exists c :: c in api.conditions && c.kind == "Ready" && c.status == "True")
                && |node.taints| == |api.taints| && (forall i :: 0 <= i < |api.taints| ==> node.taints[i] == api.taints[i].key)
                && node.arch == (if "kubernetes.io/arch" in labels && labels["kubernetes.io/arch"] != ""
                                 then labels["kubernetes.io/arch"]
                                 else if "beta.kubernetes.io/arch" in labels then labels["beta.kubernetes.io/arch"] else "")
                && node.os == (if "kubernetes.io/os" in labels && labels["kubernetes.io/os"] != ""
                               then labels["kubernetes.io/os"]
                               else if "beta.kubernetes.io/os" in labels then labels["beta.kubernetes.io/os"] else "")
    {
      SyncedExactly(api, None);
      BeginSync(k, api);
      InterfereWithSync(k);
      ok := FinishSync(k);
    }

    /** Like Interfere, from the point of view of sync k between its two commands. */
    method InterfereWithSync(k: nat)
      requires Valid() && k in syncs
      modifies this, repo
      ensures Valid() && origin == old(origin) && old(trace) <= trace
      ensures k in syncs && syncs[k] == old(syncs[k])
    {
      var rounds: nat := *;
      while rounds > 0
        invariant Valid() && origin == old(origin) && old(trace) <= trace
        invariant k in syncs && syncs[k] == old(syncs[k])
      {
        var l: Step := *;
        if !(l.SyncMerge? && l.k == k) && AnsweredBy(network, taken, l) {
          var before := View();
          var after := Apply(before, l);
          SyncUntouched(before, l, k);
          repo.nodes, repo.locks, repo.nextUuid := after.nodes, after.locks, after.nextUuid;
          Note(before, after, l);
        }
        rounds := rounds - 1;
      }
    }

    static lemma SyncUntouched(s: Sys, l: Step, k: nat)
      requires k in s.syncs && !(l.SyncMerge? && l.k == k)
      ensures k in Apply(s, l).syncs && Apply(s, l).syncs[k] == s.syncs[k]
    {
      if l.Fetch? || l.Conclude? {
        ChecksAreLocal(s, l);
      } else if l.Arrive? || l.TryLock? || l.Unlock? || l.Expire? {
        LocksAreNotSyncs(s, l);
      } else {
        OtherSyncsUntouched(s, l, k);
      }
    }

    static lemma LocksAreNotSyncs(s: Sys, l: Step)
      requires l.Arrive? || l.TryLock? || l.Unlock? || l.Expire?
      ensures Apply(s, l).syncs == s.syncs
    {
    }

    static lemma OtherSyncsUntouched(s: Sys, l: Step, k: nat)
      requires l.Reserve? || l.Rollback? || l.SyncRead? || (l.SyncMerge? && l.k != k)
      requires k in s.syncs
      ensures k in Apply(s, l).syncs && Apply(s, l).syncs[k] == s.syncs[k]
    {
    }
  }
}
