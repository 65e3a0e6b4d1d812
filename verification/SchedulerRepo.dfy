/** The shared Redis store: the three Lua scripts over node records, and the
    repository whose operations change the store's keys in place.
    Each operation is one atomic Redis command or script. */
module SchedulerRepo {
  import opened Wrappers
  import opened NodeModel

  datatype ScriptError = NodeNotFound | VersionMismatch | InsufficientResources | Unreachable

  /** What the network does to one command: it may never arrive, or it may execute
      with its reply lost, so that the caller sees an error all the same. */
  datatype Reply = Delivered | RequestLost | ReplyLost

  // ----- the scripts, on one record -----

  function ReserveRecord(node: NodeState, cpu: int, mem: int, expected: int): Result<NodeState, ScriptError> {
    if node.version != expected then
      Err(VersionMismatch)
    else if !HasRoom(node, cpu, mem) then
      Err(InsufficientResources)
    else
      Ok(node.(cpuUsed := node.cpuUsed + cpu,
               memUsed := node.memUsed + mem,
               podsUsed := node.podsUsed + 1,
               version := node.version + 1))
  }

  function Clamped(x: int): int {
    if x < 0 then 0 else x
  }

  function RollbackRecord(node: NodeState, cpu: int, mem: int): NodeState {
    node.(cpuUsed := Clamped(node.cpuUsed - cpu),
          memUsed := Clamped(node.memUsed - mem),
          podsUsed := Clamped(node.podsUsed - 1),
          version := node.version + 1)
  }

  function MergeRecord(existing: Option<NodeState>, patch: NodeState): NodeState {
    match existing
    case None => patch
    case Some(node) =>
      node.(name := patch.name, arch := patch.arch, os := patch.os,
            cpuAlloc := patch.cpuAlloc, memAlloc := patch.memAlloc, podsAlloc := patch.podsAlloc,
            ready := patch.ready, taints := patch.taints, labels := patch.labels)
  }

  /** DEL only when the lock still carries the caller's UUID. */
  function Freed(locks: map<NodeName, nat>, n: NodeName, uuid: nat): map<NodeName, nat> {
    if n in locks && locks[n] == uuid then locks - {n} else locks
  }

  function Lookup<T>(m: map<NodeName, T>, key: NodeName): Option<T> {
    if key in m then Some(m[key]) else None
  }

  // ----- what the scripts guarantee about a record -----

  /** A record within capacity stays within it when a reserve succeeds; if it was
      not (a sync shrank it), the reserve still leaves use within allocatable. */
  lemma ReserveRespectsCapacity(node: NodeState, cpu: int, mem: int, expected: int)
    requires ReserveRecord(node, cpu, mem, expected).Ok?
    ensures var after := ReserveRecord(node, cpu, mem, expected).value;
            && after.cpuUsed <= after.cpuAlloc && after.memUsed <= after.memAlloc && after.podsUsed <= after.podsAlloc
            && (0 <= cpu && 0 <= mem && WithinCapacity(node) ==> WithinCapacity(after))
  {
  }

  /** Rolling back what was just reserved restores the usage and leaves the
      version two higher; no clamp fires when the usage was not negative. */
  lemma RollbackUndoesReserve(node: NodeState, cpu: int, mem: int)
    requires 0 <= node.cpuUsed && 0 <= node.memUsed && 0 <= node.podsUsed
    requires ReserveRecord(node, cpu, mem, node.version).Ok?
    ensures RollbackRecord(ReserveRecord(node, cpu, mem, node.version).value, cpu, mem)
         == node.(version := node.version + 2)
  {
  }

  /** A merge over an existing record takes the nine patch fields and nothing else,
      so it commutes with a rollback and leaves the version test of a reserve alone. */
  lemma MergeKeepsUsage(node: NodeState, patch: NodeState, cpu: int, mem: int)
    ensures var merged := MergeRecord(Some(node), patch);
            && SameMetadata(merged, patch) && SameUsage(merged, node) && merged.version == node.version
            && RollbackRecord(merged, cpu, mem) == MergeRecord(Some(RollbackRecord(node, cpu, mem)), patch)
  {
  }

  /** The hard filter agrees with the script: a record it admits is accepted by the
      reserve script at the record's own version, and at no other version. */
  lemma FilterAgreesWithReserve(intent: PodIntent, node: NodeState, expected: int)
    requires CheckHardConstraints(intent, node).None?
    ensures ReserveRecord(node, intent.cpu, intent.mem, expected).Ok? <==> expected == node.version
  {
    FilterAdmits(intent, node);
  }

  // ----- the store -----

  class SchedulerRepository {
    var nodes: map<NodeName, NodeState>
    var locks: map<NodeName, nat>
    var nextUuid: nat

    constructor ()
      ensures nodes == map[] && locks == map[] && nextUuid == 0
    {
      nodes, locks, nextUuid := map[], map[], 0;
    }

    method GetNodeState(name: NodeName, net: Reply) returns (r: Option<NodeState>)
      ensures r == if net.Delivered? then Lookup(nodes, name) else None
    {
      if net.Delivered? && name in nodes {
        return Some(nodes[name]);
      }
      return None;
    }

    method SetNodeState(state: NodeState, net: Reply) returns (ok: bool)
      modifies this`nodes
      ensures ok == net.Delivered?
      ensures nodes == if net.RequestLost? then old(nodes)
                       else old(nodes)[state.name := MergeRecord(Lookup(old(nodes), state.name), state)]
    {
      if !net.RequestLost? {
        if state.name in nodes {
          var node := nodes[state.name];
          node := node.(name := state.name, arch := state.arch, os := state.os);
          node := node.(cpuAlloc := state.cpuAlloc, memAlloc := state.memAlloc, podsAlloc := state.podsAlloc);
          node := node.(ready := state.ready, taints := state.taints, labels := state.labels);
          nodes := nodes[state.name := node];
        } else {
          nodes := nodes[state.name := state];
        }
      }
      return net.Delivered?;
    }

    /** SET NX with a fresh UUID, which is drawn whatever becomes of the command. */
    method LockNode(name: NodeName, net: Reply) returns (r: Option<nat>)
      modifies this`locks, this`nextUuid
      ensures nextUuid == old(nextUuid) + 1
      ensures r == if net.Delivered? && name !in old(locks) then Some(old(nextUuid)) else None
      ensures locks == if net.RequestLost? || name in old(locks) then old(locks) else old(locks)[name := old(nextUuid)]
    {
      var uuid := nextUuid;
      nextUuid := nextUuid + 1;
      if net.RequestLost? || name in locks {
        return None;
      }
      locks := locks[name := uuid];
      return if net.Delivered? then Some(uuid) else None;
    }

    method UnlockNode(name: NodeName, uuid: nat, net: Reply)
      modifies this`locks
      ensures locks == if net.RequestLost? then old(locks) else Freed(old(locks), name, uuid)
    {
      if !net.RequestLost? && name in locks && locks[name] == uuid {
        locks := locks - {name};
      }
    }

    method ReserveResources(name: NodeName, cpu: int, mem: int, expected: int, net: Reply)
      returns (r: Result<int, ScriptError>)
      modifies this`nodes
      ensures net.RequestLost? || name !in old(nodes) ==> r.Err? && nodes == old(nodes)
      ensures !net.RequestLost? && name in old(nodes) ==>
                match ReserveRecord(old(nodes)[name], cpu, mem, expected)
                case Ok(node) =>
                  nodes == old(nodes)[name := node] && r == if net.Delivered? then Ok(node.version) else Err(Unreachable)
                case Err(_) =>
                  nodes == old(nodes) && r.Err?
    {
      if net.RequestLost? {
        return Err(Unreachable);
      }
      if name !in nodes {
        return Err(NodeNotFound);
      }
      var node := nodes[name];
      if node.version != expected {
        return Err(VersionMismatch);
      }
      var cpuFree := node.cpuAlloc - node.cpuUsed;
      var memFree := node.memAlloc - node.memUsed;
      if cpuFree < cpu || memFree < mem || node.podsUsed >= node.podsAlloc {
        return Err(InsufficientResources);
      }
      node := node.(cpuUsed := node.cpuUsed + cpu, memUsed := node.memUsed + mem);
      node := node.(podsUsed := node.podsUsed + 1, version := node.version + 1);
      nodes := nodes[name := node];
      return if net.Delivered? then Ok(node.version) else Err(Unreachable);
    }

    method RollbackResources(name: NodeName, cpu: int, mem: int, net: Reply) returns (r: Result<int, ScriptError>)
      modifies this`nodes
      ensures net.RequestLost? || name !in old(nodes) ==> r.Err? && nodes == old(nodes)
      ensures !net.RequestLost? && name in old(nodes) ==>
                var node := RollbackRecord(old(nodes)[name], cpu, mem);
                && nodes == old(nodes)[name := node]
                && r == if net.Delivered? then Ok(node.version) else Err(Unreachable)
    {
      if net.RequestLost? {
        return Err(Unreachable);
      }
      if name !in nodes {
        return Err(NodeNotFound);
      }
      var node := nodes[name];
      node := node.(cpuUsed := Clamped(node.cpuUsed - cpu), memUsed := Clamped(node.memUsed - mem));
      node := node.(podsUsed := Clamped(node.podsUsed - 1), version := node.version + 1);
      nodes := nodes[name := node];
      return if net.Delivered? then Ok(node.version) else Err(Unreachable);
    }
  }
}
