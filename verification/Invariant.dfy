/** The inductive invariant of the reservation protocol, kept by every step. */
module Invariant {
  import opened Wrappers
  import opened NodeModel
  import opened SchedulerRepo
  import opened Ledger
  import opened Protocol

  function Used(node: NodeState, d: Resource): int {
    match d
    case Cpu => node.cpuUsed
    case Memory => node.memUsed
    case Pods => node.podsUsed
  }

  /** The phases in which a call has a reservation of its own that it can still undo. */
  predicate Holding(pc: Pc) {
    pc.Reserving? || pc.Unlocked? || pc.RollingBack? || pc.Bound?
  }

  predicate HasLockId(pc: Pc) {
    pc.Locked? || pc.Fetched? || pc.Releasing? || pc.Reserving?
  }

  /** How many reservations the call should have outstanding on a node. */
  function Held(client: Client, n: NodeName): nat {
    client.leaked[n] + if Holding(client.pc) && HasNode(client) && NodeOf(client) == n then 1 else 0
  }

  function Mine(client: Client, c: nat, n: NodeName): Reservation {
    Reservation(c, n, client.intent.cpu, client.intent.mem)
  }

  /** A record is its first version plus everything outstanding on it, and its
      version counts the scripts executed on it. */
  ghost predicate Explained(base: NodeState, node: NodeState, log: seq<Event>, n: NodeName) {
    && (forall d :: Used(node, d) == Used(base, d) + Load(Outstanding(log), n, d))
    && node.version == base.version + EventsOn(log, n)
  }

  ghost predicate NodeOk(s: Sys, n: NodeName)
    requires n in s.nodes && n in s.base
  {
    && (forall d :: 0 <= Used(s.base[n], d))
    && Explained(s.base[n], s.nodes[n], s.log, n)
  }

  ghost predicate NodesOk(s: Sys) {
    && s.nodes.Keys == s.base.Keys
    && forall n :: n in s.nodes ==> NodeOk(s, n)
  }

  ghost predicate EventOk(s: Sys, e: Event) {
    e.client in s.clients && e.cpu == s.clients[e.client].intent.cpu && e.mem == s.clients[e.client].intent.mem
  }

  ghost predicate LogOk(s: Sys) {
    && WellFormed(s.log)
    && Versioned(s.log, s.base)
    && forall k {:trigger EventOk(s, s.log[k])} :: 0 <= k < |s.log| ==> EventOk(s, s.log[k])
  }

  /** The ledger agrees with the call's own phase. */
  ghost predicate Accounted(s: Sys, c: nat)
    requires c in s.clients
  {
    forall n :: Count(Outstanding(s.log), Mine(s.clients[c], c, n)) == Held(s.clients[c], n)
  }

  /** What a call knows of its node is still true in this sense: the record exists,
      and if its version did not move, neither did its usage. */
  ghost predicate Informed(s: Sys, client: Client) {
    && (!client.pc.Trying? ==> HasNode(client))
    && (Holding(client.pc) && HasNode(client) ==> NodeOf(client) in s.nodes)
    && (client.pc.Fetched? && HasNode(client) ==>
          && NodeOf(client) in s.nodes
          && client.pc.seen.version <= s.nodes[NodeOf(client)].version
          && (client.pc.seen.version == s.nodes[NodeOf(client)].version ==>
                SameUsage(client.pc.seen, s.nodes[NodeOf(client)])))
  }

  ghost predicate OwnsIds(s: Sys, c: nat)
    requires c in s.clients
  {
    && (HasLockId(s.clients[c].pc) ==> s.clients[c].pc.uuid in s.owners && s.owners[s.clients[c].pc.uuid] == c)
    && forall u :: u in s.clients[c].strays ==> u in s.owners && s.owners[u] == c
  }

  ghost predicate ClientOk(s: Sys, c: nat)
    requires c in s.clients
  {
    && 0 <= s.clients[c].intent.cpu && 0 <= s.clients[c].intent.mem
    && Informed(s, s.clients[c])
    && OwnsIds(s, c)
  }

  /** The call may still release this lock, or has lost the message that would have. */
  predicate Owns(client: Client, n: NodeName, uuid: nat) {
    || (HasLockId(client.pc) && HasNode(client) && NodeOf(client) == n && client.pc.uuid == uuid)
    || uuid in client.strays
  }

  ghost predicate LockOk(s: Sys, n: NodeName)
    requires n in s.locks
  {
    var u := s.locks[n];
    u in s.owners && s.owners[u] in s.clients && Owns(s.clients[s.owners[u]], n, u)
  }

  ghost predicate LocksOk(s: Sys) {
    && (forall u :: u in s.owners ==> u < s.nextUuid)
    && (forall n :: n in s.locks ==> LockOk(s, n))
  }

  /** A sync about to create a record carries no usage and version zero. */
  ghost predicate SyncsOk(s: Sys) {
    forall k :: k in s.syncs && s.syncs[k].name !in s.nodes ==>
      (forall d :: Used(s.syncs[k], d) == 0) && s.syncs[k].version == 0
  }

  ghost predicate Inv(s: Sys) {
    && NodesOk(s)
    && LogOk(s)
    && (forall c :: c in s.clients ==> ClientOk(s, c))
    && (forall c :: c in s.clients ==> Accounted(s, c))
    && LocksOk(s)
    && SyncsOk(s)
  }

  // ----- steps that execute no script -----

  /** No script ran: known records keep usage, version and first record. */
  ghost predicate Continues(s: Sys, t: Sys) {
    && t.log == s.log
    && (forall n :: n in s.nodes ==> n in t.nodes && SameUsage(t.nodes[n], s.nodes[n]) && t.nodes[n].version == s.nodes[n].version)
    && (forall n :: n in s.base ==> n in t.base && t.base[n] == s.base[n])
    && (forall u :: u in s.owners ==> u in t.owners && t.owners[u] == s.owners[u])
    && (forall c :: c in s.clients ==> c in t.clients && t.clients[c].intent == s.clients[c].intent)
  }

  lemma ContinuesKeepsLog(s: Sys, t: Sys)
    requires LogOk(s) && Continues(s, t)
    ensures LogOk(t)
  {
    forall k | 0 <= k < |t.log| ensures EventOk(t, t.log[k]) {
      assert EventOk(s, s.log[k]);
    }
    forall k: nat | k < |t.log| ensures VersionedAt(t.log, t.base, k) {
      assert VersionedAt(s.log, s.base, k);
    }
  }

  lemma ContinuesKeepsNode(s: Sys, t: Sys, n: NodeName)
    requires n in s.nodes && n in s.base && NodeOk(s, n) && Continues(s, t)
    ensures n in t.nodes && n in t.base && NodeOk(t, n)
  {
    assert forall d :: Used(t.nodes[n], d) == Used(s.nodes[n], d);
  }

  lemma ContinuesKeepsClient(s: Sys, t: Sys, c: nat)
    requires c in s.clients && ClientOk(s, c) && Continues(s, t)
    requires c in t.clients && t.clients[c] == s.clients[c]
    ensures ClientOk(t, c)
  {
  }

  lemma ContinuesKeepsAccount(s: Sys, t: Sys, c: nat)
    requires c in s.clients && Accounted(s, c) && Continues(s, t)
    requires c in t.clients && forall n :: Held(t.clients[c], n) == Held(s.clients[c], n)
    ensures Accounted(t, c)
  {
    forall n ensures Count(Outstanding(t.log), Mine(t.clients[c], c, n)) == Held(t.clients[c], n) {
      assert Mine(t.clients[c], c, n) == Mine(s.clients[c], c, n);
    }
  }

  /** One call moves on, with the same reservations; locks and UUIDs may change. */
  ghost predicate Quiet(s: Sys, t: Sys, c: nat)
    requires c in s.clients
  {
    && t.nodes == s.nodes && t.base == s.base && t.log == s.log && t.syncs == s.syncs
    && c in t.clients && t.clients == s.clients[c := t.clients[c]]
    && t.clients[c].intent == s.clients[c].intent
    && forall n :: Held(t.clients[c], n) == Held(s.clients[c], n)
  }

  lemma QuietStep(s: Sys, t: Sys, c: nat)
    requires Inv(s) && c in s.clients && Quiet(s, t, c)
    requires forall u :: u in s.owners ==> u in t.owners && t.owners[u] == s.owners[u]
    requires ClientOk(t, c) && LocksOk(t)
    ensures Inv(t)
  {
    assert Continues(s, t);
    ContinuesKeepsLog(s, t);
    forall n | n in t.nodes ensures NodeOk(t, n) {
      ContinuesKeepsNode(s, t, n);
    }
    forall d | d in t.clients ensures ClientOk(t, d) {
      if d != c {
        ContinuesKeepsClient(s, t, d);
      }
    }
    forall d | d in t.clients ensures Accounted(t, d) {
      ContinuesKeepsAccount(s, t, d);
    }
  }

  lemma TryLockIsQuiet(s: Sys, c: nat, reply: Reply)
    requires Ready(s, c) && s.clients[c].pc.Trying?
    ensures Quiet(s, DoTryLock(s, c, reply), c)
  {
  }

  lemma TryLockKeepsLocks(s: Sys, c: nat, reply: Reply)
    requires Ready(s, c) && s.clients[c].pc.Trying? && LocksOk(s) && ClientOk(s, c)
    ensures var t := DoTryLock(s, c, reply); ClientOk(t, c) && LocksOk(t)
  {
    var t := DoTryLock(s, c, reply);
    forall n | n in t.locks ensures LockOk(t, n) {
      if n in s.locks {
        assert LockOk(s, n);
      }
    }
  }

  lemma FetchIsQuiet(s: Sys, c: nat, reply: Reply)
    requires Ready(s, c) && s.clients[c].pc.Locked?
    ensures Quiet(s, DoFetch(s, c, reply), c)
  {
  }

  lemma FetchKeepsLocks(s: Sys, c: nat, reply: Reply)
    requires Ready(s, c) && s.clients[c].pc.Locked? && LocksOk(s) && ClientOk(s, c)
    ensures var t := DoFetch(s, c, reply); ClientOk(t, c) && LocksOk(t)
  {
    var t := DoFetch(s, c, reply);
    forall n | n in t.locks ensures LockOk(t, n) {
      assert LockOk(s, n);
    }
  }

  lemma UnlockIsQuiet(s: Sys, c: nat, reply: Reply)
    requires Ready(s, c) && (s.clients[c].pc.Releasing? || s.clients[c].pc.Reserving?)
    ensures Quiet(s, DoUnlock(s, c, reply), c)
  {
  }

  lemma UnlockKeepsLocks(s: Sys, c: nat, reply: Reply)
    requires Ready(s, c) && (s.clients[c].pc.Releasing? || s.clients[c].pc.Reserving?) && LocksOk(s) && ClientOk(s, c)
    ensures var t := DoUnlock(s, c, reply); ClientOk(t, c) && LocksOk(t)
  {
    var t := DoUnlock(s, c, reply);
    forall n | n in t.locks ensures LockOk(t, n) {
      assert LockOk(s, n);
    }
  }

  lemma ConcludeIsQuiet(s: Sys, c: nat, bind: BindReply)
    requires Ready(s, c) && s.clients[c].pc.Unlocked? && LocksOk(s) && ClientOk(s, c)
    ensures var t := DoConclude(s, c, bind); Quiet(s, t, c) && ClientOk(t, c) && LocksOk(t)
  {
    PassingIsQuiet(s, c, Bound(s.clients[c].pc.i));
    PassingIsQuiet(s, c, RollingBack(s.clients[c].pc.i));
  }

  /** From holding a reservation to holding the same one. */
  lemma PassingIsQuiet(s: Sys, c: nat, pc: Pc)
    requires Ready(s, c) && s.clients[c].pc.Unlocked? && LocksOk(s) && ClientOk(s, c)
    requires (pc.Bound? || pc.RollingBack?) && pc.i == s.clients[c].pc.i
    ensures var t := Put(s, c, s.clients[c].(pc := pc)); Quiet(s, t, c) && ClientOk(t, c) && LocksOk(t)
  {
    var t := Put(s, c, s.clients[c].(pc := pc));
    forall n | n in t.locks ensures LockOk(t, n) {
      assert LockOk(s, n);
    }
  }

  lemma FailedReserveIsQuiet(s: Sys, c: nat, reply: Reply)
    requires Ready(s, c) && s.clients[c].pc.Fetched? && LocksOk(s) && ClientOk(s, c)
    requires reply.RequestLost? || ReserveOutcome(s, c).Err?
    ensures var t := DoReserve(s, c, reply); Quiet(s, t, c) && ClientOk(t, c) && LocksOk(t)
  {
    var t := DoReserve(s, c, reply);
    forall n | n in t.locks ensures LockOk(t, n) {
      assert LockOk(s, n);
    }
  }

  lemma LostRollbackIsQuiet(s: Sys, c: nat)
    requires Ready(s, c) && s.clients[c].pc.RollingBack? && LocksOk(s) && ClientOk(s, c)
    ensures var t := DoRollback(s, c, RequestLost); Quiet(s, t, c) && ClientOk(t, c) && LocksOk(t)
  {
    var t := DoRollback(s, c, RequestLost);
    forall n | n in t.locks ensures LockOk(t, n) {
      assert LockOk(s, n);
    }
  }

  /** Everything but the newcomer and new records carries over. */
  lemma SettledStep(s: Sys, t: Sys)
    requires Inv(s) && Continues(s, t)
    requires t.nodes.Keys == t.base.Keys
    requires forall c :: c in s.clients ==> t.clients[c] == s.clients[c]
    requires forall n :: n in t.nodes && n !in s.nodes ==> NodeOk(t, n)
    requires forall c :: c in t.clients && c !in s.clients ==> ClientOk(t, c) && Accounted(t, c)
    requires t.nextUuid == s.nextUuid && t.owners == s.owners
    requires forall n :: n in t.locks ==> n in s.locks && t.locks[n] == s.locks[n]
    requires SyncsOk(t)
    ensures Inv(t)
  {
    ContinuesKeepsLog(s, t);
    forall n | n in t.nodes ensures NodeOk(t, n) {
      if n in s.nodes {
        ContinuesKeepsNode(s, t, n);
      }
    }
    forall c | c in t.clients ensures ClientOk(t, c) {
      if c in s.clients {
        ContinuesKeepsClient(s, t, c);
      }
    }
    forall c | c in t.clients ensures Accounted(t, c) {
      if c in s.clients {
        ContinuesKeepsAccount(s, t, c);
      }
    }
    forall n | n in t.locks ensures LockOk(t, n) {
      assert LockOk(s, n);
    }
  }

  lemma ArriveKeepsInv(s: Sys, c: nat, intent: PodIntent, scored: seq<ScoredNode>, kube: seq<KubeNode>)
    requires Inv(s) && c !in s.clients && 0 <= intent.cpu && 0 <= intent.mem
    ensures Inv(Put(s, c, Client(intent, scored, kube, Trying(0), multiset{}, {})))
  {
    var t := Put(s, c, Client(intent, scored, kube, Trying(0), multiset{}, {}));
    forall n ensures Count(Outstanding(t.log), Mine(t.clients[c], c, n)) == Held(t.clients[c], n) {
      NoEventsNoneOutstanding(s, c, Mine(t.clients[c], c, n));
    }
    SettledStep(s, t);
  }

  lemma NoEventsNoneOutstanding(s: Sys, c: nat, r: Reservation)
    requires LogOk(s) && c !in s.clients && r.client == c
    ensures Count(Outstanding(s.log), r) == 0
  {
    forall k | 0 <= k < |s.log| ensures s.log[k].client != c {
      assert EventOk(s, s.log[k]);
    }
    StrangerHoldsNothing(s.log, r);
  }

  lemma {:induction false} StrangerHoldsNothing(log: seq<Event>, r: Reservation)
    requires WellFormed(log)
    requires forall k :: 0 <= k < |log| ==> log[k].client != r.client
    ensures Count(Outstanding(log), r) == 0
  {
    if log != [] {
      var before, e := log[..|log| - 1], log[|log| - 1];
      assert log == before + [e];
      StrangerHoldsNothing(before, r);
      OneMoreEvent(before, e, r, r.node, Pods);
    }
  }

  lemma ExpireKeepsInv(s: Sys, n: NodeName)
    requires Inv(s) && n in s.locks
    ensures Inv(s.(locks := s.locks - {n}))
  {
    SettledStep(s, s.(locks := s.locks - {n}));
  }

  // ----- steps that execute a script -----

  /** Executing one script by client c on node n, leaving it in `client`, with the
      usage, the version and the call's own account moving together. */
  ghost predicate Scripted(s: Sys, t: Sys, kind: Kind, c: nat, n: NodeName, after: NodeState, client: Client)
    requires c in s.clients && n in s.nodes
  {
    && t == Put(Record(s, kind, c, n, after), c, client)
    && client.intent == s.clients[c].intent
    && after.version == s.nodes[n].version + 1
    && (forall d :: Used(after, d) == Used(s.nodes[n], d)
                      + if kind.Reserved? then Amount(Mine(client, c, n), d) else -Amount(Mine(client, c, n), d))
    && (kind.RolledBack? ==> Held(s.clients[c], n) > 0)
    && (forall m :: Held(client, m) == Held(s.clients[c], m) + if m != n then 0 else if kind.Reserved? then 1 else -1)
  }

  ghost function EventFor(s: Sys, kind: Kind, c: nat, n: NodeName): Event
    requires c in s.clients && n in s.nodes
  {
    Event(kind, c, n, s.clients[c].intent.cpu, s.clients[c].intent.mem, s.nodes[n].version)
  }

  /** One more event explains exactly the change of its own node's record. */
  lemma EventExplains(base: NodeState, before: NodeState, after: NodeState, log: seq<Event>, e: Event, n: NodeName)
    requires Explained(base, before, log, n)
    requires e.kind.RolledBack? ==> Count(Outstanding(log), ReservationOf(e)) > 0
    requires e.node == n ==> after.version == before.version + 1
    requires e.node == n ==>
               forall d :: Used(after, d) == Used(before, d)
                             + if e.kind.Reserved? then Amount(ReservationOf(e), d) else -Amount(ReservationOf(e), d)
    requires e.node != n ==> after == before
    ensures Explained(base, after, log + [e], n)
  {
    Last(log, e);
    forall d ensures Used(after, d) == Used(base, d) + Load(Outstanding(log + [e]), n, d) {
      OneMoreEvent(log, e, ReservationOf(e), n, d);
    }
  }

  lemma ScriptKeepsNode(s: Sys, t: Sys, kind: Kind, c: nat, n: NodeName, after: NodeState, client: Client, m: NodeName)
    requires c in s.clients && n in s.nodes && Scripted(s, t, kind, c, n, after, client)
    requires m in s.nodes && m in s.base && NodeOk(s, m)
    requires kind.RolledBack? ==> Count(Outstanding(s.log), Mine(s.clients[c], c, n)) > 0
    ensures m in t.nodes && m in t.base && NodeOk(t, m)
  {
    var e := EventFor(s, kind, c, n);
    assert ReservationOf(e) == Mine(client, c, n);
    EventExplains(s.base[m], s.nodes[m], if m == n then after else s.nodes[m], s.log, e, m);
  }

  lemma ScriptKeepsAccounts(s: Sys, t: Sys, kind: Kind, c: nat, n: NodeName, after: NodeState, client: Client)
    requires c in s.clients && n in s.nodes && Scripted(s, t, kind, c, n, after, client)
    requires forall d :: d in s.clients ==> Accounted(s, d)
    ensures forall d :: d in t.clients ==> Accounted(t, d)
  {
    var e := EventFor(s, kind, c, n);
    assert ReservationOf(e) == Mine(s.clients[c], c, n);
    assert Accounted(s, c);
    forall d | d in t.clients ensures Accounted(t, d) {
      assert Accounted(s, d);
      forall m ensures Count(Outstanding(t.log), Mine(t.clients[d], d, m)) == Held(t.clients[d], m) {
        assert Mine(t.clients[d], d, m) == Mine(s.clients[d], d, m);
        OneMoreEvent(s.log, e, Mine(s.clients[d], d, m), m, Pods);
      }
    }
  }

  /** The other calls still know what they knew, and every lock still has its owner. */
  lemma ScriptKeepsClients(s: Sys, t: Sys, kind: Kind, c: nat, n: NodeName, after: NodeState, client: Client)
    requires c in s.clients && n in s.nodes && Scripted(s, t, kind, c, n, after, client)
    requires forall d :: d in s.clients ==> ClientOk(s, d)
    requires LocksOk(s)
    requires ClientOk(t, c)
    requires forall m, u :: m in s.locks && Owns(s.clients[c], m, u) ==> Owns(client, m, u)
    ensures forall d :: d in t.clients ==> ClientOk(t, d)
    ensures LocksOk(t)
  {
    forall d | d in t.clients ensures ClientOk(t, d) {
      if d != c {
        assert ClientOk(s, d);
      }
    }
    forall m | m in t.locks ensures LockOk(t, m) {
      assert LockOk(s, m);
    }
  }

  lemma ScriptKeepsLog(s: Sys, t: Sys, e: Event)
    requires LogOk(s) && NodesOk(s) && e.node in s.nodes && e.version == s.nodes[e.node].version
    requires t.log == s.log + [e] && t.base == s.base
    requires forall d :: d in s.clients ==> d in t.clients && t.clients[d].intent == s.clients[d].intent
    requires EventOk(t, e) && 0 <= e.cpu && 0 <= e.mem
    requires e.kind.RolledBack? ==> Count(Outstanding(s.log), ReservationOf(e)) > 0
    ensures LogOk(t)
  {
    Last(s.log, e);
    assert NodeOk(s, e.node);
    forall k: nat | k < |t.log| ensures VersionedAt(t.log, t.base, k) {
      if k < |s.log| {
        assert VersionedAt(s.log, s.base, k);
      }
      assert t.log[..k] == if k < |s.log| then s.log[..k] else s.log;
    }
    forall k | 0 <= k < |t.log| ensures EventOk(t, t.log[k]) {
      if k < |s.log| {
        assert EventOk(s, s.log[k]);
      }
    }
  }

  lemma {:induction false} ScriptStep(s: Sys, t: Sys, kind: Kind, c: nat, n: NodeName, after: NodeState, client: Client)
    requires Inv(s) && c in s.clients && n in s.nodes && Scripted(s, t, kind, c, n, after, client)
    requires ClientOk(t, c)
    requires forall m, u :: m in s.locks && Owns(s.clients[c], m, u) ==> Owns(client, m, u)
    ensures Inv(t)
  {
    assert Accounted(s, c);
    assert Count(Outstanding(s.log), Mine(s.clients[c], c, n)) == Held(s.clients[c], n);
    forall m | m in t.nodes ensures NodeOk(t, m) {
      ScriptKeepsNode(s, t, kind, c, n, after, client, m);
    }
    ScriptKeepsAccounts(s, t, kind, c, n, after, client);
    ScriptKeepsClients(s, t, kind, c, n, after, client);
    assert ClientOk(s, c);
    ScriptKeepsLog(s, t, EventFor(s, kind, c, n));
  }

  lemma ReserveIsScripted(s: Sys, c: nat, reply: Reply)
    requires Ready(s, c) && s.clients[c].pc.Fetched? && ClientOk(s, c)
    requires !reply.RequestLost? && ReserveOutcome(s, c).Ok?
    ensures var t := DoReserve(s, c, reply);
            var n := NodeOf(s.clients[c]);
            && n in s.nodes && c in t.clients
            && Scripted(s, t, Reserved, c, n, ReserveOutcome(s, c).value, t.clients[c])
            && ClientOk(t, c)
            && forall m, u :: m in s.locks && Owns(s.clients[c], m, u) ==> Owns(t.clients[c], m, u)
  {
  }

  lemma ReserveKeepsInv(s: Sys, c: nat, reply: Reply)
    requires Inv(s) && Ready(s, c) && s.clients[c].pc.Fetched?
    ensures Inv(DoReserve(s, c, reply))
  {
    var t := DoReserve(s, c, reply);
    assert ClientOk(s, c);
    if reply.RequestLost? || ReserveOutcome(s, c).Err? {
      FailedReserveIsQuiet(s, c, reply);
      QuietStep(s, t, c);
    } else {
      ReserveIsScripted(s, c, reply);
      ScriptStep(s, t, Reserved, c, NodeOf(s.clients[c]), ReserveOutcome(s, c).value, t.clients[c]);
    }
  }

  /** A client that rolls back has its reservation outstanding, so the record covers
      it and none of the script's three clamps fires. */
  lemma RollbackIsExact(s: Sys, c: nat)
    requires Inv(s) && c in s.clients && s.clients[c].pc.RollingBack?
    ensures HasNode(s.clients[c]) && NodeOf(s.clients[c]) in s.nodes
    ensures var client := s.clients[c];
            var node := s.nodes[NodeOf(client)];
            && client.intent.cpu <= node.cpuUsed && client.intent.mem <= node.memUsed && 1 <= node.podsUsed
  {
    assert ClientOk(s, c) && Accounted(s, c);
    var client := s.clients[c];
    var n := NodeOf(client);
    var node := s.nodes[n];
    assert NodeOk(s, n);
    assert Held(client, n) > 0;
    OutstandingNonNegative(s.log);
    forall d ensures Amount(Mine(client, c, n), d) <= Used(node, d) {
      LoadCovers(Outstanding(s.log), Mine(client, c, n), n, d);
    }
    assert Amount(Mine(client, c, n), Cpu) <= Used(node, Cpu);
    assert Amount(Mine(client, c, n), Memory) <= Used(node, Memory);
    assert Amount(Mine(client, c, n), Pods) <= Used(node, Pods);
  }

  lemma RollbackIsScripted(s: Sys, c: nat, reply: Reply)
    requires Ready(s, c) && s.clients[c].pc.RollingBack? && ClientOk(s, c) && !reply.RequestLost?
    requires var client := s.clients[c];
             && NodeOf(client) in s.nodes
             && client.intent.cpu <= s.nodes[NodeOf(client)].cpuUsed
             && client.intent.mem <= s.nodes[NodeOf(client)].memUsed
             && 1 <= s.nodes[NodeOf(client)].podsUsed
    ensures var t := DoRollback(s, c, reply);
            var client := s.clients[c];
            var n := NodeOf(client);
            && c in t.clients
            && Scripted(s, t, RolledBack, c, n, RollbackRecord(s.nodes[n], client.intent.cpu, client.intent.mem), t.clients[c])
            && ClientOk(t, c)
            && forall m, u :: m in s.locks && Owns(s.clients[c], m, u) ==> Owns(t.clients[c], m, u)
  {
  }

  lemma RollbackKeepsInv(s: Sys, c: nat, reply: Reply)
    requires Inv(s) && Ready(s, c) && s.clients[c].pc.RollingBack?
    ensures Inv(DoRollback(s, c, reply))
  {
    var t := DoRollback(s, c, reply);
    assert ClientOk(s, c);
    if reply.RequestLost? {
      LostRollbackIsQuiet(s, c);
      QuietStep(s, t, c);
    } else {
      RollbackIsExact(s, c);
      RollbackIsScripted(s, c, reply);
      var client := s.clients[c];
      var n := NodeOf(client);
      ScriptStep(s, t, RolledBack, c, n, RollbackRecord(s.nodes[n], client.intent.cpu, client.intent.mem), t.clients[c]);
    }
  }

  // ----- syncs -----

  lemma SyncReadKeepsSyncs(s: Sys, k: nat, api: KubeNode, reply: Reply)
    requires SyncsOk(s) && k !in s.syncs
    ensures SyncsOk(DoSyncRead(s, k, api, reply))
  {
  }

  lemma SyncReadKeepsInv(s: Sys, k: nat, api: KubeNode, reply: Reply)
    requires Inv(s) && k !in s.syncs
    ensures Inv(DoSyncRead(s, k, api, reply))
  {
    SyncReadKeepsSyncs(s, k, api, reply);
    var t := s.(syncs := DoSyncRead(s, k, api, reply).syncs);
    SettledStep(s, t);
  }

  lemma NothingOnUnknownNode(s: Sys, n: NodeName)
    requires LogOk(s) && n !in s.base
    ensures EventsOn(s.log, n) == 0 && forall d :: Load(Outstanding(s.log), n, d) == 0
  {
    forall k: nat | k < |s.log| ensures s.log[k].node != n {
      assert VersionedAt(s.log, s.base, k);
    }
    forall d ensures EventsOn(s.log, n) == 0 && Load(Outstanding(s.log), n, d) == 0 {
      NoEventsNoLoad(s.log, n, d);
    }
    NoEventsNoLoad(s.log, n, Pods);
  }

  lemma {:induction false} NoEventsNoLoad(log: seq<Event>, n: NodeName, d: Resource)
    requires WellFormed(log)
    requires forall k :: 0 <= k < |log| ==> log[k].node != n
    ensures EventsOn(log, n) == 0 && Load(Outstanding(log), n, d) == 0
  {
    if log != [] {
      var before, e := log[..|log| - 1], log[|log| - 1];
      assert log == before + [e];
      NoEventsNoLoad(before, n, d);
      OneMoreEvent(before, e, ReservationOf(e), n, d);
    }
  }

  lemma SyncMergeContinues(s: Sys, k: nat, reply: Reply)
    requires k in s.syncs && s.nodes.Keys == s.base.Keys
    ensures var t := DoSyncMerge(s, k, reply);
            && Continues(s, t)
            && t.nodes.Keys == t.base.Keys
            && forall n :: n in t.nodes && n !in s.nodes ==> n == s.syncs[k].name && t.nodes[n] == s.syncs[k] && t.base[n] == s.syncs[k]
  {
  }

  lemma NewRecordOk(s: Sys, n: NodeName)
    requires n in s.nodes && n in s.base && s.nodes[n] == s.base[n]
    requires (forall d :: Used(s.nodes[n], d) == 0)
    requires EventsOn(s.log, n) == 0 && forall d :: Load(Outstanding(s.log), n, d) == 0
    ensures NodeOk(s, n)
  {
  }

  lemma SyncMergeKeepsSyncs(s: Sys, k: nat, reply: Reply)
    requires k in s.syncs && SyncsOk(s)
    ensures SyncsOk(DoSyncMerge(s, k, reply))
  {
  }

  lemma SyncMergeKeepsInv(s: Sys, k: nat, reply: Reply)
    requires Inv(s) && k in s.syncs
    ensures Inv(DoSyncMerge(s, k, reply))
  {
    var t := DoSyncMerge(s, k, reply);
    SyncMergeContinues(s, k, reply);
    SyncMergeKeepsSyncs(s, k, reply);
    forall n | n in t.nodes && n !in s.nodes ensures NodeOk(t, n) {
      NothingOnUnknownNode(s, n);
      NewRecordOk(t, n);
    }
    SettledStep(s, t);
  }

  // ----- all steps, all runs -----

  lemma InitEstablishesInv(s: Sys)
    requires Init(s)
    ensures Inv(s)
  {
  }

  lemma TryLockKeepsInv(s: Sys, c: nat, reply: Reply)
    requires Inv(s) && Ready(s, c) && s.clients[c].pc.Trying?
    ensures Inv(DoTryLock(s, c, reply))
  {
    TryLockIsQuiet(s, c, reply);
    TryLockKeepsLocks(s, c, reply);
    QuietStep(s, DoTryLock(s, c, reply), c);
  }

  lemma FetchKeepsInv(s: Sys, c: nat, reply: Reply)
    requires Inv(s) && Ready(s, c) && s.clients[c].pc.Locked?
    ensures Inv(DoFetch(s, c, reply))
  {
    FetchIsQuiet(s, c, reply);
    FetchKeepsLocks(s, c, reply);
    QuietStep(s, DoFetch(s, c, reply), c);
  }

  lemma UnlockKeepsInv(s: Sys, c: nat, reply: Reply)
    requires Inv(s) && Ready(s, c) && (s.clients[c].pc.Releasing? || s.clients[c].pc.Reserving?)
    ensures Inv(DoUnlock(s, c, reply))
  {
    UnlockIsQuiet(s, c, reply);
    UnlockKeepsLocks(s, c, reply);
    QuietStep(s, DoUnlock(s, c, reply), c);
  }

  lemma ConcludeKeepsInv(s: Sys, c: nat, bind: BindReply)
    requires Inv(s) && Ready(s, c) && s.clients[c].pc.Unlocked?
    ensures Inv(DoConclude(s, c, bind))
  {
    ConcludeIsQuiet(s, c, bind);
    QuietStep(s, DoConclude(s, c, bind), c);
  }

  lemma StepKeepsInv(s: Sys, l: Step)
    requires Inv(s)
    ensures Inv(Apply(s, l))
  {
    if Enabled(s, l) {
      match l
      case Arrive(c, intent, scored, kube) => ArriveKeepsInv(s, c, intent, scored, kube);
      case TryLock(c, reply) => TryLockKeepsInv(s, c, reply);
      case Fetch(c, reply) => FetchKeepsInv(s, c, reply);
      case Reserve(c, reply) => ReserveKeepsInv(s, c, reply);
      case Unlock(c, reply) => UnlockKeepsInv(s, c, reply);
      case Conclude(c, bind) => ConcludeKeepsInv(s, c, bind);
      case Rollback(c, reply) => RollbackKeepsInv(s, c, reply);
      case Expire(n) => ExpireKeepsInv(s, n);
      case SyncRead(k, api, reply) => SyncReadKeepsInv(s, k, api, reply);
      case SyncMerge(k, reply) => SyncMergeKeepsInv(s, k, reply);
    }
  }

  lemma {:induction false} RunKeepsInv(s: Sys, steps: seq<Step>)
    requires Inv(s)
    ensures Inv(Run(s, steps))
  {
    if steps != [] {
      RunKeepsInv(s, steps[..|steps| - 1]);
      StepKeepsInv(Run(s, steps[..|steps| - 1]), steps[|steps| - 1]);
    }
  }
}
