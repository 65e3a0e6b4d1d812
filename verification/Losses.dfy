/** What lost messages leave behind, exactly: which steps of a run leak a reservation or
    leave a lock in place, and that nothing else does. */
module Losses {
  import opened Wrappers
  import opened NodeModel
  import opened SchedulerRepo
  import opened Ledger
  import opened Protocol
  import opened Invariant
  import opened Safety

  // ----- leaked reservations -----

  /** The step makes call c forget a reservation on node n: its rollback never arrives, or
      its reserve takes effect and the reply is lost. */
  predicate Leaks(s: Sys, l: Step, c: nat, n: NodeName) {
    && (l == Rollback(c, RequestLost) || l == Reserve(c, ReplyLost))
    && Enabled(s, l) && NodeOf(s.clients[c]) == n
    && (l.Reserve? ==> ReserveOutcome(s, c).Ok?)
  }

  function Leaked(s0: Sys, steps: seq<Step>, c: nat, n: NodeName): nat {
    if steps == [] then 0
    else
      var rest := steps[..|steps| - 1];
      Leaked(s0, rest, c, n) + if Leaks(Run(s0, rest), steps[|steps| - 1], c, n) then 1 else 0
  }

  function LeakedBy(s: Sys, c: nat, n: NodeName): nat {
    if c in s.clients then s.clients[c].leaked[n] else 0
  }

  lemma LeakOfReserve(s: Sys, c: nat, reply: Reply, n: NodeName)
    ensures LeakedBy(Apply(s, Reserve(c, reply)), c, n)
         == LeakedBy(s, c, n) + if Leaks(s, Reserve(c, reply), c, n) then 1 else 0
  {
  }

  lemma LeakOfRollback(s: Sys, c: nat, reply: Reply, n: NodeName)
    ensures LeakedBy(Apply(s, Rollback(c, reply)), c, n)
         == LeakedBy(s, c, n) + if Leaks(s, Rollback(c, reply), c, n) then 1 else 0
  {
  }

  lemma NoLeakOfLocking(s: Sys, l: Step, c: nat, n: NodeName)
    requires (l.Arrive? || l.TryLock? || l.Unlock?) && Mover(l) == Some(c)
    ensures LeakedBy(Apply(s, l), c, n) == LeakedBy(s, c, n)
  {
  }

  lemma NoLeakOfChecks(s: Sys, l: Step, c: nat, n: NodeName)
    requires (l.Fetch? || l.Conclude?) && Mover(l) == Some(c)
    ensures LeakedBy(Apply(s, l), c, n) == LeakedBy(s, c, n)
  {
  }

  lemma LeakOfStep(s: Sys, l: Step, c: nat, n: NodeName)
    ensures LeakedBy(Apply(s, l), c, n) == LeakedBy(s, c, n) + if Leaks(s, l, c, n) then 1 else 0
  {
    if Mover(l) != Some(c) {
      OthersUntouched(s, l, c);
    } else if l.Reserve? {
      LeakOfReserve(s, c, l.reply, n);
    } else if l.Rollback? {
      LeakOfRollback(s, c, l.reply, n);
    } else if l.Fetch? || l.Conclude? {
      NoLeakOfChecks(s, l, c, n);
    } else {
      NoLeakOfLocking(s, l, c, n);
    }
  }

  /** What a call has leaked on a node is the number of steps that leak there. */
  lemma {:induction false} LeakedExactly(s0: Sys, steps: seq<Step>, c: nat, n: NodeName)
    requires Init(s0)
    ensures LeakedBy(Run(s0, steps), c, n) == Leaked(s0, steps, c, n)
  {
    if steps != [] {
      LeakedExactly(s0, steps[..|steps| - 1], c, n);
      LeakOfStep(Run(s0, steps[..|steps| - 1]), steps[|steps| - 1], c, n);
    }
  }

  /** A finished call has, on each node, one outstanding reservation for every leaking step
      there, and one more on the node it bound. */
  lemma FinishedCallExact(s0: Sys, steps: seq<Step>, c: nat, n: NodeName)
    requires Init(s0)
    requires var s := Run(s0, steps); c in s.clients && Finished(s.clients[c])
    ensures var s := Run(s0, steps);
            var client := s.clients[c];
            Count(Outstanding(s.log), Mine(client, c, n))
            == Leaked(s0, steps, c, n) + if client.pc.Bound? && HasNode(client) && NodeOf(client) == n then 1 else 0
  {
    FinishedCallAccount(s0, steps, c, n);
    LeakedExactly(s0, steps, c, n);
  }

  predicate LeaksAt(s0: Sys, steps: seq<Step>, k: nat, c: nat, n: NodeName)
    requires k < |steps|
  {
    Leaks(Run(s0, steps[..k]), steps[k], c, n)
  }

  lemma LeaksAtOfPrefix(s0: Sys, steps: seq<Step>, k: nat, c: nat, n: NodeName)
    requires k < |steps| - 1
    ensures LeaksAt(s0, steps, k, c, n) <==> LeaksAt(s0, steps[..|steps| - 1], k, c, n)
  {
    assert steps[..|steps| - 1][..k] == steps[..k];
  }

  lemma {:induction false} LeakedIsZero(s0: Sys, steps: seq<Step>, c: nat, n: NodeName)
    ensures Leaked(s0, steps, c, n) == 0 <==> forall k: nat :: k < |steps| ==> !LeaksAt(s0, steps, k, c, n)
  {
    if steps != [] {
      var rest := steps[..|steps| - 1];
      LeakedIsZero(s0, rest, c, n);
      forall k: nat | k < |rest| ensures LeaksAt(s0, steps, k, c, n) <==> LeaksAt(s0, rest, k, c, n) {
        LeaksAtOfPrefix(s0, steps, k, c, n);
      }
      assert LeaksAt(s0, steps, |rest|, c, n) <==> Leaks(Run(s0, rest), steps[|rest|], c, n);
    }
  }

  /** A finished call holds on a node what it should, one reservation where it bound and
      none elsewhere, if and only if no step of the run leaks there. */
  lemma HoldsAsItShould(s0: Sys, steps: seq<Step>, c: nat, n: NodeName)
    requires Init(s0)
    requires var s := Run(s0, steps); c in s.clients && Finished(s.clients[c])
    ensures var s := Run(s0, steps);
            var client := s.clients[c];
            Count(Outstanding(s.log), Mine(client, c, n)) == (if client.pc.Bound? && HasNode(client) && NodeOf(client) == n then 1 else 0)
            <==> forall k: nat :: k < |steps| ==> !LeaksAt(s0, steps, k, c, n)
  {
    FinishedCallExact(s0, steps, c, n);
    LeakedIsZero(s0, steps, c, n);
  }

  // ----- locks left behind -----

  /** The lock on node n carries a UUID that call c drew and is not about to release. */
  predicate Orphaned(s: Sys, c: nat, n: NodeName, uuid: nat) {
    && n in s.locks && s.locks[n] == uuid
    && uuid in s.owners && s.owners[uuid] == c
    && !(c in s.clients && HasLockId(s.clients[c].pc) && s.clients[c].pc.uuid == uuid)
  }

  /** The step makes call c leave a lock with this UUID on node n: it takes the free lock and
      the reply is lost, or the lock is its own and the request to release it is lost. */
  predicate Orphans(s: Sys, l: Step, c: nat, n: NodeName, uuid: nat) {
    && (l == TryLock(c, ReplyLost) || l == Unlock(c, RequestLost))
    && Enabled(s, l) && NodeOf(s.clients[c]) == n
    && (if l.TryLock? then n !in s.locks && uuid == s.nextUuid
        else n in s.locks && s.locks[n] == uuid && uuid == s.clients[c].pc.uuid)
  }

  /** Some step of the run left the lock, and it has not expired since. */
  predicate LeftInPlace(s0: Sys, steps: seq<Step>, c: nat, n: NodeName, uuid: nat) {
    steps != [] &&
      var rest, l := steps[..|steps| - 1], steps[|steps| - 1];
      Orphans(Run(s0, rest), l, c, n, uuid) || (LeftInPlace(s0, rest, c, n, uuid) && l != Expire(n))
  }

  /** A UUID the call is about to release is not one it has lost track of. */
  ghost predicate Tracked(s: Sys, c: nat) {
    c in s.clients && HasLockId(s.clients[c].pc) ==> s.clients[c].pc.uuid !in s.clients[c].strays
  }

  lemma LockingKeepsTracked(s: Sys, l: Step, c: nat)
    requires Inv(s) && Tracked(s, c) && (l.Arrive? || l.TryLock? || l.Unlock?) && Mover(l) == Some(c)
    ensures Tracked(Apply(s, l), c)
  {
    if c in s.clients {
      assert OwnsIds(s, c);
    }
  }

  lemma ChecksKeepTracked(s: Sys, l: Step, c: nat)
    requires Tracked(s, c) && (l.Fetch? || l.Conclude?) && Mover(l) == Some(c)
    ensures Tracked(Apply(s, l), c)
  {
  }

  lemma ScriptsKeepTracked(s: Sys, l: Step, c: nat)
    requires Tracked(s, c) && (l.Reserve? || l.Rollback?) && Mover(l) == Some(c)
    ensures Tracked(Apply(s, l), c)
  {
  }

  lemma {:induction false} RunKeepsTracked(s0: Sys, steps: seq<Step>, c: nat)
    requires Init(s0)
    ensures Tracked(Run(s0, steps), c)
  {
    if steps != [] {
      var rest, l := steps[..|steps| - 1], steps[|steps| - 1];
      RunKeepsTracked(s0, rest, c);
      ReachableInv(s0, rest);
      var s := Run(s0, rest);
      if Mover(l) != Some(c) {
        OthersUntouched(s, l, c);
      } else if l.Fetch? || l.Conclude? {
        ChecksKeepTracked(s, l, c);
      } else if l.Reserve? || l.Rollback? {
        ScriptsKeepTracked(s, l, c);
      } else {
        LockingKeepsTracked(s, l, c);
      }
    }
  }

  ghost predicate OrphanStep(s: Sys, l: Step, c: nat, n: NodeName, uuid: nat) {
    Orphaned(Apply(s, l), c, n, uuid) <==> Orphans(s, l, c, n, uuid) || (Orphaned(s, c, n, uuid) && l != Expire(n))
  }

  lemma OwnTryLock(s: Sys, c: nat, reply: Reply, n: NodeName, uuid: nat)
    requires LocksOk(s) && Ready(s, c) && s.clients[c].pc.Trying?
    ensures OrphanStep(s, TryLock(c, reply), c, n, uuid)
  {
    assert n in s.locks ==> LockOk(s, n);
    var t := Apply(s, TryLock(c, reply));
    assert t == DoTryLock(s, c, reply);
    if n != NodeOf(s.clients[c]) {
      assert n in t.locks <==> n in s.locks;
    }
  }

  lemma OwnUnlock(s: Sys, c: nat, reply: Reply, n: NodeName, uuid: nat)
    requires n in s.locks ==> LockOk(s, n)
    requires Tracked(s, c) && Ready(s, c) && (s.clients[c].pc.Releasing? || s.clients[c].pc.Reserving?) && OwnsIds(s, c)
    ensures OrphanStep(s, Unlock(c, reply), c, n, uuid)
  {
    assert Apply(s, Unlock(c, reply)) == DoUnlock(s, c, reply);
  }

  /** Whoever else takes or releases a lock, one of call c stays. */
  lemma OthersTryLock(s: Sys, d: nat, reply: Reply, c: nat, n: NodeName, uuid: nat)
    requires LocksOk(s) && Ready(s, d) && s.clients[d].pc.Trying? && d != c
    ensures OrphanStep(s, TryLock(d, reply), c, n, uuid)
  {
    assert Apply(s, TryLock(d, reply)) == DoTryLock(s, d, reply);
    assert n in s.locks ==> LockOk(s, n);
  }

  lemma OthersUnlock(s: Sys, d: nat, reply: Reply, c: nat, n: NodeName, uuid: nat)
    requires Ready(s, d) && (s.clients[d].pc.Releasing? || s.clients[d].pc.Reserving?) && d != c && OwnsIds(s, d)
    ensures OrphanStep(s, Unlock(d, reply), c, n, uuid)
  {
    assert Apply(s, Unlock(d, reply)) == DoUnlock(s, d, reply);
  }

  lemma ArriveOrphansNothing(s: Sys, l: Step, c: nat, n: NodeName, uuid: nat)
    requires l.Arrive? && (n in s.locks ==> LockOk(s, n))
    ensures OrphanStep(s, l, c, n, uuid)
  {
  }

  lemma ExpiryEndsIt(s: Sys, m: NodeName, c: nat, n: NodeName, uuid: nat)
    ensures OrphanStep(s, Expire(m), c, n, uuid)
  {
  }

  /** No lock, owner or lock id of the call changes. */
  ghost predicate SameLocks(s: Sys, t: Sys, c: nat) {
    && t.locks == s.locks && t.owners == s.owners
    && (c in s.clients <==> c in t.clients)
    && (c in s.clients ==> SameLockId(s.clients[c].pc, t.clients[c].pc))
  }

  predicate SameLockId(pc: Pc, after: Pc) {
    && (HasLockId(pc) <==> HasLockId(after))
    && (HasLockId(pc) ==> pc.uuid == after.uuid)
  }

  lemma SameLocksOrphan(s: Sys, l: Step, c: nat, n: NodeName, uuid: nat)
    requires SameLocks(s, Apply(s, l), c) && !l.TryLock? && !l.Unlock? && !l.Expire?
    ensures OrphanStep(s, l, c, n, uuid)
  {
  }

  lemma FetchKeepsLockId(s: Sys, c: nat, reply: Reply, d: nat)
    requires Ready(s, c) && s.clients[c].pc.Locked?
    ensures SameLocks(s, DoFetch(s, c, reply), d)
  {
  }

  lemma PassingKeepsLockId(s: Sys, c: nat, pc: Pc, d: nat)
    requires c in s.clients && s.clients[c].pc.Unlocked? && (pc.Bound? || pc.RollingBack?)
    ensures SameLocks(s, Put(s, c, s.clients[c].(pc := pc)), d)
  {
  }

  lemma ConcludeKeepsLockId(s: Sys, c: nat, bind: BindReply, d: nat)
    requires Ready(s, c) && s.clients[c].pc.Unlocked?
    ensures SameLocks(s, DoConclude(s, c, bind), d)
  {
    PassingKeepsLockId(s, c, Bound(s.clients[c].pc.i), d);
    PassingKeepsLockId(s, c, RollingBack(s.clients[c].pc.i), d);
  }

  lemma ReserveKeepsLockId(s: Sys, c: nat, reply: Reply, d: nat)
    requires Ready(s, c) && s.clients[c].pc.Fetched?
    ensures SameLocks(s, DoReserve(s, c, reply), d)
  {
  }

  lemma RollbackKeepsLockId(s: Sys, c: nat, reply: Reply, d: nat)
    requires Ready(s, c) && s.clients[c].pc.RollingBack?
    ensures SameLocks(s, DoRollback(s, c, reply), d)
  {
  }

  lemma SyncsKeepLockIds(s: Sys, l: Step, d: nat)
    requires l.SyncRead? || l.SyncMerge?
    ensures SameLocks(s, Apply(s, l), d)
  {
  }

  lemma OrphansOfLocking(s: Sys, l: Step, c: nat, n: NodeName, uuid: nat)
    requires LocksOk(s) && Tracked(s, c) && (l.TryLock? || l.Unlock?) && Enabled(s, l) && OwnsIds(s, l.c)
    ensures OrphanStep(s, l, c, n, uuid)
  {
    if l.TryLock? {
      if l.c == c { OwnTryLock(s, c, l.reply, n, uuid); } else { OthersTryLock(s, l.c, l.reply, c, n, uuid); }
    } else {
      if l.c == c { OwnUnlock(s, c, l.reply, n, uuid); } else { OthersUnlock(s, l.c, l.reply, c, n, uuid); }
    }
  }

  lemma OtherStepsKeepLocks(s: Sys, l: Step, d: nat)
    requires Enabled(s, l) && (l.Fetch? || l.Conclude? || l.Reserve? || l.Rollback? || l.SyncRead? || l.SyncMerge?)
    ensures SameLocks(s, Apply(s, l), d)
  {
    match l
    case Fetch(c, reply) => FetchKeepsLockId(s, c, reply, d);
    case Conclude(c, bind) => ConcludeKeepsLockId(s, c, bind, d);
    case Reserve(c, reply) => ReserveKeepsLockId(s, c, reply, d);
    case Rollback(c, reply) => RollbackKeepsLockId(s, c, reply, d);
    case SyncRead(_, _, _) => SyncsKeepLockIds(s, l, d);
    case SyncMerge(_, _) => SyncsKeepLockIds(s, l, d);
  }

  lemma OrphansOfStep(s: Sys, l: Step, c: nat, n: NodeName, uuid: nat)
    requires LocksOk(s) && Tracked(s, c) && forall d :: d in s.clients ==> OwnsIds(s, d)
    ensures OrphanStep(s, l, c, n, uuid)
  {
    if l.Expire? {
      ExpiryEndsIt(s, l.node, c, n, uuid);
    } else if Enabled(s, l) {
      if l.TryLock? || l.Unlock? {
        OrphansOfLocking(s, l, c, n, uuid);
      } else if l.Arrive? {
        ArriveOrphansNothing(s, l, c, n, uuid);
      } else {
        OtherStepsKeepLocks(s, l, c);
        SameLocksOrphan(s, l, c, n, uuid);
      }
    }
  }

  /** At every moment of every run, a node is locked with a UUID of the call that the call is
      not about to release if and only if one of its steps left that lock, by a lost lock
      reply or a lost unlock request, and it has not expired since. */
  lemma {:induction false} OrphanedExactly(s0: Sys, steps: seq<Step>, c: nat, n: NodeName, uuid: nat)
    requires Init(s0)
    ensures Orphaned(Run(s0, steps), c, n, uuid) <==> LeftInPlace(s0, steps, c, n, uuid)
  {
    if steps != [] {
      var rest, l := steps[..|steps| - 1], steps[|steps| - 1];
      OrphanedExactly(s0, rest, c, n, uuid);
      ReachableInv(s0, rest);
      RunKeepsTracked(s0, rest, c);
      assert forall d :: d in Run(s0, rest).clients ==> ClientOk(Run(s0, rest), d);
      OrphansOfStep(Run(s0, rest), l, c, n, uuid);
    }
  }

  // ----- a run in which both happen -----

  function Unlucky(intent: PodIntent, node: ScoredNode): seq<Step> {
    [Arrive(0, intent, [node], []), TryLock(0, Delivered), Fetch(0, Delivered), Reserve(0, ReplyLost), Unlock(0, RequestLost)]
  }

  lemma UnluckyRun(s: Sys, intent: PodIntent, node: ScoredNode)
    ensures Run(s, Unlucky(intent, node))
         == Apply(Apply(Apply(Apply(Apply(s, Arrive(0, intent, [node], [])), TryLock(0, Delivered)), Fetch(0, Delivered)),
                        Reserve(0, ReplyLost)), Unlock(0, RequestLost))
  {
    var a := Unlucky(intent, node);
    assert a[..4][..3] == a[..3] && a[..3][..2] == a[..2] && a[..2][..1] == a[..1] && a[..1][..0] == [];
    assert Run(s, a[..1]) == Apply(s, a[0]);
    assert Run(s, a[..2]) == Apply(Run(s, a[..1]), a[1]);
    assert Run(s, a[..3]) == Apply(Run(s, a[..2]), a[2]);
    assert Run(s, a[..4]) == Apply(Run(s, a[..3]), a[3]);
  }

  lemma ReplyLostEffect(s: Sys, c: nat)
    requires Ready(s, c) && s.clients[c].pc.Fetched? && ReserveOutcome(s, c).Ok?
    ensures var client := s.clients[c];
            var t := Apply(Apply(s, Reserve(c, ReplyLost)), Unlock(c, RequestLost));
            && c in t.clients && t.locks == s.locks
            && t.clients[c] == client.(pc := Trying(client.pc.i + 1), leaked := client.leaked + multiset{NodeOf(client)},
                                       strays := client.strays + {client.pc.uuid})
  {
    var s1 := Apply(s, Reserve(c, ReplyLost));
    assert s1.clients[c].pc == Releasing(s.clients[c].pc.i, s.clients[c].pc.uuid);
  }

  lemma StrayIsOrphaned(s0: Sys, steps: seq<Step>, c: nat, n: NodeName)
    requires Init(s0)
    requires var s := Run(s0, steps);
             c in s.clients && !HasLockId(s.clients[c].pc) && n in s.locks && s.locks[n] in s.clients[c].strays
    ensures var s := Run(s0, steps); n in s.locks && Orphaned(s, c, n, s.locks[n])
  {
    ReachableInv(s0, steps);
    assert OwnsIds(Run(s0, steps), c);
  }

  /** Both losses do happen: on any node whose record admits the pod, one call whose reserve
      reply and unlock request are lost ends without having bound anything, with a
      reservation outstanding and with the node still locked. */
  lemma LossesHappen(s0: Sys, intent: PodIntent, n: NodeName)
    requires Init(s0) && n in s0.nodes && 0 <= intent.cpu && 0 <= intent.mem
    requires CheckHardConstraints(intent, s0.nodes[n]).None?
    ensures var s := Run(s0, Unlucky(intent, ScoredNode(n, s0.nodes[n].version)));
            && 0 in s.clients && Finished(s.clients[0]) && !s.clients[0].pc.Bound?
            && Count(Outstanding(s.log), Mine(s.clients[0], 0, n)) == 1
            && n in s.locks && Orphaned(s, 0, n, s.locks[n])
  {
    var node := ScoredNode(n, s0.nodes[n].version);
    var client := Client(intent, [node], [], Trying(0), multiset{}, {});
    var s1 := Apply(s0, Arrive(0, intent, [node], []));
    assert s1 == Put(s0, 0, client);
    assert StillFits(s1, client);
    LockAndFetch(s1, 0);
    var s3 := Apply(Apply(s1, TryLock(0, Delivered)), Fetch(0, Delivered));
    FilterAgreesWithReserve(intent, s0.nodes[n], s0.nodes[n].version);
    ReplyLostEffect(s3, 0);
    UnluckyRun(s0, intent, node);
    FinishedCallAccount(s0, Unlucky(intent, node), 0, n);
    StrayIsOrphaned(s0, Unlucky(intent, node), 0, n);
  }
}
