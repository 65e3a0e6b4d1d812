/** What holds of every run of the reservation protocol. */
module Safety {
  import opened Wrappers
  import opened NodeModel
  import opened SchedulerRepo
  import opened Ledger
  import opened Protocol
  import opened Invariant

  lemma {:induction false} ReachableInv(s0: Sys, steps: seq<Step>)
    requires Init(s0)
    ensures Inv(Run(s0, steps))
  {
    InitEstablishesInv(s0);
    RunKeepsInv(s0, steps);
  }

  // ----- runs only extend the history -----

  /** What no step ever takes back. */
  ghost predicate Extends(s: Sys, t: Sys) {
    && s.log <= t.log
    && (forall n :: n in s.nodes ==> n in t.nodes)
    && (forall n :: n in s.base ==> n in t.base && t.base[n] == s.base[n])
    && (forall n :: n in t.base && n !in s.base ==> t.base[n].version == 0 && forall d :: Used(t.base[n], d) == 0)
  }

  predicate SameStore(s: Sys, t: Sys) {
    t.nodes == s.nodes && t.log == s.log && t.base == s.base
  }

  /** Fetching and concluding change nothing but the call's own state. */
  lemma ChecksAreLocal(s: Sys, l: Step)
    requires l.Fetch? || l.Conclude?
    ensures var t := Apply(s, l);
            t == s || (l.c in s.clients && l.c in t.clients && t == Put(s, l.c, t.clients[l.c]))
  {
  }

  /** Only the three scripts write records. */
  lemma OnlyScriptsWrite(s: Sys, l: Step)
    requires !l.Reserve? && !l.Rollback? && !l.SyncMerge?
    ensures SameStore(s, Apply(s, l))
  {
    if l.Fetch? || l.Conclude? {
      ChecksAreLocal(s, l);
    } else {
      match l
      case Arrive(c, intent, scored, kube) =>
      case TryLock(c, reply) =>
      case Unlock(c, reply) =>
      case Expire(n) =>
      case SyncRead(k, api, reply) =>
    }
  }

  lemma SameStoreExtends(s: Sys, t: Sys)
    requires SameStore(s, t)
    ensures Extends(s, t)
  {
  }

  lemma ReserveExtends(s: Sys, c: nat, reply: Reply)
    requires Ready(s, c) && s.clients[c].pc.Fetched?
    ensures Extends(s, DoReserve(s, c, reply))
  {
  }

  lemma RollbackExtends(s: Sys, c: nat, reply: Reply)
    requires Ready(s, c) && s.clients[c].pc.RollingBack?
    ensures Extends(s, DoRollback(s, c, reply))
  {
  }

  lemma MergeExtends(s: Sys, k: nat, reply: Reply)
    requires k in s.syncs && SyncsOk(s) && s.nodes.Keys == s.base.Keys
    ensures Extends(s, DoSyncMerge(s, k, reply))
  {
  }

  lemma {:induction false} StepExtends(s: Sys, l: Step)
    requires Inv(s)
    ensures Extends(s, Apply(s, l))
  {
    if !Enabled(s, l) {
    } else if l.Reserve? {
      ReserveExtends(s, l.c, l.reply);
    } else if l.Rollback? {
      RollbackExtends(s, l.c, l.reply);
    } else if l.SyncMerge? {
      MergeExtends(s, l.k, l.reply);
    } else {
      OnlyScriptsWrite(s, l);
      SameStoreExtends(s, Apply(s, l));
    }
  }

  lemma {:induction false} RunExtends(s: Sys, steps: seq<Step>)
    requires Inv(s)
    ensures Extends(s, Run(s, steps))
  {
    if steps != [] {
      var before := steps[..|steps| - 1];
      RunExtends(s, before);
      RunKeepsInv(s, before);
      StepExtends(Run(s, before), steps[|steps| - 1]);
    }
  }

  lemma {:induction false} RunSplits(s: Sys, steps: seq<Step>, k: nat)
    requires k <= |steps|
    ensures Run(s, steps) == Run(Run(s, steps[..k]), steps[k..])
  {
    if k < |steps| {
      var before := steps[..|steps| - 1];
      RunSplits(s, before, k);
      assert before[..k] == steps[..k];
      assert steps[k..][..|steps[k..]| - 1] == before[k..];
    } else {
      assert steps[..k] == steps;
    }
  }

  // ----- conservation -----

  /** On every run each node's usage is what it was at the start (or zero, for a node
      first written by a sync) plus the requests reserved and not rolled back, and its
      version counts the scripts executed on it. */
  lemma {:induction false} Conservation(s0: Sys, steps: seq<Step>, n: NodeName, d: Resource)
    requires Init(s0)
    requires n in Run(s0, steps).nodes
    ensures var s := Run(s0, steps);
            Used(s.nodes[n], d) == (if n in s0.nodes then Used(s0.nodes[n], d) else 0) + Load(Outstanding(s.log), n, d)
    ensures Used(Run(s0, steps).nodes[n], d) >= 0
    ensures var s := Run(s0, steps);
            s.nodes[n].version == (if n in s0.nodes then s0.nodes[n].version else 0) + EventsOn(s.log, n)
  {
    InitEstablishesInv(s0);
    ReachableInv(s0, steps);
    RunExtends(s0, steps);
    var s := Run(s0, steps);
    assert NodeOk(s, n);
    OutstandingNonNegative(s.log);
    LoadCovers(Outstanding(s.log), Reservation(0, n, 0, 0), n, d);
  }

  /** No rollback in any run is clamped: the script subtracts exactly the request. */
  lemma {:induction false} ClampsNeverFire(s0: Sys, steps: seq<Step>, c: nat)
    requires Init(s0)
    requires var s := Run(s0, steps); c in s.clients && s.clients[c].pc.RollingBack?
    ensures var s := Run(s0, steps);
            var client := s.clients[c];
            && HasNode(client) && NodeOf(client) in s.nodes
            && var node := s.nodes[NodeOf(client)];
            RollbackRecord(node, client.intent.cpu, client.intent.mem)
            == node.(cpuUsed := node.cpuUsed - client.intent.cpu, memUsed := node.memUsed - client.intent.mem,
                     podsUsed := node.podsUsed - 1, version := node.version + 1)
  {
    ReachableInv(s0, steps);
    RollbackIsExact(Run(s0, steps), c);
  }

  // ----- capacity -----

  ghost predicate AllWithinCapacity(s: Sys) {
    forall n :: n in s.nodes ==> WithinCapacity(s.nodes[n])
  }

  /** The one step that may break capacity: a sync whose patch grants a node less than
      is in use on it now. */
  ghost predicate Accommodates(s: Sys, l: Step) {
    l.SyncMerge? && l.k in s.syncs && !l.reply.RequestLost? ==>
      var patch := s.syncs[l.k];
      var now := MergeRecord(Lookup(s.nodes, patch.name), patch);
      now.cpuUsed <= patch.cpuAlloc && now.memUsed <= patch.memAlloc && now.podsUsed <= patch.podsAlloc
  }

  lemma UsageNonNegative(s: Sys, n: NodeName)
    requires Inv(s) && n in s.nodes
    ensures 0 <= s.nodes[n].cpuUsed && 0 <= s.nodes[n].memUsed && 0 <= s.nodes[n].podsUsed
  {
    assert NodeOk(s, n);
    OutstandingNonNegative(s.log);
    forall d ensures 0 <= Used(s.nodes[n], d) {
      LoadCovers(Outstanding(s.log), Reservation(0, n, 0, 0), n, d);
    }
    assert 0 <= Used(s.nodes[n], Cpu) && 0 <= Used(s.nodes[n], Memory) && 0 <= Used(s.nodes[n], Pods);
  }

  lemma ReserveKeepsCapacity(s: Sys, c: nat, reply: Reply)
    requires Ready(s, c) && s.clients[c].pc.Fetched? && ClientOk(s, c) && AllWithinCapacity(s)
    ensures AllWithinCapacity(DoReserve(s, c, reply))
  {
  }

  lemma RollbackKeepsCapacity(s: Sys, c: nat, reply: Reply)
    requires Ready(s, c) && s.clients[c].pc.RollingBack? && ClientOk(s, c) && AllWithinCapacity(s)
    ensures AllWithinCapacity(DoRollback(s, c, reply))
  {
  }

  lemma MergeKeepsCapacity(s: Sys, k: nat, reply: Reply)
    requires k in s.syncs && AllWithinCapacity(s)
    requires var n := s.syncs[k].name;
             n !in s.nodes ==> 0 <= s.syncs[k].cpuUsed && 0 <= s.syncs[k].memUsed && 0 <= s.syncs[k].podsUsed
    ensures AllWithinCapacity(DoSyncMerge(s, k, reply)) <==> Accommodates(s, SyncMerge(k, reply))
  {
    var t := DoSyncMerge(s, k, reply);
    var n := s.syncs[k].name;
    if !reply.RequestLost? {
      assert n in t.nodes && t.nodes[n] == MergeRecord(Lookup(s.nodes, n), s.syncs[k]);
      assert WithinCapacity(t.nodes[n]) <==> Accommodates(s, SyncMerge(k, reply));
    }
  }

  /** A step keeps every node within capacity exactly when it is not such a sync. */
  lemma StepKeepsCapacity(s: Sys, l: Step)
    requires Inv(s) && AllWithinCapacity(s)
    ensures AllWithinCapacity(Apply(s, l)) <==> Accommodates(s, l)
  {
    if l.SyncMerge? {
      if Enabled(s, l) {
        var n := s.syncs[l.k].name;
        assert n !in s.nodes ==> Used(s.syncs[l.k], Cpu) == Used(s.syncs[l.k], Memory) == Used(s.syncs[l.k], Pods) == 0;
        MergeKeepsCapacity(s, l.k, l.reply);
      }
    } else if l.Reserve? {
      if Enabled(s, l) {
        ReserveKeepsCapacity(s, l.c, l.reply);
      }
    } else if l.Rollback? {
      if Enabled(s, l) {
        RollbackKeepsCapacity(s, l.c, l.reply);
      }
    } else {
      OnlyScriptsWrite(s, l);
    }
  }

  ghost predicate AllAccommodate(s: Sys, steps: seq<Step>) {
    forall k: nat :: k < |steps| ==> Accommodates(Run(s, steps[..k]), steps[k])
  }

  /** Capacity safety: from records within capacity, under any interleaving, lock
      expiry and message loss, every node stays within capacity as long as no sync
      shrinks a node below its current use. */
  lemma {:induction false} CapacitySafety(s0: Sys, steps: seq<Step>)
    requires Init(s0) && AllWithinCapacity(s0)
    requires AllAccommodate(s0, steps)
    ensures AllWithinCapacity(Run(s0, steps))
  {
    if steps != [] {
      var m := |steps| - 1;
      var before := steps[..m];
      forall k: nat | k < |before| ensures Accommodates(Run(s0, before[..k]), before[k]) {
        assert before[..k] == steps[..k];
        assert Accommodates(Run(s0, steps[..k]), steps[k]);
      }
      CapacitySafety(s0, before);
      ReachableInv(s0, before);
      assert Accommodates(Run(s0, steps[..m]), steps[m]);
      StepKeepsCapacity(Run(s0, before), steps[m]);
    }
  }

  /** Even after syncs that shrink nodes, a reserve that takes effect leaves its node's
      use within the allocatable amounts of that instant. */
  lemma {:induction false} EveryReserveFits(s0: Sys, steps: seq<Step>, c: nat, reply: Reply)
    requires Init(s0)
    requires var s := Run(s0, steps);
             Enabled(s, Reserve(c, reply)) && Apply(s, Reserve(c, reply)).log != s.log
    ensures var t := Apply(Run(s0, steps), Reserve(c, reply));
            var n := NodeOf(Run(s0, steps).clients[c]);
            n in t.nodes && WithinCapacity(t.nodes[n])
  {
    var s := Run(s0, steps);
    ReachableInv(s0, steps);
    StepKeepsInv(s, Reserve(c, reply));
    UsageNonNegative(Apply(s, Reserve(c, reply)), NodeOf(s.clients[c]));
  }

  // ----- versions -----

  /** The version of a node is its first version plus the scripts executed on it, so a
      later state of the same run with an equal version has had no script in between. */
  lemma UsageIsFunctionOfVersion(s0: Sys, steps: seq<Step>, i: nat, j: nat, n: NodeName, d: Resource)
    requires Init(s0) && i <= j <= |steps|
    requires var s, t := Run(s0, steps[..i]), Run(s0, steps[..j]);
             n in s.nodes && n in t.nodes && s.nodes[n].version == t.nodes[n].version
    ensures Used(Run(s0, steps[..i]).nodes[n], d) == Used(Run(s0, steps[..j]).nodes[n], d)
  {
    ReachableInv(s0, steps[..i]);
    ReachableInv(s0, steps[..j]);
    RunSplits(s0, steps[..j], i);
    assert steps[..j][..i] == steps[..i];
    RunExtends(Run(s0, steps[..i]), steps[..j][i..]);
    SameVersionSameUsage(Run(s0, steps[..i]), Run(s0, steps[..j]), n, d);
  }

  lemma SameVersionSameUsage(s: Sys, t: Sys, n: NodeName, d: Resource)
    requires Inv(s) && Inv(t) && Extends(s, t)
    requires n in s.nodes && n in t.nodes && s.nodes[n].version == t.nodes[n].version
    ensures Used(s.nodes[n], d) == Used(t.nodes[n], d)
  {
    assert NodeOk(s, n) && NodeOk(t, n);
    assert t.log[..|s.log|] == s.log;
    SameCountSameLoad(t.log, |s.log|, n, d);
  }

  /** For each node and expected version at most one reserve ever takes effect, in all
      of a run, whoever holds or believes to hold the node's lock. */
  lemma {:induction false} OneReservePerVersion(s0: Sys, steps: seq<Step>, i: nat, j: nat)
    requires Init(s0)
    requires var log := Run(s0, steps).log;
             && i < |log| && j < |log|
             && log[i].node == log[j].node && log[i].version == log[j].version
    ensures i == j
  {
    var s := Run(s0, steps);
    ReachableInv(s0, steps);
    if i < j {
      VersionsIncrease(s.log, s.base, i, j);
    } else if j < i {
      VersionsIncrease(s.log, s.base, j, i);
    }
  }

  /** A reserve takes effect only at the version its caller re-read, and then on
      exactly the usage the caller checked: no update in between is lost. */
  lemma {:induction false} NoLostUpdate(s0: Sys, steps: seq<Step>, c: nat, reply: Reply)
    requires Init(s0)
    requires var s := Run(s0, steps);
             Enabled(s, Reserve(c, reply)) && Apply(s, Reserve(c, reply)).log != s.log
    ensures var s := Run(s0, steps);
            var t := Apply(s, Reserve(c, reply));
            var n, seen := NodeOf(s.clients[c]), s.clients[c].pc.seen;
            && n in s.nodes && SameUsage(s.nodes[n], seen)
            && |t.log| == |s.log| + 1 && t.log[|s.log|].version == seen.version
            && t.nodes[n].version == seen.version + 1
  {
    ReachableInv(s0, steps);
    assert ClientOk(Run(s0, steps), c);
  }

  /** Versions never go back. */
  lemma {:induction false} VersionMonotone(s: Sys, steps: seq<Step>, n: NodeName)
    requires Inv(s) && n in s.nodes
    ensures n in Run(s, steps).nodes && s.nodes[n].version <= Run(s, steps).nodes[n].version
  {
    var t := Run(s, steps);
    RunExtends(s, steps);
    RunKeepsInv(s, steps);
    assert NodeOk(s, n) && NodeOk(t, n);
    assert t.log[..|s.log|] == s.log;
    EventsOnPrefix(t.log, |s.log|, n);
  }

  /** Two calls that both passed the re-check of one node at one version, the lock
      having expired under the first: once one reserve has taken effect the other is
      refused, however much later it comes. */
  lemma {:induction false} SecondHolderRefused(s: Sys, c: nat, e: nat, reply: Reply, steps: seq<Step>)
    requires Inv(s) && c != e
    requires Enabled(s, Reserve(c, reply)) && Apply(s, Reserve(c, reply)).log != s.log
    requires Ready(s, e) && s.clients[e].pc.Fetched?
    requires NodeOf(s.clients[e]) == NodeOf(s.clients[c]) && s.clients[e].pc.seen.version == s.clients[c].pc.seen.version
    requires var t := Run(Apply(s, Reserve(c, reply)), steps); Ready(t, e) && t.clients[e] == s.clients[e]
    ensures ReserveOutcome(Run(Apply(s, Reserve(c, reply)), steps), e) == Err(VersionMismatch)
  {
    var n := NodeOf(s.clients[c]);
    StepKeepsInv(s, Reserve(c, reply));
    assert ClientOk(s, c);
    VersionMonotone(Apply(s, Reserve(c, reply)), steps, n);
  }

  // ----- one call -----

  /** Whoever has finished: one reservation outstanding on the node it returned as
      reserved and none elsewhere, apart from those that lost messages leaked. */
  lemma {:induction false} FinishedCallAccount(s0: Sys, steps: seq<Step>, c: nat, n: NodeName)
    requires Init(s0)
    requires var s := Run(s0, steps); c in s.clients && Finished(s.clients[c])
    ensures var s := Run(s0, steps);
            var client := s.clients[c];
            Count(Outstanding(s.log), Mine(client, c, n))
            == client.leaked[n] + if client.pc.Bound? && HasNode(client) && NodeOf(client) == n then 1 else 0
  {
    ReachableInv(s0, steps);
    assert Accounted(Run(s0, steps), c);
  }

  /** Every rollback of a call comes with its reserve: on each node the call's version
      bumps are two for each rollback and one for each reservation still held. */
  lemma {:induction false} TwoBumpsPerRollback(s0: Sys, steps: seq<Step>, c: nat, n: NodeName)
    requires Init(s0)
    requires c in Run(s0, steps).clients
    ensures var s := Run(s0, steps);
            Caused(s.log, Reserved, c, n) + Caused(s.log, RolledBack, c, n)
            == 2 * Caused(s.log, RolledBack, c, n) + Held(s.clients[c], n)
  {
    var s := Run(s0, steps);
    ReachableInv(s0, steps);
    assert Accounted(s, c);
    forall k | 0 <= k < |s.log| && s.log[k].client == c
      ensures s.log[k].cpu == s.clients[c].intent.cpu && s.log[k].mem == s.clients[c].intent.mem
    {
      assert EventOk(s, s.log[k]);
    }
    OutstandingIsNet(s.log, Mine(s.clients[c], c, n));
    assert Count(Outstanding(s.log), Mine(s.clients[c], c, n)) == Held(s.clients[c], n);
  }

  /** Which call a step belongs to, if any. */
  function Mover(l: Step): Option<nat> {
    match l
    case Arrive(c, _, _, _) => Some(c)
    case TryLock(c, _) => Some(c)
    case Fetch(c, _) => Some(c)
    case Reserve(c, _) => Some(c)
    case Unlock(c, _) => Some(c)
    case Conclude(c, _) => Some(c)
    case Rollback(c, _) => Some(c)
    case Expire(_) => None
    case SyncRead(_, _, _) => None
    case SyncMerge(_, _) => None
  }

  lemma OthersUntouchedByLocking(s: Sys, l: Step, c: nat)
    requires Mover(l) != Some(c) && (l.Arrive? || l.TryLock? || l.Unlock?)
    ensures c in s.clients <==> c in Apply(s, l).clients
    ensures c in s.clients ==> Apply(s, l).clients[c] == s.clients[c]
  {
  }

  lemma OthersUntouchedByReserve(s: Sys, me: nat, reply: Reply, c: nat)
    requires Ready(s, me) && s.clients[me].pc.Fetched? && c != me
    ensures var t := DoReserve(s, me, reply); (c in s.clients <==> c in t.clients) && (c in s.clients ==> t.clients[c] == s.clients[c])
  {
  }

  lemma OthersUntouchedByRollback(s: Sys, me: nat, reply: Reply, c: nat)
    requires Ready(s, me) && s.clients[me].pc.RollingBack? && c != me
    ensures var t := DoRollback(s, me, reply); (c in s.clients <==> c in t.clients) && (c in s.clients ==> t.clients[c] == s.clients[c])
  {
  }

  lemma OthersUntouchedBySyncs(s: Sys, l: Step)
    requires Mover(l).None?
    ensures Apply(s, l).clients == s.clients
  {
  }

  /** No step changes the local state of a call it does not belong to. */
  lemma {:induction false} OthersUntouched(s: Sys, l: Step, c: nat)
    requires Mover(l) != Some(c)
    ensures c in s.clients <==> c in Apply(s, l).clients
    ensures c in s.clients ==> Apply(s, l).clients[c] == s.clients[c]
  {
    if l.Fetch? || l.Conclude? {
      ChecksAreLocal(s, l);
    } else if Mover(l).None? {
      OthersUntouchedBySyncs(s, l);
    } else if l.Reserve? {
      if Enabled(s, l) {
        OthersUntouchedByReserve(s, l.c, l.reply, c);
      }
    } else if l.Rollback? {
      if Enabled(s, l) {
        OthersUntouchedByRollback(s, l.c, l.reply, c);
      }
    } else {
      OthersUntouchedByLocking(s, l, c);
    }
  }

  // ----- locks -----

  /** At every loop-iteration boundary (and on every exit) no lock carries a UUID of
      the call, unless a lost message left it to expire. */
  lemma LockReleasedAtBoundary(s0: Sys, steps: seq<Step>, c: nat, n: NodeName)
    requires Init(s0)
    requires var s := Run(s0, steps);
             && c in s.clients && !HasLockId(s.clients[c].pc)
             && n in s.locks && s.locks[n] in s.owners && s.owners[s.locks[n]] == c
    ensures var s := Run(s0, steps); s.locks[n] in s.clients[c].strays
  {
    ReachableInv(s0, steps);
    assert LockOk(Run(s0, steps), n);
  }

  /** Releasing never takes another call's lock away, even if the releasing call's own
      lock has expired and been taken over. */
  lemma {:induction false} ReleaseRemovesOnlyOwn(s0: Sys, steps: seq<Step>, c: nat, reply: Reply, n: NodeName)
    requires Init(s0)
    requires var s := Run(s0, steps); Enabled(s, Unlock(c, reply)) && n in s.locks && s.locks[n] in s.owners
    requires Run(s0, steps).owners[Run(s0, steps).locks[n]] != c
    ensures var s := Run(s0, steps);
            var t := Apply(s, Unlock(c, reply));
            n in t.locks && t.locks[n] == s.locks[n]
  {
    ReachableInv(s0, steps);
    assert ClientOk(Run(s0, steps), c);
  }

  // ----- syncs -----

  /** Whatever happened since the sync read, its merge over an existing record takes the
      nine patch fields and keeps the usage and version of this instant; over a missing
      record it starts the node at zero usage. Either way the history is untouched. */
  lemma {:induction false} SyncLosesNoReservation(s0: Sys, steps: seq<Step>, k: nat, reply: Reply)
    requires Init(s0)
    requires k in Run(s0, steps).syncs && !reply.RequestLost?
    ensures var s := Run(s0, steps);
            var t := Apply(s, SyncMerge(k, reply));
            var patch := s.syncs[k];
            var n := patch.name;
            && n in t.nodes && SameMetadata(t.nodes[n], patch) && t.log == s.log
            && (n in s.nodes ==> SameUsage(t.nodes[n], s.nodes[n]) && t.nodes[n].version == s.nodes[n].version)
            && (n !in s.nodes ==> t.nodes[n].version == 0 && forall d :: Used(t.nodes[n], d) == 0)
  {
    ReachableInv(s0, steps);
  }

  /** Step k is the first to write a record for the node. */
  ghost predicate Creates(s0: Sys, steps: seq<Step>, k: nat, n: NodeName) {
    k < |steps| && n !in Run(s0, steps[..k]).nodes && n in Run(s0, steps[..k + 1]).nodes
  }

  /** Step k keeps the usage and the version of the node's record. */
  ghost predicate KeepsUsage(s0: Sys, steps: seq<Step>, k: nat, n: NodeName)
    requires k < |steps|
  {
    var s, t := Run(s0, steps[..k]), Run(s0, steps[..k + 1]);
    n in s.nodes ==> n in t.nodes && SameUsage(t.nodes[n], s.nodes[n]) && t.nodes[n].version == s.nodes[n].version
  }

  lemma RunNext(s0: Sys, steps: seq<Step>, k: nat)
    requires k < |steps|
    ensures Run(s0, steps[..k + 1]) == Apply(Run(s0, steps[..k]), steps[k])
  {
    assert steps[..k + 1][..|steps[..k + 1]| - 1] == steps[..k];
  }

  lemma OnlyMergesCreate(s: Sys, l: Step, n: NodeName)
    requires Inv(s) && n !in s.nodes && n in Apply(s, l).nodes
    ensures l.SyncMerge? && Apply(s, l).nodes[n].version == 0 && forall d :: Used(Apply(s, l).nodes[n], d) == 0
  {
    if !l.SyncMerge? && !l.Reserve? && !l.Rollback? {
      OnlyScriptsWrite(s, l);
    }
  }

  lemma MergeKeepsRecord(s: Sys, k: nat, reply: Reply, n: NodeName)
    requires n in s.nodes
    ensures var t := Apply(s, SyncMerge(k, reply));
            n in t.nodes && SameUsage(t.nodes[n], s.nodes[n]) && t.nodes[n].version == s.nodes[n].version
  {
  }

  /** A node without a record gets its first one from exactly one merge, with zero usage
      and version zero, however many syncs race; every other merge keeps the usage and
      the version it finds. */
  lemma {:induction false} InitialisedOnce(s0: Sys, steps: seq<Step>, n: NodeName) returns (k: nat)
    requires Init(s0) && n !in s0.nodes && n in Run(s0, steps).nodes
    ensures Creates(s0, steps, k, n) && steps[k].SyncMerge?
    ensures var first := Run(s0, steps[..k + 1]).nodes[n]; first.version == 0 && forall d :: Used(first, d) == 0
    ensures forall j: nat :: Creates(s0, steps, j, n) ==> j == k
    ensures forall j: nat :: j < |steps| && steps[j].SyncMerge? ==> KeepsUsage(s0, steps, j, n)
  {
    k := FirstRecord(s0, steps, n);
    ReachableInv(s0, steps[..k]);
    RunNext(s0, steps, k);
    OnlyMergesCreate(Run(s0, steps[..k]), steps[k], n);
    forall j: nat | Creates(s0, steps, j, n) ensures j == k {
      if j < k {
        RecordStays(s0, steps, j + 1, k, n);
      } else if k < j {
        RecordStays(s0, steps, k + 1, j, n);
      }
    }
    forall j: nat | j < |steps| && steps[j].SyncMerge? ensures KeepsUsage(s0, steps, j, n) {
      RunNext(s0, steps, j);
      if n in Run(s0, steps[..j]).nodes {
        MergeKeepsRecord(Run(s0, steps[..j]), steps[j].k, steps[j].reply, n);
      }
    }
  }

  lemma {:induction false} FirstRecord(s0: Sys, steps: seq<Step>, n: NodeName) returns (k: nat)
    requires n !in s0.nodes && n in Run(s0, steps).nodes
    ensures Creates(s0, steps, k, n)
  {
    var rest := steps[..|steps| - 1];
    if n in Run(s0, rest).nodes {
      k := FirstRecord(s0, rest, n);
      assert steps[..k] == rest[..k] && steps[..k + 1] == rest[..k + 1];
    } else {
      k := |rest|;
      assert steps[..k + 1] == steps;
    }
  }

  /** Records are never removed. */
  lemma RecordStays(s0: Sys, steps: seq<Step>, i: nat, j: nat, n: NodeName)
    requires Init(s0) && i <= j <= |steps| && n in Run(s0, steps[..i]).nodes
    ensures n in Run(s0, steps[..j]).nodes
  {
    ReachableInv(s0, steps[..i]);
    RunSplits(s0, steps[..j], i);
    assert steps[..j][..i] == steps[..i];
    RunExtends(Run(s0, steps[..i]), steps[..j][i..]);
  }

  // ----- agreement of the three checks -----

  /** The steps of an undisturbed attempt. */
  function Attempt(c: nat, bind: BindReply): seq<Step> {
    [TryLock(c, Delivered), Fetch(c, Delivered), Reserve(c, Delivered), Unlock(c, Delivered), Conclude(c, bind)]
  }

  /** The filter's verdict is the script's and the API validation's too. */
  lemma ChecksAgree(s: Sys, client: Client)
    requires HasNode(client) && StillFits(s, client)
    requires var n := NodeOf(client);
             && FindKubeNode(client.kube, n).Some?
             && SameMetadata(s.nodes[n], StateFromApi(FindKubeNode(client.kube, n).value, None))
    ensures Vouched(client)
    ensures ReserveRecord(s.nodes[NodeOf(client)], client.intent.cpu, client.intent.mem, s.nodes[NodeOf(client)].version).Ok?
  {
    var n := NodeOf(client);
    FilterAgreesWithReserve(client.intent, s.nodes[n], s.nodes[n].version);
    FilterImpliesValidation(client.intent, FindKubeNode(client.kube, n).value, s.nodes[n]);
  }

  lemma LockAndFetch(s: Sys, c: nat)
    requires Ready(s, c) && s.clients[c].pc.Trying?
    requires NodeOf(s.clients[c]) !in s.locks && StillFits(s, s.clients[c])
    ensures var client := s.clients[c];
            var n, u := NodeOf(client), s.nextUuid;
            Apply(Apply(s, TryLock(c, Delivered)), Fetch(c, Delivered))
            == Put(s.(nextUuid := u + 1, owners := s.owners[u := c], locks := s.locks[n := u]), c,
                   client.(pc := Fetched(client.pc.i, u, s.nodes[n])))
  {
    var client := s.clients[c];
    var n, u := NodeOf(client), s.nextUuid;
    var s1 := Apply(s, TryLock(c, Delivered));
    var locked := client.(pc := Locked(client.pc.i, u));
    assert s1 == Put(s.(nextUuid := u + 1, owners := s.owners[u := c], locks := s.locks[n := u]), c, locked);
    assert StillFits(s1, locked);
  }

  lemma ReserveAndUnlock(s: Sys, c: nat)
    requires Ready(s, c) && s.clients[c].pc.Fetched? && ReserveOutcome(s, c).Ok?
    requires NodeOf(s.clients[c]) in s.locks && s.locks[NodeOf(s.clients[c])] == s.clients[c].pc.uuid
    ensures var client := s.clients[c];
            var n := NodeOf(client);
            Apply(Apply(s, Reserve(c, Delivered)), Unlock(c, Delivered))
            == Put(Record(s, Reserved, c, n, ReserveOutcome(s, c).value).(locks := s.locks - {n}), c,
                   client.(pc := Unlocked(client.pc.i)))
  {
    var client := s.clients[c];
    var n := NodeOf(client);
    var s1 := Apply(s, Reserve(c, Delivered));
    assert s1 == Put(Record(s, Reserved, c, n, ReserveOutcome(s, c).value), c, client.(pc := Reserving(client.pc.i, client.pc.uuid)));
  }

  /** With no interference, a free lock, a cached version still current, a record synced
      from the API node in the candidate list, and a bind that is accepted, the attempt
      succeeds: the call ends bound to the node, whose record carries the reservation. */
  lemma UndisturbedAttemptSucceeds(s: Sys, c: nat, bind: BindReply)
    requires Ready(s, c) && s.clients[c].pc.Trying? && BindAccepted(bind)
    requires var client := s.clients[c];
             var n := NodeOf(client);
             && n !in s.locks && StillFits(s, client)
             && FindKubeNode(client.kube, n).Some?
             && SameMetadata(s.nodes[n], StateFromApi(FindKubeNode(client.kube, n).value, None))
    ensures var t := Run(s, Attempt(c, bind));
            var client := s.clients[c];
            var n := NodeOf(client);
            && c in t.clients && t.clients[c] == client.(pc := Bound(client.pc.i))
            && n in t.nodes && ReserveRecord(s.nodes[n], client.intent.cpu, client.intent.mem, s.nodes[n].version) == Ok(t.nodes[n])
            && n !in t.locks
  {
    var client := s.clients[c];
    ChecksAgree(s, client);
    LockAndFetch(s, c);
    var s2 := Apply(Apply(s, TryLock(c, Delivered)), Fetch(c, Delivered));
    ReserveAndUnlock(s2, c);
    var s4 := Apply(Apply(s2, Reserve(c, Delivered)), Unlock(c, Delivered));
    assert s4.clients[c] == client.(pc := Unlocked(client.pc.i));
    VouchedIsBound(s4, c, bind, client);
    FiveSteps(s, c, bind);
  }

  lemma VouchedIsBound(s: Sys, c: nat, bind: BindReply, client: Client)
    requires Ready(s, c) && HasNode(client) && s.clients[c] == client.(pc := Unlocked(client.pc.i))
    requires Vouched(client) && BindAccepted(bind)
    ensures Apply(s, Conclude(c, bind)) == Put(s, c, client.(pc := Bound(client.pc.i)))
  {
    assert Vouched(s.clients[c]);
  }

  lemma FiveSteps(s: Sys, c: nat, bind: BindReply)
    ensures Run(s, Attempt(c, bind))
         == Apply(Apply(Apply(Apply(Apply(s, TryLock(c, Delivered)), Fetch(c, Delivered)), Reserve(c, Delivered)), Unlock(c, Delivered)), Conclude(c, bind))
  {
    var a := Attempt(c, bind);
    assert a[..4][..3] == a[..3] && a[..3][..2] == a[..2] && a[..2][..1] == a[..1] && a[..1][..0] == [];
    assert Run(s, a[..1]) == Apply(s, a[0]);
    assert Run(s, a[..2]) == Apply(Run(s, a[..1]), a[1]);
    assert Run(s, a[..3]) == Apply(Run(s, a[..2]), a[2]);
    assert Run(s, a[..4]) == Apply(Run(s, a[..3]), a[3]);
  }
}
