/** The rebalancing controller: one cycle after another, each of which may skip, or move a
    bounded number of pods off overloaded nodes and then record when it started. */
module Rebalancer {
  import opened Wrappers
  import opened NodeModel
  import opened Sorting
  import opened RebalancerRules
  import opened RateLimit
  import opened Migrations

  function Load(s: NodeState): real {
    CpuShare(s) + MemShare(s)
  }

  method EvaluateTriggers(states: seq<NodeState>, hotspot: bool)
    returns (triggered: bool, overloaded: seq<NodeState>, free: seq<NodeState>)
    ensures triggered <==> Triggered(states, hotspot)
    ensures multiset(overloaded) == multiset(Filter(IsOverloaded, states)) && Descending(overloaded, Load)
    ensures free == Filter(IsFree, states)
    ensures forall s :: s in overloaded <==>
              && s in states && s.ready && 0 < s.cpuAlloc && 0 < s.memAlloc
              && (4 * s.cpuUsed > 3 * s.cpuAlloc || 4 * s.memUsed > 3 * s.memAlloc)
    ensures forall s :: s in free <==>
              && s in states && s.ready && 0 < s.cpuAlloc && 0 < s.memAlloc
              && 4 * s.cpuUsed < s.cpuAlloc && 4 * s.memUsed < s.memAlloc
    ensures forall i, j :: 0 <= i < j < |overloaded| ==>
              CpuShare(overloaded[i]) + MemShare(overloaded[i]) >= CpuShare(overloaded[j]) + MemShare(overloaded[j])
  {
    var maxCpu, minCpu, maxMem, minMem := 0.0, 1.0, 0.0, 1.0;
    overloaded, free := [], [];
    for i := 0 to |states|
      invariant maxCpu == Highest(CpuShare, states[..i]) && minCpu == Lowest(CpuShare, states[..i])
      invariant maxMem == Highest(MemShare, states[..i]) && minMem == Lowest(MemShare, states[..i])
      invariant overloaded == Filter(IsOverloaded, states[..i]) && free == Filter(IsFree, states[..i])
    {
      var s := states[i];
      assert states[..i + 1][..i] == states[..i];
      if !s.ready || s.cpuAlloc <= 0 || s.memAlloc <= 0 {
        continue;
      }
      var cpu := s.cpuUsed as real / s.cpuAlloc as real;
      var mem := s.memUsed as real / s.memAlloc as real;
      if cpu > maxCpu {
        maxCpu := cpu;
      }
      if cpu < minCpu {
        minCpu := cpu;
      }
      if mem > maxMem {
        maxMem := mem;
      }
      if mem < minMem {
        minMem := mem;
      }
      if cpu > OVERLOAD || mem > OVERLOAD {
        overloaded := overloaded + [s];
      }
      if cpu < UNDERUSED && mem < UNDERUSED {
        free := free + [s];
      }
    }
    assert states[..|states|] == states;
    triggered := maxCpu - minCpu > MAX_SPREAD || maxMem - minMem > MAX_SPREAD || |free| > 0 || hotspot;
    ghost var listed := overloaded;
    overloaded := SortDescending(overloaded, Load);
    SameMembers(overloaded, listed);
    ListsExactly(states);
    assert forall i, j :: 0 <= i < j < |overloaded| ==> Load(overloaded[i]) >= Load(overloaded[j]);
  }

  lemma ListsExactly(states: seq<NodeState>)
    ensures forall s :: s in Filter(IsOverloaded, states) <==>
              && s in states && s.ready && 0 < s.cpuAlloc && 0 < s.memAlloc
              && (4 * s.cpuUsed > 3 * s.cpuAlloc || 4 * s.memUsed > 3 * s.memAlloc)
    ensures forall s :: s in Filter(IsFree, states) <==>
              && s in states && s.ready && 0 < s.cpuAlloc && 0 < s.memAlloc
              && 4 * s.cpuUsed < s.cpuAlloc && 4 * s.memUsed < s.memAlloc
  {
    FilterMembers(IsOverloaded, states);
    FilterMembers(IsFree, states);
    forall s ensures IsOverloaded(s) <==> && s.ready && 0 < s.cpuAlloc && 0 < s.memAlloc
                                          && (4 * s.cpuUsed > 3 * s.cpuAlloc || 4 * s.memUsed > 3 * s.memAlloc) {
      OverloadedExactly(s);
    }
    forall s ensures IsFree(s) <==> && s.ready && 0 < s.cpuAlloc && 0 < s.memAlloc
                                    && 4 * s.cpuUsed < s.cpuAlloc && 4 * s.memUsed < s.memAlloc {
      FreeExactly(s);
    }
  }

  /** What a cycle finds outside: the records listed from the store, whether a latency
      hotspot is reported, the pods listed for each node, and what the k-th pod that is
      checked meets. */
  datatype World = World(states: Option<seq<NodeState>>, hotspot: bool, pods: map<NodeName, seq<Pod>>, answers: nat -> Answer)

  /** The pods that a cycle checks, of these nodes: none unless there is a free node; in the
      order of the queue, and all of them unless the cap is reached or time runs out. */
  ghost predicate GoesThrough(tries: seq<Try>, sources: seq<NodeState>, free: seq<NodeState>, world: World, cfg: Config, keys: map<nat, Stamp>, elapsed: int) {
    var queue := Queue(sources, world.pods);
    && InOrder(tries, queue) && Answered(tries, world.answers, world.hotspot, cfg, keys)
    && |MovesOf(tries, world.hotspot, cfg)| <= cfg.MaxMoves()
    && (if free == [] then tries == []
        else |tries| == |queue| || |MovesOf(tries, world.hotspot, cfg)| == cfg.MaxMoves() || elapsed > cfg.MaxDuration())
  }

  /** Pods are moved off overloaded nodes only, and only while there is a free one. */
  ghost predicate Sourced(moves: seq<Move>, world: World) {
    && world.states.Some? && AllFrom(moves, Filter(IsOverloaded, world.states.value))
    && Filter(IsFree, world.states.value) != []
  }

  /** No hotspot is reported, and every listed record is within its capacity. */
  ghost predicate Fits(world: World) {
    !world.hotspot && world.states.Some? && forall s :: s in world.states.value ==> WithinCapacity(s)
  }

  /** The pods moved come from overloaded nodes, were checked in turn, and passed the filters. */
  lemma TriesAreSourced(tries: seq<Try>, sources: seq<NodeState>, free: seq<NodeState>, world: World, cfg: Config, keys: map<nat, Stamp>)
    requires world.states.Some? && multiset(sources) == multiset(Filter(IsOverloaded, world.states.value))
    requires free == Filter(IsFree, world.states.value) && (free == [] ==> tries == [])
    requires InOrder(tries, Queue(sources, world.pods)) && Answered(tries, world.answers, world.hotspot, cfg, keys)
    ensures var moves := MovesOf(tries, world.hotspot, cfg);
            AllJustified(moves, world.hotspot, cfg, keys) && (moves != [] ==> Sourced(moves, world))
  {
    MovesJustified(tries, world.answers, world.hotspot, cfg, keys);
    var queue := Queue(sources, world.pods);
    QueueExactly(sources, world.pods);
    SameMembers(sources, Filter(IsOverloaded, world.states.value));
    MapAt(Checked, tries);
    forall k | 0 <= k < |tries| ensures tries[k].move.src in Filter(IsOverloaded, world.states.value) {
      assert Checked(tries[k]) == Map(Checked, tries)[k] == queue[k];
      assert queue[k] in queue;
    }
    MovesFrom(tries, Filter(IsOverloaded, world.states.value), world.hotspot, cfg);
  }

  lemma MovesAreWarranted(moves: seq<Move>, world: World, cfg: Config, keys: map<nat, Stamp>)
    requires AllJustified(moves, world.hotspot, cfg, keys) && (moves != [] ==> Sourced(moves, world))
    ensures moves != [] && Fits(world) ==> Warranted(moves, world.states.value)
  {
    if moves != [] && Fits(world) {
      var states := world.states.value;
      FilterMembers(IsOverloaded, states);
      FilterMembers(IsFree, states);
      var f := Filter(IsFree, states)[0];
      assert f in Filter(IsFree, states);
      forall k | 0 <= k < |moves|
        ensures CpuShare(moves[k].src) > 0.9 && MemShare(moves[k].src) > 0.9
        ensures f in states && f != moves[k].src && CpuShare(f) < UNDERUSED && MemShare(f) < UNDERUSED
      {
        assert Justified(moves[k], false, cfg, Recorded(keys, moves[..k]));
        MovesOnlyOffFullNodes(moves[k].src);
      }
    }
  }

  class Controller {
    const cfg: Config
    // statistics
    var cyclesTotal: nat
    var skippedTotal: nat
    var podsMigrated: nat
    // keys in the store, and the time
    var lastRun: Option<Stamp>
    var podMoved: map<nat, Stamp>
    var clock: int
    ghost const firstKey: Option<Stamp>
    ghost var history: History

    ghost predicate Valid()
      reads this
    {
      ValidBut(0)
    }

    /** Valid, but for so many cycles counted and not yet on record. */
    ghost predicate ValidBut(pending: nat)
      reads this
    {
      && cyclesTotal == |history| + pending && skippedTotal == Skipped(history) && podsMigrated == Moved(history)
      && Capped(history, cfg.MaxMoves())
      && Legal(firstKey, history, cfg.Cooldown())
      && lastRun == KeyAfter(firstKey, history)
      && (history != [] ==> Last(history).end <= clock)
    }

    constructor (cfg: Config, lastRun: Option<Stamp>, clock: int)
      ensures Valid() && this.cfg == cfg && history == [] && this.clock == clock
    {
      this.cfg, this.lastRun, this.clock := cfg, lastRun, clock;
      cyclesTotal, skippedTotal, podsMigrated, podMoved, history := 0, 0, 0, map[], [];
      firstKey := lastRun;
    }

    /** Reads the clock: some time has passed. */
    method Now() returns (t: int)
      modifies this`clock
      ensures old(clock) <= clock == t
    {
      t :| clock <= t;
      clock := t;
    }

    /** A pod's key in the store says it was moved within the window. */
    method WasMovedRecently(uid: nat, now: int, readable: bool) returns (recently: bool)
      ensures recently == RecentlyMoved(KeyOf(podMoved, uid), cfg.AntiThrash(), now, readable)
    {
      if !readable || uid !in podMoved || podMoved[uid].deadline <= now {
        return false;
      }
      return Age(podMoved[uid], now) < cfg.AntiThrash();
    }

    /** Goes through the pods of the overloaded nodes until the cap is reached or time is up,
        and moves each that passes the filters, as far as its deletion succeeds. */
    method ExecuteLimitedMigrations(overloaded: seq<NodeState>, free: seq<NodeState>, world: World, maxMoves: nat)
      returns (moved: nat, ghost tries: seq<Try>)
      requires maxMoves == cfg.MaxMoves()
      modifies this`clock, this`podMoved
      ensures old(clock) <= clock
      ensures moved == |MovesOf(tries, world.hotspot, cfg)|
      ensures GoesThrough(tries, overloaded, free, world, cfg, old(podMoved), clock - old(clock))
      ensures podMoved == Recorded(old(podMoved), MovesOf(tries, world.hotspot, cfg))
    {
      moved, tries := 0, [];
      if |overloaded| == 0 || |free| == 0 {
        return;
      }
      var checked := 0;
      var now := Now();
      var deadline := now + cfg.MaxDuration();
      ghost var queue: seq<Candidate> := [];
      for i := 0 to |overloaded|
        invariant old(clock) <= clock && old(clock) + cfg.MaxDuration() <= deadline
        invariant queue == Queue(overloaded[..i], world.pods)
        invariant Gone(tries, moved, checked, queue, world, maxMoves, old(podMoved), deadline)
      {
        var src := overloaded[i];
        QueueOneMore(overloaded, i, world.pods);
        now := Now();
        if moved >= maxMoves || now > deadline {
          QueueGrows(overloaded, i, world.pods);
          InOrderOfMore(tries, queue, Queue(overloaded, world.pods));
          return;
        }
        if src.name in world.pods {
          moved, checked, tries := MigrateFrom(src, world.pods[src.name], world, moved, maxMoves, checked, deadline, tries, queue, old(podMoved));
        }
        queue := queue + PodsOn(src, world.pods);
      }
      assert overloaded[..|overloaded|] == overloaded;
    }

    /** How far a cycle has come along a queue. */
    ghost predicate Gone(tries: seq<Try>, moved: nat, checked: nat, queue: seq<Candidate>, world: World, maxMoves: nat,
                         keys: map<nat, Stamp>, deadline: int)
      reads this`clock, this`podMoved
    {
      && InOrder(tries, queue) && checked == |tries| && moved == |MovesOf(tries, world.hotspot, cfg)| <= maxMoves
      && Answered(tries, world.answers, world.hotspot, cfg, keys)
      && podMoved == Recorded(keys, MovesOf(tries, world.hotspot, cfg))
      && (|tries| == |queue| || moved == maxMoves || clock > deadline)
    }

    /** The inner loop: the pods of one overloaded node. */
    method MigrateFrom(src: NodeState, pods: seq<Pod>, world: World, before: nat, maxMoves: nat, start: nat, deadline: int,
                       ghost prior: seq<Try>, ghost queue: seq<Candidate>, ghost keys: map<nat, Stamp>)
      returns (moved: nat, checked: nat, ghost tries: seq<Try>)
      requires Gone(prior, before, start, queue, world, maxMoves, keys, deadline) && |prior| == |queue|
      modifies this`clock, this`podMoved
      ensures old(clock) <= clock
      ensures Gone(tries, moved, checked, queue + Map(CandidateOf(src), pods), world, maxMoves, keys, deadline)
    {
      moved, checked, tries := before, start, prior;
      for k := 0 to |pods|
        invariant old(clock) <= clock
        invariant Gone(tries, moved, checked, queue + Map(CandidateOf(src), pods[..k]), world, maxMoves, keys, deadline)
        invariant |tries| == |queue| + k
      {
        var now := Now();
        PrefixOfMap(CandidateOf(src), pods, k);
        if moved >= maxMoves || now > deadline {
          StillInOrder(tries, queue, Map(CandidateOf(src), pods[..k]), Map(CandidateOf(src), pods));
          return;
        }
        moved, checked, tries := MigrateNext(src, pods, k, world, moved, maxMoves, checked, deadline, tries, queue, keys);
      }
      assert pods[..|pods|] == pods;
    }

    /** One turn of that loop. */
    method MigrateNext(src: NodeState, pods: seq<Pod>, k: nat, world: World, before: nat, maxMoves: nat, start: nat,
                       deadline: int, ghost prior: seq<Try>, ghost queue: seq<Candidate>, ghost keys: map<nat, Stamp>)
      returns (moved: nat, checked: nat, ghost tries: seq<Try>)
      requires k < |pods| && before < maxMoves && |prior| == |queue| + k
      requires Gone(prior, before, start, queue + Map(CandidateOf(src), pods[..k]), world, maxMoves, keys, deadline)
      modifies this`clock, this`podMoved
      ensures old(clock) <= clock && |tries| == |queue| + k + 1
      ensures Gone(tries, moved, checked, queue + Map(CandidateOf(src), pods[..k + 1]), world, maxMoves, keys, deadline)
    {
      ghost var last;
      var deleted;
      deleted, last := MoveOne(src, pods[k], world.hotspot, world.answers(start));
      PrefixOfMap(CandidateOf(src), pods, k + 1);
      TryOneMore(prior, last, deleted, queue, src, pods, k, world.answers, world.hotspot, cfg, keys);
      moved := if deleted then before + 1 else before;
      checked, tries := start + 1, prior + [last];
    }

    /** Checks one pod, deletes it, and records that. */
    method MoveOne(src: NodeState, pod: Pod, hotspot: bool, answer: Answer) returns (deleted: bool, ghost t: Try)
      modifies this`clock, this`podMoved
      ensures old(clock) <= clock
      ensures Checked(t) == Candidate(src, pod) && t.deletes == answer.deletes
      ensures var m := t.move;
              && m.at <= m.done && m.key == KeyOf(old(podMoved), pod.uid)
              && m.readable == answer.readable && m.written == answer.written
              && deleted == (answer.deletes && Passes(m, hotspot, cfg))
              && podMoved == Store(old(podMoved), m, deleted)
    {
      var now := Now();
      var passes := MayMove(src, pod, hotspot, now, answer.readable);
      t := Try(Move(src, pod, now, KeyOf(podMoved, pod.uid), answer.readable, now, answer.written), answer.deletes);
      deleted := passes && answer.deletes;
      if !deleted {
        return;
      }
      var done := Now();
      t := t.(move := t.move.(done := done));
      if answer.written {
        podMoved := podMoved[pod.uid := StampAt(done, done)];
      }
    }

    /** The four filters a pod passes before it is deleted. */
    method MayMove(src: NodeState, pod: Pod, hotspot: bool, now: int, readable: bool) returns (ok: bool)
      ensures ok <==>
                && IsPodEligible(pod, cfg.MinAge(), now) && PdbAllowsDisruption(pod)
                && !RecentlyMoved(KeyOf(podMoved, pod.uid), cfg.AntiThrash(), now, readable)
                && BenefitExceedsCost(src, hotspot)
    {
      if !IsPodEligible(pod, cfg.MinAge(), now) {
        return false;
      }
      if !PdbAllowsDisruption(pod) {
        return false;
      }
      var recently := WasMovedRecently(pod.uid, now, readable);
      if recently {
        return false;
      }
      return BenefitExceedsCost(src, hotspot);
    }

    /** Puts a cycle on record. */
    ghost method Record(c: Cycle)
      modifies this`history
      ensures history == old(history) + [c] && Earlier(history) == old(history) && Last(history) == c
      ensures Skipped(history) == Skipped(old(history)) + if c.skipped then 1 else 0
      ensures Moved(history) == Moved(old(history)) + c.moved
      ensures KeyAfter(firstKey, history)
           == if !c.skipped && c.keyWritten then Some(StampAt(c.start, c.end)) else KeyAfter(firstKey, old(history))
      ensures Capped(history, cfg.MaxMoves()) <==>
                Capped(old(history), cfg.MaxMoves()) && c.moved <= if c.skipped then 0 else cfg.MaxMoves()
      ensures Legal(firstKey, history, cfg.Cooldown()) <==>
                && Legal(firstKey, old(history), cfg.Cooldown()) && c.start <= c.end
                && (old(history) != [] ==> Last(old(history)).end <= c.start)
                && (!c.skipped ==> CooldownElapsed(KeyAfter(firstKey, old(history)), cfg.Cooldown(), c.start, c.keyRead))
    {
      history := history + [c];
      assert Earlier(history) == old(history);
    }

    /** One cycle, starting now. `keyRead` says whether the store answered the read of the
        last-run key, and `keyWritten` whether a write of it takes effect. A cycle that is
        not skipped goes through the pods of the overloaded nodes, most loaded first, and
        moves those that pass the filters and whose deletion succeeds. */
    method RunOnce(world: World, keyRead: bool, keyWritten: bool)
      returns (ghost moves: seq<Move>, ghost tries: seq<Try>, ghost sources: seq<NodeState>)
      requires Valid()
      modifies this
      ensures Valid()
      ensures history != [] && Earlier(history) == old(history)
      ensures var c := Last(history);
              && old(clock) <= c.start && c.moved == |moves| && c.keyRead == keyRead && c.keyWritten == keyWritten
              && (c.skipped <==>
                    || !cfg.enabled
                    || !CooldownElapsed(old(lastRun), cfg.Cooldown(), c.start, keyRead)
                    || world.states.None? || world.states.value == []
                    || !Triggered(world.states.value, world.hotspot))
      ensures moves == MovesOf(tries, world.hotspot, cfg) && (Last(history).skipped ==> tries == [])
      ensures !Last(history).skipped ==>
                && multiset(sources) == multiset(Filter(IsOverloaded, world.states.value)) && Descending(sources, Load)
                && GoesThrough(tries, sources, Filter(IsFree, world.states.value), world, cfg, old(podMoved), Last(history).end - Last(history).start)
      ensures AllJustified(moves, world.hotspot, cfg, old(podMoved)) && podMoved == Recorded(old(podMoved), moves)
      ensures moves != [] ==> Sourced(moves, world) && (Fits(world) ==> Warranted(moves, world.states.value))
    {
      var start := Now();
      moves, tries, sources := [], [], [];
      cyclesTotal := cyclesTotal + 1;
      var acts, overloaded, free := Plan(world, start, keyRead);
      if !acts {
        skippedTotal := skippedTotal + 1;
        Record(Cycle(start, start, true, 0, keyRead, keyWritten));
        return;
      }
      sources := overloaded;
      tries := Rebalance(start, overloaded, free, world, keyRead, keyWritten);
      moves := MovesOf(tries, world.hotspot, cfg);
      TriesAreSourced(tries, overloaded, free, world, cfg, old(podMoved));
      MovesAreWarranted(moves, world, cfg, old(podMoved));
    }

    /** Whether this cycle acts, and on which nodes. */
    method Plan(world: World, start: int, keyRead: bool) returns (acts: bool, overloaded: seq<NodeState>, free: seq<NodeState>)
      ensures acts <==>
                && cfg.enabled && CooldownElapsed(lastRun, cfg.Cooldown(), start, keyRead)
                && world.states.Some? && world.states.value != []
                && Triggered(world.states.value, world.hotspot)
      ensures acts ==> multiset(overloaded) == multiset(Filter(IsOverloaded, world.states.value)) && Descending(overloaded, Load)
      ensures acts ==> free == Filter(IsFree, world.states.value)
    {
      acts, overloaded, free := false, [], [];
      if cfg.enabled && CooldownElapsed(lastRun, cfg.Cooldown(), start, keyRead)
         && world.states.Some? && |world.states.value| > 0 {
        acts, overloaded, free := EvaluateTriggers(world.states.value, world.hotspot);
      }
    }

    /** The rest of a cycle that is not skipped. */
    method Rebalance(start: int, overloaded: seq<NodeState>, free: seq<NodeState>, world: World, keyRead: bool, keyWritten: bool)
      returns (ghost tries: seq<Try>)
      requires ValidBut(1) && (history != [] ==> Last(history).end <= start) && start == clock
      requires CooldownElapsed(lastRun, cfg.Cooldown(), start, keyRead)
      modifies this`clock, this`podMoved, this`podsMigrated, this`lastRun, this`history
      ensures Valid() && old(clock) <= clock
      ensures Earlier(history) == old(history) && history != []
      ensures Last(history) == Cycle(start, Last(history).end, false, |MovesOf(tries, world.hotspot, cfg)|, keyRead, keyWritten)
      ensures GoesThrough(tries, overloaded, free, world, cfg, old(podMoved), Last(history).end - start)
      ensures podMoved == Recorded(old(podMoved), MovesOf(tries, world.hotspot, cfg))
    {
      var moved;
      moved, tries := ExecuteLimitedMigrations(overloaded, free, world, cfg.MaxMoves());
      Finish(start, moved, keyRead, keyWritten);
    }

    /** Counts the moves and records the run. */
    method Finish(start: int, moved: nat, keyRead: bool, keyWritten: bool)
      requires ValidBut(1) && (history != [] ==> Last(history).end <= start) && start <= clock && moved <= cfg.MaxMoves()
      requires CooldownElapsed(lastRun, cfg.Cooldown(), start, keyRead)
      modifies this`clock, this`podsMigrated, this`lastRun, this`history
      ensures Valid() && old(clock) <= clock
      ensures Earlier(history) == old(history) && history != []
      ensures Last(history) == Cycle(start, Last(history).end, false, moved, keyRead, keyWritten) && old(clock) <= Last(history).end
    {
      podsMigrated := podsMigrated + moved;
      var now := Now();
      if keyWritten {
        lastRun := Some(StampAt(start, now));
      }
      Record(Cycle(start, now, false, moved, keyRead, keyWritten));
    }

    /** At any time: no more pods migrated than the cap allows for the cycles not skipped. */
    lemma MigratedWithinCap()
      requires Valid()
      ensures podsMigrated <= cfg.MaxMoves() * (cyclesTotal - skippedTotal)
    {
      MovedWithinCap(history, cfg.MaxMoves());
    }

    /** At any time, if the store has answered throughout: the cycles that started within
        any window have moved at most the cap times one more than the number of gaps that
        fit into the window, whatever cooldown above a second is configured. */
    lemma MigrationRate(from: int, window: nat)
      requires Valid() && Reliable(history) && SECOND < cfg.Cooldown()
      ensures MovedIn(history, from, from + window) <= cfg.MaxMoves() * (window / Gap(cfg.Cooldown()) + 1)
    {
      LegalIsSpaced(firstKey, history, cfg.Cooldown());
      WindowBound(history, cfg.MaxMoves(), Gap(cfg.Cooldown()), from, window);
    }

    /** At any time, exactly when the next cycle may act: once a run has been recorded, when
        the read fails or the last recorded run is old enough. If the last cycle that acted
        could read the key, this says that its write had no effect or it is old enough. */
    lemma NextCycle(now: int, keyRead: bool)
      requires Valid()
      ensures CooldownElapsed(lastRun, cfg.Cooldown(), now, keyRead)
         <==> match LastRecorded(history)
              case None => CooldownElapsed(firstKey, cfg.Cooldown(), now, keyRead)
              case Some(c) => !keyRead || OldEnough(c, cfg.Cooldown(), now)
      ensures LastActive(history).Some? ==>
                var last := Last(ThroughLastActive(history));
                last.keyRead && last.end <= now ==>
                  (CooldownElapsed(lastRun, cfg.Cooldown(), now, keyRead)
                   <==> !keyRead || !last.keyWritten || OldEnough(last, cfg.Cooldown(), now))
    {
      RecordedRunDecides(firstKey, history, cfg.Cooldown(), now, keyRead);
      if LastActive(history).Some? && Last(ThroughLastActive(history)).end <= now {
        NextCycleExactly(firstKey, history, cfg.Cooldown(), now, keyRead);
      }
    }
  }
}
