/** Which pods a rebalancing cycle moves: the filters a pod passes, and the order in which
    the pods of the overloaded nodes are gone through. */
module Migrations {
  import opened Wrappers
  import opened NodeModel
  import opened Sorting
  import opened RebalancerRules
  import opened RateLimit

  const DEFAULT_COOLDOWN := 1800 * SECOND
  const DEFAULT_MAX_MOVES := 3
  const DEFAULT_MIN_AGE := 600 * SECOND
  const DEFAULT_ANTI_THRASH := 3600 * SECOND
  const DEFAULT_MAX_DURATION := 30 * SECOND

  datatype Config = Config(enabled: bool, cooldown: int, maxMoves: int, minAge: int, antiThrash: int, maxDuration: int) {
    function Cooldown(): (d: int)
      ensures d > 0
    {
      if cooldown <= 0 then DEFAULT_COOLDOWN else cooldown
    }

    function MaxMoves(): (n: nat)
      ensures n > 0
    {
      if maxMoves <= 0 then DEFAULT_MAX_MOVES else maxMoves
    }

    function MinAge(): int {
      if minAge <= 0 then DEFAULT_MIN_AGE else minAge
    }

    function AntiThrash(): int {
      if antiThrash <= 0 then DEFAULT_ANTI_THRASH else antiThrash
    }

    function MaxDuration(): int {
      if maxDuration <= 0 then DEFAULT_MAX_DURATION else maxDuration
    }
  }

  /** What an unset or senseless setting stands for, in nanoseconds: half an hour between
      cycles, three moves, ten minutes of age, an hour between two moves of a pod, and half a
      minute for a cycle. The key of the last run lives for a day. */
  lemma DefaultsExactly(cfg: Config)
    ensures cfg.Cooldown() == if cfg.cooldown > 0 then cfg.cooldown else 1800000000000
    ensures cfg.MaxMoves() == if cfg.maxMoves > 0 then cfg.maxMoves else 3
    ensures cfg.MinAge() == if cfg.minAge > 0 then cfg.minAge else 600000000000
    ensures cfg.AntiThrash() == if cfg.antiThrash > 0 then cfg.antiThrash else 3600000000000
    ensures cfg.MaxDuration() == if cfg.maxDuration > 0 then cfg.maxDuration else 30000000000
    ensures DAY == 86400000000000
  {
  }

  datatype Owner = ReplicaSet | DaemonSet | StatefulSet | OtherOwner

  /** A disruption budget whose selector is (not) empty and does (not) match a pod. */
  datatype Budget = Budget(valid: bool, empty: bool, matches: bool, allowed: int, hasMin: bool, healthy: int, desired: int)

  /** A pod as listed; `budgets` is what listing its namespace's budgets answers. */
  datatype Pod = Pod(uid: nat, system: bool, created: int, owners: seq<Owner>, onTainted: bool, restarts: seq<int>,
                     budgets: Option<seq<Budget>>)

  /** An old enough, never restarted, controlled pod outside kube-system and tainted nodes. */
  predicate IsPodEligible(p: Pod, minAge: int, now: int) {
    && !p.system
    && now - p.created >= minAge
    && DaemonSet !in p.owners && StatefulSet !in p.owners
    && !p.onTainted
    && (forall r :: r in p.restarts ==> r <= 0)
    && p.owners != []
  }

  /** The first budget that matches decides; budgets that cannot be listed forbid. */
  predicate BudgetsAllow(budgets: seq<Budget>) {
    if budgets == [] then true
    else
      var b := budgets[0];
      if !b.valid || b.empty || !b.matches then BudgetsAllow(budgets[1..])
      else b.allowed > 0 && (!b.hasMin || b.healthy > b.desired)
  }

  predicate PdbAllowsDisruption(p: Pod) {
    p.budgets.Some? && BudgetsAllow(p.budgets.value)
  }

  /** Exactly when a pod's budgets allow it to be disrupted: the first valid one with a
      selector that is not empty and matches, if there is one, allows a disruption, and more
      pods are healthy than it desires if it states a minimum. */
  lemma {:induction false} BudgetsExactly(budgets: seq<Budget>)
    ensures BudgetsAllow(budgets) <==>
              forall i :: 0 <= i < |budgets| && Applies(budgets[i]) && (forall j :: 0 <= j < i ==> !Applies(budgets[j])) ==>
                budgets[i].allowed > 0 && (budgets[i].hasMin ==> budgets[i].healthy > budgets[i].desired)
  {
    if budgets != [] && !Applies(budgets[0]) {
      BudgetsExactly(budgets[1..]);
      assert forall i :: 0 < i < |budgets| ==> budgets[i] == budgets[1..][i - 1];
      assert forall i :: 0 <= i < |budgets[1..]| ==> budgets[1..][i] == budgets[i + 1];
    }
  }

  ghost predicate Applies(b: Budget) {
    b.valid && !b.empty && b.matches
  }

  /** A pod deleted: off which node, when it was checked, the key found and whether it could
      be read, when the deletion was recorded, and whether that took effect. */
  datatype Move = Move(src: NodeState, pod: Pod, at: int, key: Option<Stamp>, readable: bool, done: int, written: bool)

  predicate RecentlyMoved(key: Option<Stamp>, window: int, now: int, readable: bool) {
    readable && key.Some? && now < key.value.deadline && Age(key.value, now) < window
  }

  function KeyOf(keys: map<nat, Stamp>, uid: nat): Option<Stamp> {
    if uid in keys then Some(keys[uid]) else None
  }

  /** The pods' keys in the store after these moves. */
  function Recorded(keys: map<nat, Stamp>, moves: seq<Move>): map<nat, Stamp> {
    if moves == [] then keys
    else
      var last, before := moves[|moves| - 1], Recorded(keys, moves[..|moves| - 1]);
      if last.written then before[last.pod.uid := StampAt(last.done, last.done)] else before
  }

  /** What a moved pod and its node satisfied when they were checked, given the keys then in
      the store. */
  ghost predicate Justified(m: Move, hotspot: bool, cfg: Config, keys: map<nat, Stamp>) {
    && BenefitExceedsCost(m.src, hotspot)
    && IsPodEligible(m.pod, cfg.MinAge(), m.at)
    && PdbAllowsDisruption(m.pod)
    && m.key == KeyOf(keys, m.pod.uid) && !RecentlyMoved(m.key, cfg.AntiThrash(), m.at, m.readable)
    && m.at <= m.done
  }

  ghost predicate AllJustified(moves: seq<Move>, hotspot: bool, cfg: Config, keys: map<nat, Stamp>) {
    forall k :: 0 <= k < |moves| ==> Justified(moves[k], hotspot, cfg, Recorded(keys, moves[..k]))
  }

  lemma OneMoreMove(moves: seq<Move>, m: Move, hotspot: bool, cfg: Config, keys: map<nat, Stamp>)
    requires AllJustified(moves, hotspot, cfg, keys) && Justified(m, hotspot, cfg, Recorded(keys, moves))
    ensures AllJustified(moves + [m], hotspot, cfg, keys)
    ensures Recorded(keys, moves + [m])
         == if m.written then Recorded(keys, moves)[m.pod.uid := StampAt(m.done, m.done)] else Recorded(keys, moves)
  {
    assert (moves + [m])[..|moves|] == moves;
    forall k | 0 <= k < |moves| ensures (moves + [m])[..k] == moves[..k] {
    }
  }

  ghost predicate AllFrom(moves: seq<Move>, sources: seq<NodeState>) {
    forall k :: 0 <= k < |moves| ==> moves[k].src in sources
  }

  /** Each pod is moved off a node above 90% on both resources, while another listed node is
      below 25% on both. */
  ghost predicate Warranted(moves: seq<Move>, states: seq<NodeState>) {
    forall k :: 0 <= k < |moves| ==>
      && CpuShare(moves[k].src) > 0.9 && MemShare(moves[k].src) > 0.9
      && exists f :: f in states && f != moves[k].src && CpuShare(f) < UNDERUSED && MemShare(f) < UNDERUSED
  }

  /** The key of a pod after some moves is that of its last one that was recorded. */
  lemma {:induction false} LastRecordedKey(keys: map<nat, Stamp>, moves: seq<Move>, i: nat)
    requires i < |moves| && moves[i].written
    requires forall k :: i < k < |moves| ==> moves[k].pod.uid != moves[i].pod.uid || !moves[k].written
    ensures KeyOf(Recorded(keys, moves), moves[i].pod.uid) == Some(StampAt(moves[i].done, moves[i].done))
  {
    if i < |moves| - 1 {
      assert moves[..|moves| - 1][i] == moves[i];
      LastRecordedKey(keys, moves[..|moves| - 1], i);
    }
  }

  /** No pod is moved back and forth: between a move that was recorded and the next one of the
      same pod lies the whole window, less the second that the key cannot tell, unless the
      key cannot be read or a day has passed. */
  lemma {:induction false} NoThrashing(moves: seq<Move>, hotspot: bool, cfg: Config, keys: map<nat, Stamp>, i: nat, j: nat)
    requires AllJustified(moves, hotspot, cfg, keys) && i < j < |moves|
    requires moves[i].pod.uid == moves[j].pod.uid && moves[i].written
    requires forall k :: i < k < j ==> moves[k].pod.uid != moves[i].pod.uid || !moves[k].written
    ensures !moves[j].readable || moves[j].at >= moves[i].done + DAY || moves[j].at - moves[i].done > cfg.AntiThrash() - SECOND
  {
    assert Justified(moves[j], hotspot, cfg, Recorded(keys, moves[..j]));
    LastRecordedKey(keys, moves[..j], i);
  }

  // ----- going through the pods -----

  /** What the store and the API server answer for one pod that is checked: whether its key
      can be read, whether its deletion succeeds, and whether recording that takes effect. */
  datatype Answer = Answer(readable: bool, deletes: bool, written: bool)

  /** One pod checked; it is moved if it passes the filters and its deletion succeeds. */
  datatype Try = Try(move: Move, deletes: bool)

  predicate Passes(m: Move, hotspot: bool, cfg: Config) {
    && IsPodEligible(m.pod, cfg.MinAge(), m.at) && PdbAllowsDisruption(m.pod)
    && !RecentlyMoved(m.key, cfg.AntiThrash(), m.at, m.readable)
    && BenefitExceedsCost(m.src, hotspot)
  }

  /** What passing the filters means: not of the system, old enough, with a controller but no
      daemon or stateful set, on an untainted node, never restarted; its first matching
      budget allows a disruption; no readable, unexpired key says it was moved within the
      window; and its node's shares above 65% add up to more than 60 points, or 30 while
      there is a hotspot. */
  lemma PassesExactly(m: Move, hotspot: bool, cfg: Config)
    ensures Passes(m, hotspot, cfg) <==>
              && !m.pod.system && m.at - m.pod.created >= (if cfg.minAge > 0 then cfg.minAge else 600 * 1000000000)
              && m.pod.owners != [] && (forall o :: o in m.pod.owners ==> o == ReplicaSet || o == OtherOwner)
              && !m.pod.onTainted && (forall r :: r in m.pod.restarts ==> r <= 0)
              && m.pod.budgets.Some?
              && (forall i :: 0 <= i < |m.pod.budgets.value| && Applies(m.pod.budgets.value[i])
                              && (forall j :: 0 <= j < i ==> !Applies(m.pod.budgets.value[j])) ==>
                    var b := m.pod.budgets.value[i];
                    b.allowed > 0 && (b.hasMin ==> b.healthy > b.desired))
              && (m.readable && m.key.Some? && m.at < m.key.value.deadline ==>
                    m.at - m.key.value.sec * 1000000000 >= if cfg.antiThrash > 0 then cfg.antiThrash else 3600 * 1000000000)
              && (var cpu, mem := CpuShare(m.src), MemShare(m.src);
                  (if cpu > 0.65 then cpu - 0.65 else 0.0) + (if mem > 0.65 then mem - 0.65 else 0.0) > if hotspot then 0.3 else 0.6)
  {
    if m.pod.budgets.Some? {
      BudgetsExactly(m.pod.budgets.value);
    }
  }

  /** The pods moved, of those checked. */
  function MovesOf(tries: seq<Try>, hotspot: bool, cfg: Config): seq<Move> {
    if tries == [] then []
    else
      var before, last := MovesOf(tries[..|tries| - 1], hotspot, cfg), tries[|tries| - 1];
      if last.deletes && Passes(last.move, hotspot, cfg) then before + [last.move] else before
  }

  /** Each pod is checked against the key then in the store, and answered as the world has it. */
  ghost predicate Answered(tries: seq<Try>, answers: nat -> Answer, hotspot: bool, cfg: Config, keys: map<nat, Stamp>) {
    tries != [] ==>
      var before, last := tries[..|tries| - 1], tries[|tries| - 1];
      && Answered(before, answers, hotspot, cfg, keys)
      && (var stored, uid := Recorded(keys, MovesOf(before, hotspot, cfg)), last.move.pod.uid;
          last.move.key == if uid in stored then Some(stored[uid]) else None)
      && last.move.readable == answers(|before|).readable && last.deletes == answers(|before|).deletes
      && last.move.written == answers(|before|).written
      && last.move.at <= last.move.done
  }

  lemma {:induction false} MovesJustified(tries: seq<Try>, answers: nat -> Answer, hotspot: bool, cfg: Config, keys: map<nat, Stamp>)
    requires Answered(tries, answers, hotspot, cfg, keys)
    ensures AllJustified(MovesOf(tries, hotspot, cfg), hotspot, cfg, keys)
  {
    if tries != [] {
      var before, last := tries[..|tries| - 1], tries[|tries| - 1];
      MovesJustified(before, answers, hotspot, cfg, keys);
      if last.deletes && Passes(last.move, hotspot, cfg) {
        OneMoreMove(MovesOf(before, hotspot, cfg), last.move, hotspot, cfg, keys);
      }
    }
  }

  lemma AnsweredOneMore(tries: seq<Try>, last: Try, answers: nat -> Answer, hotspot: bool, cfg: Config, keys: map<nat, Stamp>)
    requires Answered(tries, answers, hotspot, cfg, keys)
    requires last.move.key == KeyOf(Recorded(keys, MovesOf(tries, hotspot, cfg)), last.move.pod.uid)
    requires last.move.readable == answers(|tries|).readable && last.deletes == answers(|tries|).deletes
    requires last.move.written == answers(|tries|).written && last.move.at <= last.move.done
    ensures Answered(tries + [last], answers, hotspot, cfg, keys)
  {
    assert (tries + [last])[..|tries + [last]| - 1] == tries;
  }

  lemma MovesOneMore(tries: seq<Try>, last: Try, moves: bool, hotspot: bool, cfg: Config, keys: map<nat, Stamp>)
    requires moves == (last.deletes && Passes(last.move, hotspot, cfg))
    ensures var before := MovesOf(tries, hotspot, cfg);
            MovesOf(tries + [last], hotspot, cfg) == if moves then before + [last.move] else before
    ensures Recorded(keys, MovesOf(tries + [last], hotspot, cfg))
         == Store(Recorded(keys, MovesOf(tries, hotspot, cfg)), last.move, moves)
  {
    assert (tries + [last])[..|tries + [last]| - 1] == tries;
    RecordedOneMore(keys, MovesOf(tries, hotspot, cfg), last.move);
  }

  /** The keys after a pod was checked, and moved if it was. */
  function Store(keys: map<nat, Stamp>, m: Move, moves: bool): map<nat, Stamp> {
    if moves && m.written then keys[m.pod.uid := StampAt(m.done, m.done)] else keys
  }

  lemma RecordedOneMore(keys: map<nat, Stamp>, moves: seq<Move>, m: Move)
    ensures Recorded(keys, moves + [m]) == Store(Recorded(keys, moves), m, true)
  {
    assert (moves + [m])[..|moves + [m]| - 1] == moves;
  }

  /** A pod, and the overloaded node it is listed for. */
  datatype Candidate = Candidate(src: NodeState, pod: Pod)

  function CandidateOf(src: NodeState): Pod -> Candidate {
    (pod: Pod) => Candidate(src, pod)
  }

  /** The pods listed for one node; none if they cannot be listed. */
  function PodsOn(src: NodeState, pods: map<NodeName, seq<Pod>>): seq<Candidate> {
    if src.name in pods then Map(CandidateOf(src), pods[src.name]) else []
  }

  /** All pods of the nodes, in the order of the nodes and of their listings. */
  function Queue(sources: seq<NodeState>, pods: map<NodeName, seq<Pod>>): seq<Candidate> {
    if sources == [] then []
    else Queue(sources[..|sources| - 1], pods) + PodsOn(sources[|sources| - 1], pods)
  }

  function Checked(t: Try): Candidate {
    Candidate(t.move.src, t.move.pod)
  }

  /** The pods have been checked in the order of the queue, from its front. */
  ghost predicate InOrder(tries: seq<Try>, queue: seq<Candidate>) {
    Map(Checked, tries) <= queue
  }

  lemma InOrderOfMore(tries: seq<Try>, queue: seq<Candidate>, more: seq<Candidate>)
    requires InOrder(tries, queue) && queue <= more
    ensures InOrder(tries, more)
  {
  }

  lemma QueueOneMore(sources: seq<NodeState>, i: nat, pods: map<NodeName, seq<Pod>>)
    requires i < |sources|
    ensures Queue(sources[..i + 1], pods) == Queue(sources[..i], pods) + PodsOn(sources[i], pods)
  {
    assert sources[..i + 1][..i] == sources[..i];
  }

  lemma {:induction false} QueueGrows(sources: seq<NodeState>, i: nat, pods: map<NodeName, seq<Pod>>)
    requires i <= |sources|
    ensures Queue(sources[..i], pods) <= Queue(sources, pods)
    decreases |sources| - i
  {
    if i < |sources| {
      QueueOneMore(sources, i, pods);
      QueueGrows(sources, i + 1, pods);
    } else {
      assert sources[..i] == sources;
    }
  }

  lemma NextInOrder(tries: seq<Try>, last: Try, queue: seq<Candidate>)
    requires InOrder(tries, queue) && |tries| < |queue| && Checked(last) == queue[|tries|]
    ensures InOrder(tries + [last], queue)
  {
    MapAt(Checked, tries);
    MapOneMore(Checked, tries, last);
  }

  lemma StillInOrder(tries: seq<Try>, queue: seq<Candidate>, some: seq<Candidate>, more: seq<Candidate>)
    requires InOrder(tries, queue + some) && some <= more
    ensures InOrder(tries, queue + more)
  {
    assert queue + some <= queue + more;
  }

  lemma PrefixOfMap<T, U>(f: T -> U, s: seq<T>, k: nat)
    requires k <= |s|
    ensures Map(f, s[..k]) <= Map(f, s) && |Map(f, s[..k])| == k
  {
    MapAt(f, s[..k]);
    MapAt(f, s);
  }

  /** One more pod of a node has been checked, in its turn. */
  lemma TryOneMore(tries: seq<Try>, last: Try, moves: bool, queue: seq<Candidate>, src: NodeState, pods: seq<Pod>, k: nat,
                   answers: nat -> Answer, hotspot: bool, cfg: Config, keys: map<nat, Stamp>)
    requires k < |pods| && |tries| == |queue| + k && InOrder(tries, queue + Map(CandidateOf(src), pods[..k]))
    requires Answered(tries, answers, hotspot, cfg, keys) && Checked(last) == Candidate(src, pods[k])
    requires last.move.key == KeyOf(Recorded(keys, MovesOf(tries, hotspot, cfg)), last.move.pod.uid)
    requires last.move.readable == answers(|tries|).readable && last.deletes == answers(|tries|).deletes
    requires last.move.written == answers(|tries|).written && last.move.at <= last.move.done
    requires moves == (last.deletes && Passes(last.move, hotspot, cfg))
    ensures InOrder(tries + [last], queue + Map(CandidateOf(src), pods[..k + 1]))
    ensures Answered(tries + [last], answers, hotspot, cfg, keys)
    ensures |MovesOf(tries + [last], hotspot, cfg)| == |MovesOf(tries, hotspot, cfg)| + if moves then 1 else 0
    ensures Recorded(keys, MovesOf(tries + [last], hotspot, cfg))
         == Store(Recorded(keys, MovesOf(tries, hotspot, cfg)), last.move, moves)
  {
    PrefixOfMap(CandidateOf(src), pods, k);
    MapOneMore(CandidateOf(src), pods[..k], pods[k]);
    assert pods[..k + 1] == pods[..k] + [pods[k]];
    StillInOrder(tries, queue, Map(CandidateOf(src), pods[..k]), Map(CandidateOf(src), pods[..k + 1]));
    NextInOrder(tries, last, queue + Map(CandidateOf(src), pods[..k + 1]));
    AnsweredOneMore(tries, last, answers, hotspot, cfg, keys);
    MovesOneMore(tries, last, moves, hotspot, cfg, keys);
  }

  /** On the queue are all pods listed for the nodes, and nothing else. */
  lemma {:induction false} QueueExactly(sources: seq<NodeState>, pods: map<NodeName, seq<Pod>>)
    ensures forall c :: c in Queue(sources, pods) <==> c.src in sources && c.src.name in pods && c.pod in pods[c.src.name]
  {
    if sources != [] {
      var rest, last := sources[..|sources| - 1], sources[|sources| - 1];
      QueueExactly(rest, pods);
      assert sources == rest + [last];
      if last.name in pods {
        MapMembers(CandidateOf(last), pods[last.name]);
      }
      forall c ensures c in PodsOn(last, pods) <==> c.src == last && last.name in pods && c.pod in pods[last.name] {
        if last.name in pods && c.src == last && c.pod in pods[last.name] {
          assert CandidateOf(last)(c.pod) == c;
        }
      }
    }
  }

  lemma {:induction false} MovesFrom(tries: seq<Try>, sources: seq<NodeState>, hotspot: bool, cfg: Config)
    requires forall k :: 0 <= k < |tries| ==> tries[k].move.src in sources
    ensures AllFrom(MovesOf(tries, hotspot, cfg), sources)
  {
    if tries != [] {
      MovesFrom(tries[..|tries| - 1], sources, hotspot, cfg);
    }
  }
}
