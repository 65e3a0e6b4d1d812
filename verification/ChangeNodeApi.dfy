/** The change-node handler as it runs among other operations, each of its calls one
    step of the protocol in ChangeNode. */
module ChangeNodeApi {
  import opened Wrappers
  import opened SchedulerRepo
  import opened Sorting
  import opened ChangeNode

  const POLL_INTERVAL := 2000
  const POLL_TIMEOUT := 90000

  type PodName = nat
  type NodeName = nat

  /** A pod as listed; `service` is the name found in its labels. */
  datatype ApiPod = ApiPod(name: PodName, node: NodeName, service: Option<Service>, running: bool, ready: bool)

  datatype Outcome =
    | Conflict
    | ScaleError
    | Timeout
    | Moved(replacement: ApiPod)

  /** No pod matches an operation whose service name is unknown. */
  predicate LabelsMatchService(p: ApiPod, service: Option<Service>) {
    service.Some? && p.service == service
  }

  predicate IsReplacement(p: ApiPod, moving: PodName, target: NodeName, service: Option<Service>) {
    p.name != moving && p.node == target && LabelsMatchService(p, service) && p.running && p.ready
  }

  /** What the wait for a replacement meets: the answer to each of its listings in turn, and
      how much longer than the interval each round takes. */
  datatype Polls = Polls(listings: nat -> Option<seq<ApiPod>>, delays: nat -> nat)

  /** How long the first n rounds take, of two seconds and their delay each. */
  function Elapsed(polls: Polls, n: nat): nat {
    if n == 0 then 0 else Elapsed(polls, n - 1) + 2000 + polls.delays(n - 1)
  }

  /** The k-th listing is asked for, unless a replacement came before: the timeout has not
      passed when its round begins. */
  predicate InTime(polls: Polls, k: nat) {
    Elapsed(polls, k) < 90000
  }

  /** Some pod of the k-th listing is another one of the service, on the target, running
      and ready. */
  ghost predicate Shows(polls: Polls, k: nat, moving: PodName, target: NodeName, service: Option<Service>) {
    && polls.listings(k).Some? && service.Some?
    && exists p :: p in polls.listings(k).value
                   && p.name != moving && p.node == target && p.service == service && p.running && p.ready
  }

  /** What a poll comes back with: a pod that qualifies, if its listing shows one. */
  ghost predicate FoundAt(found: Option<ApiPod>, polls: Polls, k: nat, moving: PodName, target: NodeName, service: Option<Service>) {
    && (found.Some? <==> Shows(polls, k, moving, target, service))
    && (found.Some? ==>
          var p := found.value;
          && polls.listings(k).Some? && p in polls.listings(k).value
          && p.name != moving && p.node == target && service.Some? && p.service == service && p.running && p.ready)
  }

  /** None of the first n listings shows a replacement. */
  ghost predicate NoneShown(polls: Polls, n: nat, moving: PodName, target: NodeName, service: Option<Service>) {
    n > 0 ==> NoneShown(polls, n - 1, moving, target, service) && !Shows(polls, n - 1, moving, target, service)
  }

  lemma {:induction false} NoneShownAt(polls: Polls, n: nat, k: nat, moving: PodName, target: NodeName, service: Option<Service>)
    requires NoneShown(polls, n, moving, target, service) && k < n
    ensures !Shows(polls, k, moving, target, service)
  {
    if k < n - 1 {
      NoneShownAt(polls, n - 1, k, moving, target, service);
    }
  }

  /** After so many rounds: none has shown a replacement, or only the last one, which was in time. */
  ghost predicate Polled(found: Option<ApiPod>, rounds: nat, polls: Polls, moving: PodName, target: NodeName, service: Option<Service>) {
    match found
    case None => NoneShown(polls, rounds, moving, target, service)
    case Some(_) => rounds > 0 && InTime(polls, rounds - 1) && FoundAt(found, polls, rounds - 1, moving, target, service)
  }

  lemma LateStaysLate(polls: Polls, k: nat, j: nat)
    requires !InTime(polls, k) && k <= j
    ensures !InTime(polls, j)
  {
    if k < j {
      LateStaysLate(polls, k, j - 1);
    }
  }

  /** The operation ends with a move exactly if it has waited and a listing that was asked for
      in time shows a replacement. */
  ghost predicate EndsRight(out: Outcome, waited: bool, moving: PodName, target: NodeName, service: Option<Service>, polls: Polls) {
    && (out.Moved? || out.Timeout? <==> waited)
    && (out.Moved? <==> waited && exists k: nat :: InTime(polls, k) && Shows(polls, k, moving, target, service))
    && (out.Moved? ==>
          var p := out.replacement;
          && p.name != moving && p.node == target && service.Some? && p.service == service && p.running && p.ready)
  }

  function IsBy(me: nat): Step -> bool {
    (l: Step) => Actor(l) == Some(me)
  }

  /** The steps of one operation, in order. */
  ghost function Own(steps: seq<Step>, me: nat): seq<Step> {
    Filter(IsBy(me), steps)
  }

  lemma OwnOneMore(steps: seq<Step>, l: Step, me: nat)
    ensures Own(steps + [l], me) == Own(steps, me) + if Actor(l) == Some(me) then [l] else []
  {
    assert (steps + [l])[..|steps + [l]| - 1] == steps;
  }

  /** A lost message that cuts the operation's scaling short. */
  predicate CutsShort(l: Step) {
    (l.ScaleUp? && l.reply.ReplyLost?) || (l.ScaleBack? && l.reply.RequestLost?)
  }

  /** A lost message that may leave a lock behind. */
  predicate KeepsLock(l: Step) {
    (l.Acquire? && l.reply.ReplyLost?) || (l.Release? && l.reply.RequestLost?)
  }

  ghost predicate SomeCut(steps: seq<Step>) {
    exists l :: l in steps && CutsShort(l)
  }

  ghost predicate SomeLockKept(steps: seq<Step>) {
    exists l :: l in steps && KeepsLock(l)
  }

  /** How far an operation gets once it has its lock: it cannot count the replicas, its
      scale-up is not confirmed, or it scales up and back. */
  datatype Course = NotCounted | NotScaled(up: Reply) | Scaled(up: Reply, back: Reply)

  function ScalingSteps(me: nat, count: Reply, course: Course): seq<Step> {
    [CountReplicas(me, count)] + AfterCount(me, course)
  }

  function AfterCount(me: nat, course: Course): seq<Step> {
    match course
    case NotCounted => []
    case NotScaled(up) => [ScaleUp(me, up)]
    case Scaled(up, back) => [ScaleUp(me, up), Decide(me), ScaleBack(me, back)]
  }

  /** The course leaves a replica behind. */
  predicate LeavesReplica(course: Course) {
    match course
    case NotCounted => false
    case NotScaled(up) => up.ReplyLost?
    case Scaled(_, back) => back.RequestLost?
  }

  predicate ProperCourse(course: Course) {
    match course
    case NotCounted => true
    case NotScaled(up) => !up.Delivered?
    case Scaled(up, _) => up.Delivered?
  }

  /** A whole operation: it is refused the lock, or takes its course and releases it. */
  datatype Whole = Refused(acquire: Reply) | Ran(acquire: Reply, count: Reply, course: Course, release: Reply)

  function StepsOf(me: nat, d: Deployment, w: Whole): seq<Step> {
    [Begin(me, d), Acquire(me, w.acquire)] +
    match w
    case Refused(_) => []
    case Ran(_, count, course, release) => ScalingSteps(me, count, course) + [Release(me, release)]
  }

  lemma LossesOfWhole(me: nat, d: Deployment, w: Whole)
    requires w.Ran? ==> ProperCourse(w.course)
    ensures var steps := StepsOf(me, d, w);
            && (SomeCut(steps) <==> w.Ran? && LeavesReplica(w.course))
            && (SomeLockKept(steps) <==> w.acquire.ReplyLost? || (w.Ran? && w.release.RequestLost?))
            && (Decide(me) in steps <==> w.Ran? && w.course.Scaled?)
            && (|steps| == 2 <==> w.Refused?)
  {
    var steps := StepsOf(me, d, w);
    assert Acquire(me, w.acquire) in steps;
    if w.Ran? {
      assert Release(me, w.release) in steps;
      match w.course
      case NotCounted =>
      case NotScaled(up) => assert ScaleUp(me, up) in steps;
      case Scaled(up, back) => assert Decide(me) in steps && ScaleBack(me, back) in steps;
    }
  }

  /** The message of a step fares as the network has it for the k-th step of the run. */
  predicate AnsweredBy(network: nat -> Reply, k: nat, l: Step) {
    match l
    case Acquire(_, reply) => reply == network(k)
    case CountReplicas(_, reply) => reply == network(k)
    case ScaleUp(_, reply) => reply == network(k)
    case ScaleBack(_, reply) => reply == network(k)
    case Release(_, reply) => reply == network(k)
    case _ => true
  }

  ghost predicate AllAnswered(network: nat -> Reply, steps: seq<Step>) {
    forall k: nat {:trigger AnsweredBy(network, k, steps[k])} :: k < |steps| ==> AnsweredBy(network, k, steps[k])
  }

  lemma OneMoreAnswer(network: nat -> Reply, steps: seq<Step>, l: Step)
    requires AllAnswered(network, steps) && AnsweredBy(network, |steps|, l)
    ensures AllAnswered(network, steps + [l])
  {
    forall k: nat | k < |steps + [l]| ensures AnsweredBy(network, k, (steps + [l])[k]) {
      assert k < |steps| ==> AnsweredBy(network, k, steps[k]);
    }
  }

  class Api {
    const network: nat -> Reply
    var taken: nat
    var replicas: map<Deployment, Option<int>>
    var locks: map<Service, Lock>
    var now: int
    var ops: map<nat, Operation>
    var latest: map<Deployment, nat>
    var intruded: set<Deployment>
    const service: map<Deployment, Service>
    const base: map<Deployment, int>
    // the pods whose deletion was requested, by whichever operation
    var deletions: seq<(nat, PodName)>
    // the run so far
    ghost var origin: Sys
    ghost var trace: seq<Step>

    function View(): Sys
      reads this`replicas, this`locks, this`now, this`ops, this`latest, this`intruded
    {
      Sys(replicas, locks, now, ops, service, base, latest, intruded)
    }

    ghost predicate Valid()
      reads this
    {
      Init(origin) && View() == Run(origin, trace) && Answered()
    }

    ghost predicate Answered()
      reads this`taken, this`trace
    {
      taken == |trace| && AllAnswered(network, trace)
    }

    constructor (replicas: map<Deployment, Option<int>>, service: map<Deployment, Service>, network: nat -> Reply)
      ensures Valid() && View() == origin && trace == [] && deletions == []
      ensures this.replicas == replicas && this.service == service && this.network == network
    {
      this.replicas, this.service, this.network, taken := replicas, service, network, 0;
      locks, now, ops, latest, intruded, deletions := map[], 0, map[], map[], {}, [];
      base := map d | d in replicas :: CountOf(replicas[d]);
      origin := Sys(replicas, map[], 0, map[], service, map d | d in replicas :: CountOf(replicas[d]), map[], {});
      trace := [];
    }

    /** The store and the books take on this state. */
    method Become(after: Sys)
      requires after.service == service && after.base == base
      modifies this`replicas, this`locks, this`now, this`ops, this`latest, this`intruded
      ensures View() == after
    {
      replicas, locks, now, ops := after.replicas, after.locks, after.now, after.ops;
      latest, intruded := after.latest, after.intruded;
    }

    /** Takes a step. */
    method Note(ghost before: Sys, after: Sys, ghost l: Step)
      requires Init(origin) && before == Run(origin, trace) && after == Apply(before, l)
      requires Answered() && AnsweredBy(network, taken, l)
      requires after.service == service && after.base == base
      modifies this`replicas, this`locks, this`now, this`ops, this`latest, this`intruded, this`taken, this`trace
      ensures Valid() && View() == after && trace == old(trace) + [l]
      ensures forall me: nat :: Own(trace, me) == Own(old(trace), me) + if Actor(l) == Some(me) then [l] else []
    {
      Become(after);
      Settle(before, l);
    }

    static lemma OthersUntouched(s: Sys, l: Step, me: nat)
      requires Actor(l) != Some(me)
      ensures me in Apply(s, l).ops <==> me in s.ops
      ensures me in s.ops ==> Apply(s, l).ops[me] == s.ops[me]
      ensures s.now <= Apply(s, l).now && Apply(s, l).replicas.Keys == s.replicas.Keys
      ensures Apply(s, l).service == s.service && Apply(s, l).base == s.base
    {
    }

    /** Other operations, expiries and the clock take any number of steps. */
    method Interfere(me: nat)
      requires Valid()
      modifies this`replicas, this`locks, this`now, this`ops, this`latest, this`intruded, this`taken, this`trace
      ensures Valid() && old(trace) <= trace && old(now) <= now && replicas.Keys == old(replicas.Keys)
      ensures Own(trace, me) == old(Own(trace, me))
      ensures me in ops <==> me in old(ops)
      ensures me in ops ==> ops[me] == old(ops[me])
    {
      var rounds: nat := *;
      while rounds > 0
        invariant Valid() && old(trace) <= trace && old(now) <= now && replicas.Keys == old(replicas.Keys)
        invariant Own(trace, me) == old(Own(trace, me))
        invariant me in ops <==> me in old(ops)
        invariant me in ops ==> ops[me] == old(ops[me])
      {
        var l: Step := *;
        if Actor(l) != Some(me) && AnsweredBy(network, taken, l) {
          OthersUntouched(View(), l, me);
          Note(View(), Apply(View(), l), l);
        }
        rounds := rounds - 1;
      }
    }

    /** The store and the books now show what step l does. */
    method Settle(ghost before: Sys, ghost l: Step)
      requires Init(origin) && before == Run(origin, trace) && View() == Apply(before, l)
      requires Answered() && AnsweredBy(network, taken, l)
      modifies this`taken, this`trace
      ensures Valid() && trace == old(trace) + [l]
      ensures forall me: nat :: Own(trace, me) == Own(old(trace), me) + if Actor(l) == Some(me) then [l] else []
    {
      OneMoreAnswer(network, trace, l);
      trace, taken := trace + [l], taken + 1;
      RunOneMore(origin, old(trace), l);
      forall me: nat ensures Own(trace, me) == Own(old(trace), me) + if Actor(l) == Some(me) then [l] else [] {
        OwnOneMore(old(trace), l, me);
      }
    }

    method Started(me: nat, d: Deployment)
      requires Valid() && me !in ops
      modifies this`ops, this`taken, this`trace
      ensures Valid() && old(trace) <= trace
      ensures Own(trace, me) == old(Own(trace, me)) + [Begin(me, d)]
      ensures ops == old(ops)[me := Operation(d, now, Pc.Begun, false)]
    {
      ghost var before := View();
      ops := ops[me := Operation(d, now, Pc.Begun, false)];
      Settle(before, Begin(me, d));
    }

    /** SET NX of the operation's UUID; an operation whose service is unknown goes on without. */
    method AcquireChangeNodeLock(me: nat, d: Deployment) returns (ok: bool, reply: Reply)
      requires Valid() && me in ops && ops[me].pc.Begun? && ops[me].deployment == d
      modifies this`replicas, this`locks, this`now, this`ops, this`latest, this`intruded, this`taken, this`trace
      ensures Valid() && old(trace) <= trace
      ensures Own(trace, me) == old(Own(trace, me)) + [Acquire(me, reply)]
      ensures me in ops && ops[me] == old(ops[me]).(pc := if ok then Admitted else Done, since := ops[me].since)
      ensures !ok ==> d in service && (!reply.ReplyLost? ==> NotOwner(me))
      ensures d !in service ==> ok
    {
      Interfere(me);
      ghost var before, steps := View(), trace;
      ok, reply := AcquireNow(me, d);
      if !ok && !reply.ReplyLost? {
        RefusedOwnsNothing(before, origin, steps, me, reply);
      }
    }

    method AcquireNow(me: nat, d: Deployment) returns (ok: bool, reply: Reply)
      requires Valid() && me in ops && ops[me].pc.Begun? && ops[me].deployment == d
      modifies this`locks, this`ops, this`latest, this`intruded, this`taken, this`trace
      ensures Valid() && trace == old(trace) + [Acquire(me, reply)]
      ensures Own(trace, me) == old(Own(trace, me)) + [Acquire(me, reply)]
      ensures me in ops && ops[me] == old(ops[me]).(pc := if ok then Admitted else Done, since := ops[me].since)
      ensures !ok ==> d in service
      ensures d !in service ==> ok
      ensures locks == Apply(old(View()), Acquire(me, reply)).locks
    {
      ghost var before := View();
      reply := network(taken);
      ok := TakeLock(me, d, reply);
      AcquireEffect(before, me, reply);
      Settle(before, Acquire(me, reply));
    }

    /** Sets the lock, if there is one to set and it is free, and books how that ended. */
    method TakeLock(me: nat, d: Deployment, reply: Reply) returns (ok: bool)
      requires me in ops && ops[me].deployment == d
      modifies this`locks, this`ops, this`latest, this`intruded
      ensures var locked := d in service && service[d] !in old(locks) && !reply.RequestLost?;
              && ok == (d !in service || (locked && reply.Delivered?))
              && locks == (if locked then old(locks)[service[d] := Lock(me, now + LOCK_TTL)] else old(locks))
      ensures ops == old(ops)[me := old(ops)[me].(pc := if ok then Admitted else Done, since := now)]
      ensures latest == if ok then old(latest)[d := me] else old(latest)
      ensures intruded == if ok && old(IsBusy(d)) then old(intruded) + {d} else old(intruded)
    {
      var busy := IsBusy(d);
      var locked := SetNX(me, d, reply);
      ok := d !in service || (locked && reply.Delivered?);
      BookAdmission(me, d, ok, busy);
    }

    predicate IsBusy(d: Deployment)
      reads this`latest, this`ops
    {
      d in latest && latest[d] in ops && Working(ops[latest[d]].pc)
    }

    static lemma AcquireEffect(s: Sys, me: nat, reply: Reply)
      requires me in s.ops && s.ops[me].pc.Begun?
      ensures var t, op := Apply(s, Acquire(me, reply)), s.ops[me];
              var d := op.deployment;
              var locked := Takes(s, d, reply);
              var ok := d !in s.service || (locked && reply.Delivered?);
              && t.replicas == s.replicas && t.now == s.now && t.service == s.service && t.base == s.base
              && t.locks == (if locked then s.locks[s.service[d] := Lock(me, s.now + LOCK_TTL)] else s.locks)
              && t.ops == s.ops[me := op.(pc := if ok then Admitted else Done, since := s.now)]
              && t.latest == (if ok then s.latest[d := me] else s.latest)
              && t.intruded == (if ok && Busy(s, d) then s.intruded + {d} else s.intruded)
    {
    }

    /** SET NX of the lock key with its time to live. */
    method SetNX(me: nat, d: Deployment, reply: Reply) returns (locked: bool)
      modifies this`locks
      ensures locked == (d in service && service[d] !in old(locks) && !reply.RequestLost?)
      ensures locks == if locked then old(locks)[service[d] := Lock(me, now + 2 * 60 * 1000)] else old(locks)
    {
      locked := d in service && service[d] !in locks && !reply.RequestLost?;
      if locked {
        locks := locks[service[d] := Lock(me, now + LOCK_TTL)];
      }
    }

    /** Books how the attempt ended. */
    method BookAdmission(me: nat, d: Deployment, ok: bool, busy: bool)
      requires me in ops
      modifies this`ops, this`latest, this`intruded
      ensures ops == old(ops)[me := old(ops)[me].(pc := if ok then Admitted else Done, since := now)]
      ensures latest == if ok then old(latest)[d := me] else old(latest)
      ensures intruded == if ok && busy then old(intruded) + {d} else old(intruded)
    {
      if ok {
        latest := latest[d := me];
        intruded := if busy then intruded + {d} else intruded;
      }
      ops := ops[me := ops[me].(pc := if ok then Admitted else Done, since := now)];
    }

    /** The operation owns no lock. */
    ghost predicate NotOwner(me: nat)
      reads this
    {
      forall svc :: svc in locks ==> locks[svc].owner != me
    }

    static lemma RefusedOwnsNothing(s: Sys, init: Sys, steps: seq<Step>, me: nat, reply: Reply)
      requires Init(init) && s == Run(init, steps) && me in s.ops && s.ops[me].pc.Begun? && !reply.ReplyLost?
      ensures var t := Apply(s, Acquire(me, reply));
              me in t.ops && t.ops[me].pc.Done? ==> forall svc :: svc in t.locks ==> t.locks[svc].owner != me
    {
      ReachableInv(init, steps);
      forall svc | svc in s.locks ensures s.locks[svc].owner != me {
        assert LockExact(s, svc);
      }
    }

    method GetDeployment(me: nat, d: Deployment) returns (original: Option<int>, reply: Reply)
      requires Valid() && me in ops && ops[me].pc.Admitted? && ops[me].deployment == d
      modifies this`replicas, this`locks, this`now, this`ops, this`latest, this`intruded, this`taken, this`trace
      ensures Valid() && old(trace) <= trace
      ensures Own(trace, me) == old(Own(trace, me)) + [CountReplicas(me, reply)]
      ensures me in ops && ops[me] == old(ops[me]).(pc := match original case None => Releasing case Some(n) => Counted(n))
      ensures original.Some? <==> reply.Delivered? && d in replicas
      ensures original.Some? ==> original.value == match replicas[d] case None => 1 case Some(n) => n
    {
      Interfere(me);
      ghost var before := View();
      reply := network(taken);
      original := if reply.Delivered? && d in replicas then Some(CountOf(replicas[d])) else None;
      ops := ops[me := ops[me].(pc := match original case None => Releasing case Some(n) => Counted(n))];
      Settle(before, CountReplicas(me, reply));
    }

    method ScaleUpTo(me: nat, d: Deployment, count: int) returns (reply: Reply)
      requires Valid() && me in ops && ops[me].pc.Counted? && ops[me].deployment == d && d in replicas
      requires count == ops[me].pc.original + 1
      modifies this`replicas, this`locks, this`now, this`ops, this`latest, this`intruded, this`taken, this`trace
      ensures Valid() && old(trace) <= trace
      ensures Own(trace, me) == old(Own(trace, me)) + [ScaleUp(me, reply)]
      ensures me in ops && replicas.Keys == old(replicas.Keys)
      ensures ops[me] == old(ops[me]).(pc := if reply.Delivered? then ScaledUp(count - 1) else Releasing,
                                       left := old(ops[me].left) || reply.ReplyLost?)
    {
      Interfere(me);
      ghost var before := View();
      reply := network(taken);
      if !reply.RequestLost? {
        replicas := replicas[d := Some(count)];
      }
      ops := ops[me := ops[me].(pc := if reply.Delivered? then ScaledUp(count - 1) else Releasing,
                                left := ops[me].left || reply.ReplyLost?)];
      Settle(before, ScaleUp(me, reply));
    }

    static lemma ClockOnlyPasses(s: Sys, l: Step)
      ensures Apply(s, l).now == s.now + if l.Pass? then l.ms else 0
    {
    }

    /** Exactly this much time passes, and whatever the others do in it. */
    method Sleep(me: nat, ms: nat)
      requires Valid()
      modifies this`replicas, this`locks, this`now, this`ops, this`latest, this`intruded, this`taken, this`trace
      ensures Valid() && old(trace) <= trace && now == old(now) + ms && replicas.Keys == old(replicas.Keys)
      ensures Own(trace, me) == old(Own(trace, me))
      ensures me in ops <==> me in old(ops)
      ensures me in ops ==> ops[me] == old(ops[me])
    {
      var rest: nat := ms;
      var rounds: nat := *;
      while rounds > 0
        invariant Valid() && old(trace) <= trace && now + rest == old(now) + ms && replicas.Keys == old(replicas.Keys)
        invariant Own(trace, me) == old(Own(trace, me))
        invariant me in ops <==> me in old(ops)
        invariant me in ops ==> ops[me] == old(ops[me])
      {
        var l: Step := *;
        if Actor(l) != Some(me) && AnsweredBy(network, taken, l) && (l.Pass? ==> l.ms <= rest) {
          OthersUntouched(View(), l, me);
          ClockOnlyPasses(View(), l);
          Note(View(), Apply(View(), l), l);
          rest := if l.Pass? then rest - l.ms else rest;
        }
        rounds := rounds - 1;
      }
      Note(View(), Apply(View(), Pass(rest)), Pass(rest));
    }

    /** One round of polling: waits, and looks for a replacement in the listing that follows. */
    method PollOnce(me: nat, moving: PodName, target: NodeName, name: Option<Service>, polls: Polls, k: nat)
      returns (found: Option<ApiPod>)
      requires Valid() && me in ops
      modifies this`replicas, this`locks, this`now, this`ops, this`latest, this`intruded, this`taken, this`trace
      ensures Valid() && old(trace) <= trace && replicas.Keys == old(replicas.Keys)
      ensures now == old(now) + POLL_INTERVAL + polls.delays(k)
      ensures Own(trace, me) == old(Own(trace, me))
      ensures me in ops && ops[me] == old(ops[me])
      ensures FoundAt(found, polls, k, moving, target, name)
    {
      Sleep(me, POLL_INTERVAL + polls.delays(k));
      var listing := polls.listings(k);
      found := None;
      if listing.Some? {
        found := FindReplacement(listing.value, moving, target, name);
      }
    }

    /** The polling: how many rounds it takes, and the replacement, if the last one showed any. */
    method Poll(me: nat, moving: PodName, target: NodeName, name: Option<Service>, polls: Polls)
      returns (found: Option<ApiPod>, rounds: nat)
      requires Valid() && me in ops
      modifies this`replicas, this`locks, this`now, this`ops, this`latest, this`intruded, this`taken, this`trace
      ensures Valid() && old(trace) <= trace && replicas.Keys == old(replicas.Keys)
      ensures Own(trace, me) == old(Own(trace, me))
      ensures me in ops && ops[me] == old(ops[me])
      ensures Polled(found, rounds, polls, moving, target, name)
      ensures found.None? ==> !InTime(polls, rounds) && old(now) + POLL_TIMEOUT <= now
    {
      var deadline := now + POLL_TIMEOUT;
      found, rounds := None, 0;
      while found.None? && now < deadline
        invariant Valid() && old(trace) <= trace && replicas.Keys == old(replicas.Keys)
        invariant Own(trace, me) == old(Own(trace, me))
        invariant me in ops && ops[me] == old(ops[me])
        invariant now == old(now) + Elapsed(polls, rounds)
        invariant Polled(found, rounds, polls, moving, target, name)
        decreases deadline - now
      {
        found := PollOnce(me, moving, target, name, polls, rounds);
        rounds := rounds + 1;
      }
    }

    /** Polls until a listing shows a replacement, or the timeout has passed. A replacement
        is found exactly if one of the listings that are asked for in time shows one: it is
        another pod of the service, on the target, running and ready. */
    method AwaitReplacement(me: nat, moving: PodName, target: NodeName, name: Option<Service>, polls: Polls)
      returns (found: Option<ApiPod>)
      requires Valid() && me in ops && ops[me].pc.ScaledUp?
      modifies this`replicas, this`locks, this`now, this`ops, this`latest, this`intruded, this`taken, this`trace
      ensures Valid() && old(trace) <= trace && replicas.Keys == old(replicas.Keys)
      ensures Own(trace, me) == old(Own(trace, me)) + [Decide(me)]
      ensures me in ops && ops[me] == old(ops[me]).(pc := Decided(old(ops[me].pc.original)))
      ensures found.Some? <==> exists k: nat :: InTime(polls, k) && Shows(polls, k, moving, target, name)
      ensures found.Some? ==>
                var p := found.value;
                && p.name != moving && p.node == target && name.Some? && p.service == name && p.running && p.ready
                && exists k: nat :: InTime(polls, k) && polls.listings(k).Some? && p in polls.listings(k).value
      ensures found.None? ==> old(now) + POLL_TIMEOUT <= now
    {
      var rounds;
      found, rounds := Poll(me, moving, target, name, polls);
      FoundInTime(found, rounds, moving, target, name, polls);
      Interfere(me);
      ghost var before := View();
      ops := ops[me := ops[me].(pc := Decided(ops[me].pc.original))];
      Settle(before, Decide(me));
    }

    static lemma FoundInTime(found: Option<ApiPod>, rounds: nat, moving: PodName, target: NodeName, name: Option<Service>, polls: Polls)
      requires Polled(found, rounds, polls, moving, target, name) && (found.None? ==> !InTime(polls, rounds))
      ensures found.Some? <==> exists k: nat :: InTime(polls, k) && Shows(polls, k, moving, target, name)
    {
      if found.None? {
        forall k: nat | InTime(polls, k) ensures !Shows(polls, k, moving, target, name) {
          if rounds <= k {
            LateStaysLate(polls, rounds, k);
          } else {
            NoneShownAt(polls, rounds, k, moving, target, name);
          }
        }
      }
    }

    /** `scaleDeployment` back to the count read at the beginning. */
    method ScaleBackTo(me: nat, d: Deployment, count: int) returns (reply: Reply)
      requires Valid() && me in ops && ops[me].pc.Decided? && ops[me].deployment == d && d in replicas
      requires count == ops[me].pc.original
      modifies this`replicas, this`locks, this`now, this`ops, this`latest, this`intruded, this`taken, this`trace
      ensures Valid() && old(trace) <= trace
      ensures Own(trace, me) == old(Own(trace, me)) + [ScaleBack(me, reply)]
      ensures me in ops && ops[me] == old(ops[me]).(pc := Releasing, left := old(ops[me].left) || reply.RequestLost?)
    {
      Interfere(me);
      ghost var before := View();
      reply := network(taken);
      if !reply.RequestLost? {
        replicas := replicas[d := Some(count)];
      }
      ops := ops[me := ops[me].(pc := Releasing, left := ops[me].left || reply.RequestLost?)];
      Settle(before, ScaleBack(me, reply));
    }

    /** DEL, if the lock still carries the operation's UUID. */
    method ReleaseChangeNodeLock(me: nat, d: Deployment) returns (reply: Reply)
      requires Valid() && me in ops && ops[me].pc.Releasing? && ops[me].deployment == d
      modifies this`replicas, this`locks, this`now, this`ops, this`latest, this`intruded, this`taken, this`trace
      ensures Valid() && old(trace) <= trace
      ensures Own(trace, me) == old(Own(trace, me)) + [Release(me, reply)]
      ensures me in ops && ops[me] == old(ops[me]).(pc := Done)
      ensures !reply.RequestLost? ==> NotOwner(me)
    {
      Interfere(me);
      ghost var before := View();
      OwnsAtMostOne(before, origin, trace, me);
      reply := network(taken);
      if d in service && service[d] in locks && locks[service[d]].owner == me && !reply.RequestLost? {
        locks := locks - {service[d]};
      }
      ops := ops[me := ops[me].(pc := Done)];
      Settle(before, Release(me, reply));
    }

    static lemma OwnsAtMostOne(s: Sys, init: Sys, steps: seq<Step>, me: nat)
      requires Init(init) && s == Run(init, steps) && me in s.ops
      ensures forall svc :: svc in s.locks && s.locks[svc].owner == me ==>
                s.ops[me].deployment in s.service && s.service[s.ops[me].deployment] == svc
    {
      ReachableInv(init, steps);
      forall svc | svc in s.locks && s.locks[svc].owner == me
        ensures s.ops[me].deployment in s.service && s.service[s.ops[me].deployment] == svc
      {
        assert LockExact(s, svc);
      }
    }

    /** What the operation itself has done since the trace was this long. */
    ghost function OwnSince(length: nat, me: nat): seq<Step>
      reads this
      requires length <= |trace|
    {
      Own(trace[length..], me)
    }

    lemma OwnSteps(before: seq<Step>, me: nat, mine: seq<Step>)
      requires before <= trace && Own(trace, me) == Own(before, me) + mine
      ensures OwnSince(|before|, me) == mine
    {
      var since := OwnSince(|before|, me);
      assert trace == before + trace[|before|..];
      FilterOfConcat(IsBy(me), before, trace[|before|..]);
      assert mine == Own(trace, me)[|Own(before, me)|..] == since;
    }

    /** Moves a pod to the target node: under the service's lock, scales up, waits for the
        replacement, has the old pod deleted, and scales back.

        Whatever interferes, the operation ends. It leaves an extra replica behind exactly
        when the reply to its scale-up or its scale-back request was lost, and its lock
        exactly when the reply to its locking or its release request was, on a lock it had
        taken, and that has not run out. If it comes to waiting, it succeeds exactly when a
        listing that is asked for in time shows a replacement: another pod of the service, on
        the target, running and ready; then and only then the old pod's deletion is
        requested. The deployment's count is exact as long as the service is not intruded on. */
    method ChangeNode(me: nat, d: Deployment, moving: PodName, target: NodeName, polls: Polls) returns (out: Outcome)
      requires Valid() && me !in ops
      modifies this`replicas, this`locks, this`now, this`ops, this`latest, this`intruded, this`taken, this`trace, this`deletions
      ensures Valid() && old(trace) <= trace
      ensures me in ops && ops[me].deployment == d && ops[me].pc.Done?
      ensures ops[me].left <==> SomeCut(OwnSince(|old(trace)|, me))
      ensures forall svc: Service :: svc in locks && locks[svc].owner == me <==> LeftInPlace(origin, trace, me, svc)
      ensures !SomeLockKept(OwnSince(|old(trace)|, me)) ==> NotOwner(me)
      ensures ops[me].left ==> !out.Conflict?
      ensures deletions == if out.Moved? then old(deletions) + [(me, moving)] else old(deletions)
      ensures out.Moved? ==>
                && d in service && out.replacement.name != moving && out.replacement.node == target
                && out.replacement.service == Some(service[d]) && out.replacement.running && out.replacement.ready
      ensures out.Moved? || out.Timeout? <==> Decide(me) in OwnSince(|old(trace)|, me)
      ensures out.Moved? || out.Timeout? ==>
                (out.Moved? <==>
                   d in service && exists k: nat :: InTime(polls, k) && Shows(polls, k, moving, target, Some(service[d])))
      ensures out.Conflict? <==> |OwnSince(|old(trace)|, me)| == 2
      ensures d !in service ==> !out.Moved? && !out.Conflict?
      ensures CountExact(View(), d, |Leavers(View(), d)|)
    {
      ghost var w;
      out, w := WholeMove(me, d, moving, target, polls);
      OwnSteps(old(trace), me, StepsOf(me, d, w));
      LossesOfWhole(me, d, w);
      ReachableInv(origin, trace);
      forall svc: Service {
        OrphanedExactly(origin, trace, me, svc);
      }
    }

    /** The whole operation, and how it went. */
    method WholeMove(me: nat, d: Deployment, moving: PodName, target: NodeName, polls: Polls) returns (out: Outcome, ghost w: Whole)
      requires Valid() && me !in ops
      modifies this`replicas, this`locks, this`now, this`ops, this`latest, this`intruded, this`taken, this`trace, this`deletions
      ensures Valid() && old(trace) <= trace
      ensures Own(trace, me) == old(Own(trace, me)) + StepsOf(me, d, w)
      ensures me in ops && ops[me].deployment == d && ops[me].pc.Done?
      ensures ops[me].left <==> w.Ran? && LeavesReplica(w.course)
      ensures w.Ran? ==> ProperCourse(w.course)
      ensures (if w.Refused? then !w.acquire.ReplyLost? else !w.release.RequestLost?) ==> NotOwner(me)
      ensures deletions == if out.Moved? then old(deletions) + [(me, moving)] else old(deletions)
      ensures EndsRight(out, w.Ran? && w.course.Scaled?, moving, target, NameOf(d), polls)
      ensures out.Conflict? <==> w.Refused?
      ensures out.Conflict? ==> d in service
    {
      var ok, acquire := Enter(me, d);
      if !ok {
        return Conflict, Refused(acquire);
      }
      ghost var count, course, release;
      out, count, course, release := MoveAndRelease(me, d, moving, target, polls);
      w := Ran(acquire, count, course, release);
    }

    /** Takes the service's lock, if there is one to take. */
    method Enter(me: nat, d: Deployment) returns (ok: bool, ghost acquire: Reply)
      requires Valid() && me !in ops
      modifies this`replicas, this`locks, this`now, this`ops, this`latest, this`intruded, this`taken, this`trace
      ensures Valid() && old(trace) <= trace
      ensures Own(trace, me) == old(Own(trace, me)) + [Begin(me, d), Acquire(me, acquire)]
      ensures me in ops && ops[me].deployment == d && !ops[me].left
      ensures ops[me].pc == if ok then Admitted else Done
      ensures !ok ==> d in service && (!acquire.ReplyLost? ==> NotOwner(me))
    {
      Started(me, d);
      ok, acquire := AcquireChangeNodeLock(me, d);
      assert [Begin(me, d)] + [Acquire(me, acquire)] == [Begin(me, d), Acquire(me, acquire)];
    }

    /** What follows once the lock is taken, up to its release. */
    method MoveAndRelease(me: nat, d: Deployment, moving: PodName, target: NodeName, polls: Polls)
      returns (out: Outcome, ghost count: Reply, ghost course: Course, ghost release: Reply)
      requires Valid() && me in ops && ops[me].pc.Admitted? && ops[me].deployment == d && !ops[me].left
      modifies this`replicas, this`locks, this`now, this`ops, this`latest, this`intruded, this`taken, this`trace, this`deletions
      ensures Valid() && old(trace) <= trace
      ensures Own(trace, me) == old(Own(trace, me)) + (ScalingSteps(me, count, course) + [Release(me, release)])
      ensures me in ops && ops[me] == old(ops[me]).(pc := Done, left := LeavesReplica(course))
      ensures ProperCourse(course) && !out.Conflict?
      ensures !release.RequestLost? ==> NotOwner(me)
      ensures deletions == if out.Moved? then old(deletions) + [(me, moving)] else old(deletions)
      ensures EndsRight(out, course.Scaled?, moving, target, NameOf(d), polls)
    {
      out, count, course := MoveUnderLock(me, d, moving, target, polls);
      release := ReleaseChangeNodeLock(me, d);
    }

    /** What the operation does while it holds the lock. */
    method MoveUnderLock(me: nat, d: Deployment, moving: PodName, target: NodeName, polls: Polls)
      returns (out: Outcome, ghost count: Reply, ghost course: Course)
      requires Valid() && me in ops && ops[me].pc.Admitted? && ops[me].deployment == d && !ops[me].left
      modifies this`replicas, this`locks, this`now, this`ops, this`latest, this`intruded, this`taken, this`trace, this`deletions
      ensures Valid() && old(trace) <= trace
      ensures Own(trace, me) == old(Own(trace, me)) + ScalingSteps(me, count, course)
      ensures me in ops && ops[me] == old(ops[me]).(pc := Releasing, left := LeavesReplica(course))
      ensures ProperCourse(course) && !out.Conflict?
      ensures deletions == if out.Moved? then old(deletions) + [(me, moving)] else old(deletions)
      ensures EndsRight(out, course.Scaled?, moving, target, NameOf(d), polls)
    {
      var original, reply := GetDeployment(me, d);
      count, course := reply, NotCounted;
      if original.None? {
        return ScaleError, count, course;
      }
      out, course := ScaleUpAndBack(me, d, moving, target, original.value, polls);
    }

    /** Scales up, and if that was confirmed waits and scales back. */
    method ScaleUpAndBack(me: nat, d: Deployment, moving: PodName, target: NodeName, original: int, polls: Polls)
      returns (out: Outcome, ghost course: Course)
      requires Valid() && me in ops && ops[me].pc == Counted(original) && ops[me].deployment == d && !ops[me].left
      requires d in replicas
      modifies this`replicas, this`locks, this`now, this`ops, this`latest, this`intruded, this`taken, this`trace, this`deletions
      ensures Valid() && old(trace) <= trace
      ensures Own(trace, me) == old(Own(trace, me)) + AfterCount(me, course)
      ensures me in ops && ops[me] == old(ops[me]).(pc := Releasing, left := LeavesReplica(course))
      ensures ProperCourse(course) && !out.Conflict?
      ensures deletions == if out.Moved? then old(deletions) + [(me, moving)] else old(deletions)
      ensures EndsRight(out, course.Scaled?, moving, target, NameOf(d), polls)
    {
      var up := ScaleUpTo(me, d, original + 1);
      course := NotScaled(up);
      if !up.Delivered? {
        return ScaleError, course;
      }
      ghost var back;
      out, back := AwaitAndScaleBack(me, d, moving, target, original, polls);
      course := Scaled(up, back);
    }

    /** Waits for the replacement, has the old pod deleted if it came, and scales back. */
    method AwaitAndScaleBack(me: nat, d: Deployment, moving: PodName, target: NodeName, original: int, polls: Polls)
      returns (out: Outcome, ghost back: Reply)
      requires Valid() && me in ops && ops[me].pc == ScaledUp(original) && ops[me].deployment == d && !ops[me].left
      requires d in replicas
      modifies this`replicas, this`locks, this`now, this`ops, this`latest, this`intruded, this`taken, this`trace, this`deletions
      ensures Valid() && old(trace) <= trace
      ensures Own(trace, me) == old(Own(trace, me)) + [Decide(me), ScaleBack(me, back)]
      ensures me in ops && ops[me] == old(ops[me]).(pc := Releasing, left := back.RequestLost?)
      ensures deletions == if out.Moved? then old(deletions) + [(me, moving)] else old(deletions)
      ensures EndsRight(out, true, moving, target, NameOf(d), polls)
    {
      var found := AwaitReplacement(me, moving, target, NameOf(d), polls);
      if found.Some? {
        deletions := deletions + [(me, moving)];
      }
      back := ScaleBackTo(me, d, original);
      out := match found case None => Timeout case Some(p) => Moved(p);
    }

    function NameOf(d: Deployment): Option<Service> {
      if d in service then Some(service[d]) else None
    }
  }

  /** The first pod of a listing that can replace the one being moved. */
  method FindReplacement(pods: seq<ApiPod>, moving: PodName, target: NodeName, name: Option<Service>) returns (r: Option<ApiPod>)
    ensures r.Some? ==> r.value in pods && IsReplacement(r.value, moving, target, name)
    ensures r.Some? ==> name.Some? && r.value.name != moving && r.value.node == target && r.value.service == name
                        && r.value.running && r.value.ready
    ensures r.None? ==> forall p :: p in pods ==> !IsReplacement(p, moving, target, name)
    ensures r.None? && name.Some? ==>
              !exists p :: p in pods && p.name != moving && p.node == target && p.service == name && p.running && p.ready
  {
    for i := 0 to |pods|
      invariant forall p :: p in pods[..i] ==> !IsReplacement(p, moving, target, name)
    {
      var p := pods[i];
      if p.name == moving {
        continue;
      }
      if p.node != target {
        continue;
      }
      if !LabelsMatchService(p, name) {
        continue;
      }
      if !p.running {
        continue;
      }
      if p.ready {
        return Some(p);
      }
    }
    return None;
  }
}
