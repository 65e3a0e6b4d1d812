/** The change-node protocol: an operation takes its service's lock, scales the
    deployment up by one, waits for the new pod, and scales back before it releases
    the lock. Any number of operations run at once, locks run out after their time to
    live, and any request to Redis or to the API server may be lost, or its reply. */
module ChangeNode {
  import opened Wrappers
  import opened SchedulerRepo

  const LOCK_TTL := 120000

  type Deployment = nat
  type Service = nat

  // ----- state -----

  /** Where an operation stands; `original` is the replica count it read. */
  datatype Pc =
    | Begun
    | Admitted
    | Counted(original: int)
    | ScaledUp(original: int)
    | Decided(original: int)
    | Releasing
    | Done

  /** One operation. Its identity doubles as the UUID it puts in the lock; `left` says
      that a lost message made it leave an extra replica behind. */
  datatype Operation = Operation(deployment: Deployment, since: int, pc: Pc, left: bool)

  datatype Lock = Lock(owner: nat, deadline: int)

  /** The replica counts in the API server, the locks in Redis, the clock in
      milliseconds, the operations, the service each deployment's pods are labelled
      with, and for the record: the initial counts, the operation last admitted to each
      deployment, and the deployments to which one was admitted while another was still
      at work. */
  datatype Sys = Sys(
    replicas: map<Deployment, Option<int>>,
    locks: map<Service, Lock>,
    now: int,
    ops: map<nat, Operation>,
    service: map<Deployment, Service>,
    base: map<Deployment, int>,
    latest: map<Deployment, nat>,
    intruded: set<Deployment>)

  datatype Step =
    | Begin(c: nat, deployment: Deployment)
    | Acquire(c: nat, reply: Reply)
    | CountReplicas(c: nat, reply: Reply)
    | ScaleUp(c: nat, reply: Reply)
    | Decide(c: nat)
    | ScaleBack(c: nat, reply: Reply)
    | Release(c: nat, reply: Reply)
    | Expire(svc: Service)
    | Pass(ms: nat)

  /** Between taking the lock and starting to release it. */
  predicate Working(pc: Pc) {
    pc.Admitted? || pc.Counted? || pc.ScaledUp? || pc.Decided?
  }

  predicate HasExtra(pc: Pc) {
    pc.ScaledUp? || pc.Decided?
  }

  predicate Enabled(s: Sys, l: Step) {
    match l
    case Begin(c, d) => c !in s.ops
    case Acquire(c, _) => c in s.ops && s.ops[c].pc.Begun?
    case CountReplicas(c, _) => c in s.ops && s.ops[c].pc.Admitted?
    case ScaleUp(c, _) => c in s.ops && s.ops[c].pc.Counted? && s.ops[c].deployment in s.replicas
    case Decide(c) => c in s.ops && s.ops[c].pc.ScaledUp?
    case ScaleBack(c, _) => c in s.ops && s.ops[c].pc.Decided? && s.ops[c].deployment in s.replicas
    case Release(c, _) => c in s.ops && s.ops[c].pc.Releasing?
    case Expire(svc) => svc in s.locks && s.locks[svc].deadline <= s.now
    case Pass(_) => true
  }

  // ----- effects -----

  /** An unset count means one replica. */
  function CountOf(spec: Option<int>): int {
    match spec
    case None => 1
    case Some(n) => n
  }

  function Put(s: Sys, c: nat, op: Operation): Sys {
    s.(ops := s.ops[c := op])
  }

  /** The operation last admitted to the deployment is still at work. */
  predicate Busy(s: Sys, d: Deployment) {
    d in s.latest && s.latest[d] in s.ops && Working(s.ops[s.latest[d]].pc)
  }

  /** SET NX finds the service's lock free. */
  predicate Takes(s: Sys, d: Deployment, reply: Reply) {
    d in s.service && s.service[d] !in s.locks && !reply.RequestLost?
  }

  /** SET NX with a time to live; a deployment without a service name is not locked. */
  function DoAcquire(s: Sys, c: nat, reply: Reply): Sys
    requires c in s.ops
  {
    var op := s.ops[c];
    var d := op.deployment;
    var taken := Takes(s, d, reply);
    var admitted := d !in s.service || (taken && reply.Delivered?);
    Put(s.(locks := if taken then s.locks[s.service[d] := Lock(c, s.now + LOCK_TTL)] else s.locks,
           latest := if admitted then s.latest[d := c] else s.latest,
           intruded := if admitted && Busy(s, d) then s.intruded + {d} else s.intruded),
        c, op.(pc := if admitted then Admitted else Done, since := s.now))
  }

  function DoCount(s: Sys, c: nat, reply: Reply): Sys
    requires c in s.ops
  {
    var op := s.ops[c];
    Put(s, c, op.(pc := if reply.Delivered? && op.deployment in s.replicas
                        then Counted(CountOf(s.replicas[op.deployment])) else Releasing))
  }

  function DoScaleUp(s: Sys, c: nat, reply: Reply): Sys
    requires c in s.ops && s.ops[c].pc.Counted?
  {
    var op := s.ops[c];
    Put(s.(replicas := if reply.RequestLost? then s.replicas else s.replicas[op.deployment := Some(op.pc.original + 1)]),
        c, op.(pc := if reply.Delivered? then ScaledUp(op.pc.original) else Releasing,
               left := op.left || reply.ReplyLost?))
  }

  function DoScaleBack(s: Sys, c: nat, reply: Reply): Sys
    requires c in s.ops && s.ops[c].pc.Decided?
  {
    var op := s.ops[c];
    Put(s.(replicas := if reply.RequestLost? then s.replicas else s.replicas[op.deployment := Some(op.pc.original)]),
        c, op.(pc := Releasing, left := op.left || reply.RequestLost?))
  }

  /** DEL if the lock still carries the operation's UUID. */
  function DoRelease(s: Sys, c: nat, reply: Reply): Sys
    requires c in s.ops
  {
    var op := s.ops[c];
    var own := op.deployment in s.service && s.service[op.deployment] in s.locks
               && s.locks[s.service[op.deployment]].owner == c;
    Put(s.(locks := if own && !reply.RequestLost? then s.locks - {s.service[op.deployment]} else s.locks),
        c, op.(pc := Done))
  }

  function Apply(s: Sys, l: Step): Sys {
    if !Enabled(s, l) then s
    else
      match l
      case Begin(c, d) => Put(s, c, Operation(d, s.now, Begun, false))
      case Acquire(c, reply) => DoAcquire(s, c, reply)
      case CountReplicas(c, reply) => DoCount(s, c, reply)
      case ScaleUp(c, reply) => DoScaleUp(s, c, reply)
      case Decide(c) => Put(s, c, s.ops[c].(pc := Decided(s.ops[c].pc.original)))
      case ScaleBack(c, reply) => DoScaleBack(s, c, reply)
      case Release(c, reply) => DoRelease(s, c, reply)
      case Expire(svc) => s.(locks := s.locks - {svc})
      case Pass(ms) => s.(now := s.now + ms)
  }

  function Run(s: Sys, steps: seq<Step>): Sys {
    if steps == [] then s else Apply(Run(s, steps[..|steps| - 1]), steps[|steps| - 1])
  }

  ghost predicate Init(s: Sys) {
    && s.locks == map[] && s.ops == map[] && s.latest == map[] && s.intruded == {}
    && s.base == map d | d in s.replicas :: CountOf(s.replicas[d])
  }

  // ----- invariant -----

  /** The operations on a deployment that left an extra replica behind. */
  ghost function Leavers(s: Sys, d: Deployment): set<nat> {
    set c | c in s.ops && s.ops[c].deployment == d && s.ops[c].left
  }

  /** The operation at work on the deployment is between scaling up and scaling back. */
  ghost predicate InFlight(s: Sys, d: Deployment) {
    && d in s.latest && s.latest[d] in s.ops
    && HasExtra(s.ops[s.latest[d]].pc)
  }

  /** The deployment is known, and never was an operation admitted to it while another was
      at work. */
  ghost predicate Guarded(s: Sys, d: Deployment) {
    d in s.replicas && d !in s.intruded
  }

  /** The deployment's replicas, when `left` operations left one behind. */
  ghost predicate CountExact(s: Sys, d: Deployment, left: nat) {
    Guarded(s, d) ==>
      && d in s.base
      && CountOf(s.replicas[d]) == s.base[d] + left + if InFlight(s, d) then 1 else 0
  }

  /** A working operation is the last one admitted, and has read the count without extras. */
  ghost predicate OpExact(s: Sys, c: nat, left: nat) {
    c in s.ops && Working(s.ops[c].pc) && s.ops[c].deployment !in s.intruded ==>
      var d := s.ops[c].deployment;
      && d in s.latest && s.latest[d] == c
      && (!s.ops[c].pc.Admitted? ==> d in s.base && s.ops[c].pc.original == s.base[d] + left)
  }

  /** The operation last admitted to a deployment works or worked on it. */
  ghost predicate LatestExact(s: Sys, d: Deployment) {
    d in s.latest ==>
      var c := s.latest[d];
      c in s.ops && s.ops[c].deployment == d && !s.ops[c].pc.Begun?
  }

  /** A working operation holds its service's lock until that has lived its time. */
  ghost predicate HoldsOrLate(s: Sys, c: nat) {
    c in s.ops && Working(s.ops[c].pc) && s.ops[c].deployment in s.service ==>
      var svc := s.service[s.ops[c].deployment];
      (svc in s.locks && s.locks[svc].owner == c) || s.ops[c].since + LOCK_TTL <= s.now
  }

  /** A lock belongs to an operation that took it, for as long as its time to live. */
  ghost predicate LockExact(s: Sys, svc: Service) {
    svc in s.locks ==>
      var c := s.locks[svc].owner;
      && c in s.ops && !s.ops[c].pc.Begun?
      && s.ops[c].deployment in s.service && s.service[s.ops[c].deployment] == svc
      && s.locks[svc].deadline == s.ops[c].since + LOCK_TTL
  }

  /** An operation leaves a replica behind only when it is through with scaling. */
  ghost predicate Clean(s: Sys, c: nat) {
    c in s.ops && !s.ops[c].pc.Releasing? && !s.ops[c].pc.Done? ==> !s.ops[c].left
  }

  ghost predicate Inv(s: Sys) {
    && s.base.Keys == s.replicas.Keys
    && (forall d :: CountExact(s, d, |Leavers(s, d)|))
    && (forall c :: c in s.ops ==> OpExact(s, c, |Leavers(s, s.ops[c].deployment)|))
    && (forall svc :: LockExact(s, svc))
    && (forall d :: LatestExact(s, d))
    && (forall c :: HoldsOrLate(s, c))
    && (forall c :: Clean(s, c))
  }

  // ----- preservation -----

  lemma LeaversAfter(s: Sys, t: Sys, c: nat, d: Deployment)
    requires c in t.ops && t.ops == s.ops[c := t.ops[c]]
    requires c in s.ops ==> s.ops[c].deployment == t.ops[c].deployment && (s.ops[c].left ==> t.ops[c].left)
    ensures Leavers(t, d) == Leavers(s, d) + if t.ops[c].deployment == d && t.ops[c].left then {c} else {}
  {
  }

  function Actor(l: Step): Option<nat> {
    match l
    case Begin(c, _) => Some(c)
    case Acquire(c, _) => Some(c)
    case CountReplicas(c, _) => Some(c)
    case ScaleUp(c, _) => Some(c)
    case Decide(c) => Some(c)
    case ScaleBack(c, _) => Some(c)
    case Release(c, _) => Some(c)
    case Expire(_) => None
    case Pass(_) => None
  }

  /** Who leaves a replica behind: the operation whose scale-up lost its reply, or whose
      scale-back never arrived. */
  predicate LeavesOne(s: Sys, l: Step, d: Deployment) {
    && Enabled(s, l)
    && ((l.ScaleUp? && l.reply.ReplyLost?) || (l.ScaleBack? && l.reply.RequestLost?))
    && s.ops[l.c].deployment == d
  }

  lemma LeaversOfStep(s: Sys, l: Step, d: Deployment)
    ensures Leavers(Apply(s, l), d) == Leavers(s, d) + if LeavesOne(s, l, d) then {l.c} else {}
  {
    if Enabled(s, l) && Actor(l).Some? {
      LeaversAfter(s, Apply(s, l), Actor(l).value, d);
    }
  }

  lemma LeaversCount(s: Sys, l: Step, d: Deployment)
    requires Actor(l).Some? ==> Clean(s, Actor(l).value)
    ensures |Leavers(Apply(s, l), d)| == |Leavers(s, d)| + if LeavesOne(s, l, d) then 1 else 0
  {
    LeaversOfStep(s, l, d);
    if LeavesOne(s, l, d) {
      assert l.c !in Leavers(s, d);
    }
  }

  lemma CleanKept(s: Sys, l: Step, c: nat)
    requires Clean(s, c)
    ensures Clean(Apply(s, l), c)
  {
  }

  lemma LatestKept(s: Sys, l: Step, d: Deployment)
    requires LatestExact(s, d)
    ensures LatestExact(Apply(s, l), d)
  {
  }

  lemma HoldsKept(s: Sys, l: Step, c: nat)
    requires HoldsOrLate(s, c)
    requires c in s.ops && s.ops[c].deployment in s.service ==> LockExact(s, s.service[s.ops[c].deployment])
    ensures HoldsOrLate(Apply(s, l), c)
  {
  }

  lemma LockKeptByAcquire(s: Sys, c: nat, reply: Reply, svc: Service)
    requires LockExact(s, svc)
    ensures LockExact(Apply(s, Acquire(c, reply)), svc)
  {
  }

  lemma LockKeptByOthers(s: Sys, l: Step, svc: Service)
    requires LockExact(s, svc) && !l.Acquire?
    ensures LockExact(Apply(s, l), svc)
  {
  }

  /** The operation taking a step, if it works on d, knows how many replicas were left. */
  ghost predicate ActorExact(s: Sys, l: Step, d: Deployment, left: nat) {
    Actor(l).Some? && Actor(l).value in s.ops && s.ops[Actor(l).value].deployment == d ==> OpExact(s, Actor(l).value, left)
  }

  lemma CountKept(s: Sys, l: Step, d: Deployment, left: nat)
    requires CountExact(s, d, left) && ActorExact(s, l, d, left)
    requires LatestExact(s, d)
    ensures CountExact(Apply(s, l), d, left + if LeavesOne(s, l, d) then 1 else 0)
  {
  }

  lemma OpKeptByAcquire(s: Sys, l: Step, c: nat, left: nat)
    requires l.Acquire?
    requires c in s.ops && OpExact(s, c, left) && ActorExact(s, l, s.ops[c].deployment, left)
    requires CountExact(s, s.ops[c].deployment, left) && LatestExact(s, s.ops[c].deployment)
    ensures OpExact(Apply(s, l), c, left + if LeavesOne(s, l, s.ops[c].deployment) then 1 else 0)
  {
  }

  lemma OpKeptByScaling(s: Sys, l: Step, c: nat, left: nat)
    requires l.ScaleUp? || l.ScaleBack?
    requires c in s.ops && OpExact(s, c, left) && ActorExact(s, l, s.ops[c].deployment, left)
    requires CountExact(s, s.ops[c].deployment, left) && LatestExact(s, s.ops[c].deployment)
    ensures OpExact(Apply(s, l), c, left + if LeavesOne(s, l, s.ops[c].deployment) then 1 else 0)
  {
  }

  lemma OpKeptByOthers(s: Sys, l: Step, c: nat, left: nat)
    requires !l.Acquire? && !l.ScaleUp? && !l.ScaleBack?
    requires c in s.ops && OpExact(s, c, left) && ActorExact(s, l, s.ops[c].deployment, left)
    requires CountExact(s, s.ops[c].deployment, left) && LatestExact(s, s.ops[c].deployment)
    ensures OpExact(Apply(s, l), c, left + if LeavesOne(s, l, s.ops[c].deployment) then 1 else 0)
  {
  }

  lemma OpKept(s: Sys, l: Step, c: nat, left: nat)
    requires c in s.ops && OpExact(s, c, left) && ActorExact(s, l, s.ops[c].deployment, left)
    requires CountExact(s, s.ops[c].deployment, left) && LatestExact(s, s.ops[c].deployment)
    ensures OpExact(Apply(s, l), c, left + if LeavesOne(s, l, s.ops[c].deployment) then 1 else 0)
  {
    if l.Acquire? {
      OpKeptByAcquire(s, l, c, left);
    } else if l.ScaleUp? || l.ScaleBack? {
      OpKeptByScaling(s, l, c, left);
    } else {
      OpKeptByOthers(s, l, c, left);
    }
  }

  lemma CountsKept(s: Sys, l: Step, d: Deployment)
    requires Inv(s)
    ensures CountExact(Apply(s, l), d, |Leavers(Apply(s, l), d)|)
  {
    LeaversCount(s, l, d);
    CountKept(s, l, d, |Leavers(s, d)|);
  }

  lemma OpsKept(s: Sys, l: Step, c: nat)
    requires Inv(s) && c in Apply(s, l).ops
    ensures var t := Apply(s, l); OpExact(t, c, |Leavers(t, t.ops[c].deployment)|)
  {
    if c in s.ops {
      var d := s.ops[c].deployment;
      DeploymentKept(s, l, c);
      LeaversCount(s, l, d);
      assert CountExact(s, d, |Leavers(s, d)|) && LatestExact(s, d) && OpExact(s, c, |Leavers(s, d)|);
      OpKept(s, l, c, |Leavers(s, d)|);
    } else {
      NewcomerExact(s, l, c);
    }
  }

  lemma DeploymentKept(s: Sys, l: Step, c: nat)
    requires c in s.ops
    ensures c in Apply(s, l).ops && Apply(s, l).ops[c].deployment == s.ops[c].deployment
  {
  }

  lemma NewcomerExact(s: Sys, l: Step, c: nat)
    requires c !in s.ops && c in Apply(s, l).ops
    ensures Apply(s, l).ops[c].pc.Begun?
  {
  }

  lemma StepKeepsInv(s: Sys, l: Step)
    requires Inv(s)
    ensures Inv(Apply(s, l))
  {
    var t := Apply(s, l);
    forall d ensures CountExact(t, d, |Leavers(t, d)|) {
      CountsKept(s, l, d);
    }
    forall c | c in t.ops ensures OpExact(t, c, |Leavers(t, t.ops[c].deployment)|) {
      OpsKept(s, l, c);
    }
    forall svc ensures LockExact(t, svc) {
      if l.Acquire? {
        LockKeptByAcquire(s, l.c, l.reply, svc);
      } else {
        LockKeptByOthers(s, l, svc);
      }
    }
    forall d ensures LatestExact(t, d) {
      LatestKept(s, l, d);
    }
    forall c ensures HoldsOrLate(t, c) {
      HoldsKept(s, l, c);
    }
    forall c ensures Clean(t, c) {
      CleanKept(s, l, c);
    }
  }

  lemma {:induction false} ReachableInv(init: Sys, steps: seq<Step>)
    requires Init(init)
    ensures Inv(Run(init, steps))
  {
    if steps == [] {
      forall d ensures Leavers(init, d) == {} {
      }
    } else {
      ReachableInv(init, steps[..|steps| - 1]);
      StepKeepsInv(Run(init, steps[..|steps| - 1]), steps[|steps| - 1]);
    }
  }

  // ----- theorems -----

  /** At every moment of every run, whatever messages are lost and whatever locks run out:
      as long as no operation was admitted to the deployment while another was at work on
      it, the deployment has its initial number of replicas, plus one for every operation
      whose scaling a lost message cut short, plus one while the operation at work is
      between scaling up and scaling back. A lock that runs out does no harm by itself. */
  lemma {:induction false} ScaleConservation(init: Sys, steps: seq<Step>, d: Deployment)
    requires Init(init)
    requires var s := Run(init, steps); Guarded(s, d)
    ensures var s := Run(init, steps);
            && d in s.base
            && CountOf(s.replicas[d]) == s.base[d] + |Leavers(s, d)| + if InFlight(s, d) then 1 else 0
  {
    ReachableInv(init, steps);
    assert CountExact(Run(init, steps), d, |Leavers(Run(init, steps), d)|);
  }

  /** Once no operation holds an extra replica, the count is back at its initial value if
      and only if no operation's scaling was cut short. */
  lemma {:induction false} ScaleRestored(init: Sys, steps: seq<Step>, d: Deployment)
    requires Init(init)
    requires var s := Run(init, steps); Guarded(s, d) && !InFlight(s, d)
    ensures var s := Run(init, steps);
            && d in s.base
            && (CountOf(s.replicas[d]) == s.base[d] <==> forall c :: c in s.ops && s.ops[c].deployment == d ==> !s.ops[c].left)
  {
    ScaleConservation(init, steps, d);
    var s := Run(init, steps);
    if Leavers(s, d) == {} {
      forall c | c in s.ops && s.ops[c].deployment == d ensures !s.ops[c].left {
        assert c !in Leavers(s, d);
      }
    } else {
      var c :| c in Leavers(s, d);
    }
  }

  /** Two operations at work on the same deployment are the same operation. */
  lemma {:induction false} OneAtATime(init: Sys, steps: seq<Step>, a: nat, b: nat)
    requires Init(init)
    requires var s := Run(init, steps);
             && a in s.ops && b in s.ops && Working(s.ops[a].pc) && Working(s.ops[b].pc)
             && s.ops[a].deployment == s.ops[b].deployment && s.ops[a].deployment !in s.intruded
    ensures a == b
  {
    ReachableInv(init, steps);
  }

  /** Releasing removes no lock but the operation's own, and leaves it none. */
  lemma ReleaseRemovesOnlyOwn(init: Sys, steps: seq<Step>, c: nat, reply: Reply, svc: Service)
    requires Init(init)
    requires var s := Run(init, steps); Enabled(s, Release(c, reply)) && svc in s.locks
    ensures var s := Run(init, steps);
            var t := Apply(s, Release(c, reply));
            if s.locks[svc].owner == c && !reply.RequestLost? then svc !in t.locks
            else svc in t.locks && t.locks[svc] == s.locks[svc]
  {
    ReachableInv(init, steps);
    assert LockExact(Run(init, steps), svc);
  }

  /** Every operation is done with its scaling while its lock lives. */
  predicate OnTime(s: Sys) {
    forall c :: c in s.ops && Working(s.ops[c].pc) ==> s.now < s.ops[c].since + 2 * 60 * 1000
  }

  predicate AlwaysOnTime(init: Sys, steps: seq<Step>) {
    steps != [] ==> AlwaysOnTime(init, steps[..|steps| - 1]) && OnTime(Run(init, steps[..|steps| - 1]))
  }

  /** Working operations of one service that are all on time hold its one lock. */
  lemma OnTimeExcludes(init: Sys, steps: seq<Step>, a: nat, b: nat)
    requires Init(init)
    requires var s := Run(init, steps);
             && OnTime(s) && a in s.ops && b in s.ops && Working(s.ops[a].pc) && Working(s.ops[b].pc)
             && s.ops[a].deployment in s.service && s.ops[b].deployment in s.service
             && s.service[s.ops[a].deployment] == s.service[s.ops[b].deployment]
    ensures a == b
  {
    ReachableInv(init, steps);
    assert HoldsOrLate(Run(init, steps), a) && HoldsOrLate(Run(init, steps), b);
  }

  lemma OnTimeStep(s: Sys, l: Step, d: Deployment)
    requires Inv(s) && OnTime(s) && d in s.service && d !in s.intruded
    ensures d in Apply(s, l).service && d !in Apply(s, l).intruded
  {
    assert LatestExact(s, d);
    if d in s.latest {
      assert HoldsOrLate(s, s.latest[d]);
    }
  }

  /** If every operation finishes within its lock's time to live, no deployment whose pods
      carry a service name is intruded on. */
  lemma {:induction false} OnTimeNeverIntruded(init: Sys, steps: seq<Step>, d: Deployment)
    requires Init(init) && AlwaysOnTime(init, steps) && d in init.service
    ensures d !in Run(init, steps).intruded && d in Run(init, steps).service
  {
    if steps != [] {
      var rest := steps[..|steps| - 1];
      OnTimeNeverIntruded(init, rest, d);
      ReachableInv(init, rest);
      OnTimeStep(Run(init, rest), steps[|steps| - 1], d);
    }
  }

  // ----- intrusions, losses and writes over whole runs -----

  /** The step lets an operation start its work on the deployment. */
  predicate Admits(s: Sys, l: Step, d: Deployment) {
    && l.Acquire? && Enabled(s, l) && s.ops[l.c].deployment == d
    && (d !in s.service || (Takes(s, d, l.reply) && l.reply.Delivered?))
  }

  ghost predicate Crowded(s: Sys, d: Deployment) {
    exists c :: c in s.ops && s.ops[c].deployment == d && Working(s.ops[c].pc)
  }

  /** Some step of the run admits an operation to the deployment while any is at work on it. */
  ghost predicate IntrudedIn(init: Sys, steps: seq<Step>, d: Deployment) {
    steps != [] &&
      var rest, l := steps[..|steps| - 1], steps[|steps| - 1];
      IntrudedIn(init, rest, d) || (Admits(Run(init, rest), l, d) && Crowded(Run(init, rest), d))
  }

  lemma CrowdedIsBusy(s: Sys, d: Deployment)
    requires Inv(s) && d !in s.intruded
    ensures Crowded(s, d) <==> Busy(s, d)
  {
    assert LatestExact(s, d);
    if c :| c in s.ops && s.ops[c].deployment == d && Working(s.ops[c].pc) {
      assert OpExact(s, c, |Leavers(s, s.ops[c].deployment)|);
    }
  }

  lemma IntrusionStep(s: Sys, l: Step, d: Deployment)
    ensures d in Apply(s, l).intruded <==> d in s.intruded || (Admits(s, l, d) && Busy(s, d))
  {
  }

  /** A deployment counts as intruded on exactly when some step of the run admitted an
      operation to it while another was at work. */
  lemma {:induction false} IntrudedExactly(init: Sys, steps: seq<Step>, d: Deployment)
    requires Init(init)
    ensures d in Run(init, steps).intruded <==> IntrudedIn(init, steps, d)
  {
    if steps != [] {
      var rest := steps[..|steps| - 1];
      IntrudedExactly(init, rest, d);
      ReachableInv(init, rest);
      IntrusionStep(Run(init, rest), steps[|steps| - 1], d);
      if d !in Run(init, rest).intruded {
        CrowdedIsBusy(Run(init, rest), d);
      }
    }
  }


  /** How many steps of a run cut the scaling of an operation on the deployment short. */
  function CutShort(init: Sys, steps: seq<Step>, d: Deployment): nat {
    if steps == [] then 0
    else
      var rest := steps[..|steps| - 1];
      CutShort(init, rest, d) + if LeavesOne(Run(init, rest), steps[|steps| - 1], d) then 1 else 0
  }

  /** Every such loss leaves one replica behind, and nothing else does. */
  lemma {:induction false} LeaversOfRun(init: Sys, steps: seq<Step>, d: Deployment)
    requires Init(init)
    ensures |Leavers(Run(init, steps), d)| == CutShort(init, steps, d)
  {
    if steps == [] {
      assert Leavers(init, d) == {};
    } else {
      var rest, l := steps[..|steps| - 1], steps[|steps| - 1];
      LeaversOfRun(init, rest, d);
      ReachableInv(init, rest);
      LeaversCount(Run(init, rest), l, d);
    }
  }

  /** The operation has counted the replicas and goes by what it counted. */
  predicate HasCounted(pc: Pc) {
    pc.Counted? || pc.ScaledUp? || pc.Decided?
  }

  /** The deployment has at least its initial count, and so had it whenever an operation at
      work on it counted. */
  ghost predicate NotBelow(s: Sys, d: Deployment) {
    && d in s.replicas && d in s.base && s.base[d] <= CountOf(s.replicas[d])
    && forall c :: c in s.ops && s.ops[c].deployment == d && HasCounted(s.ops[c].pc) ==> s.base[d] <= s.ops[c].pc.original
  }

  lemma NotBelowKept(s: Sys, l: Step, d: Deployment)
    requires NotBelow(s, d)
    ensures NotBelow(Apply(s, l), d)
  {
  }

  /** In every run, whatever is lost, runs out or intrudes: no deployment ever has fewer
      replicas than at the start, and no operation ever counted fewer. */
  lemma {:induction false} NeverBelowInitial(init: Sys, steps: seq<Step>, d: Deployment)
    requires Init(init) && d in init.replicas
    ensures var s := Run(init, steps);
            && NotBelow(s, d) && s.base[d] == CountOf(init.replicas[d])
  {
    if steps != [] {
      NeverBelowInitial(init, steps[..|steps| - 1], d);
      NotBelowKept(Run(init, steps[..|steps| - 1]), steps[|steps| - 1], d);
    }
  }

  /** A scaling that took effect: what its operation had counted, and whether it scaled up. */
  datatype Write = Write(original: int, up: bool)

  function WriteOf(s: Sys, l: Step, d: Deployment): Option<Write> {
    if !Enabled(s, l) || !(l.ScaleUp? || l.ScaleBack?) || l.reply.RequestLost? || s.ops[l.c].deployment != d then None
    else Some(Write(s.ops[l.c].pc.original, l.ScaleUp?))
  }

  function LastWrite(init: Sys, steps: seq<Step>, d: Deployment): Option<Write> {
    if steps == [] then None
    else
      var rest := steps[..|steps| - 1];
      var w := WriteOf(Run(init, rest), steps[|steps| - 1], d);
      if w.Some? then w else LastWrite(init, rest, d)
  }

  lemma WriteStep(s: Sys, l: Step, d: Deployment)
    requires NotBelow(s, d)
    ensures var t := Apply(s, l);
            && d in t.replicas && t.base == s.base
            && match WriteOf(s, l, d)
               case None => t.replicas[d] == s.replicas[d]
               case Some(w) => s.base[d] <= w.original && t.replicas[d] == Some(w.original + if w.up then 1 else 0)
  {
  }

  /** The last scaling decides the count, and had counted no less than the initial one. */
  lemma {:induction false} CountIsLastWritten(init: Sys, steps: seq<Step>, d: Deployment)
    requires Init(init) && d in init.replicas
    ensures var s := Run(init, steps);
            && d in s.replicas && d in s.base && s.base[d] == CountOf(init.replicas[d])
            && match LastWrite(init, steps, d)
               case None => CountOf(s.replicas[d]) == s.base[d]
               case Some(w) => s.base[d] <= w.original && CountOf(s.replicas[d]) == w.original + if w.up then 1 else 0
  {
    if steps != [] {
      var rest := steps[..|steps| - 1];
      CountIsLastWritten(init, rest, d);
      NeverBelowInitial(init, rest, d);
      WriteStep(Run(init, rest), steps[|steps| - 1], d);
    }
  }

  /** In every run, intruded on or not: the deployment is at its initial count if and only
      if no scaling of it took effect, or the last one that did scaled back and its
      operation had counted the initial number. */
  lemma {:induction false} RestoredExactly(init: Sys, steps: seq<Step>, d: Deployment)
    requires Init(init) && d in init.replicas
    ensures var s := Run(init, steps);
            && d in s.replicas && d in s.base
            && (CountOf(s.replicas[d]) == s.base[d] <==>
                var w := LastWrite(init, steps, d);
                w.None? || (!w.value.up && w.value.original == CountOf(init.replicas[d])))
  {
    CountIsLastWritten(init, steps, d);
  }

  // ----- locks left behind -----

  /** The operation is done and its service still locked by it. */
  predicate Orphaned(s: Sys, c: nat, svc: Service) {
    c in s.ops && s.ops[c].pc.Done? && svc in s.locks && s.locks[svc].owner == c
  }

  /** The step makes operation c leave its service locked: it takes the free lock and the
      reply is lost, or the lock is its own and the request to release it is lost. */
  predicate Orphans(s: Sys, l: Step, c: nat, svc: Service) {
    && (l == Acquire(c, ReplyLost) || l == Release(c, RequestLost))
    && Enabled(s, l)
    && s.ops[c].deployment in s.service && s.service[s.ops[c].deployment] == svc
    && (if l.Acquire? then svc !in s.locks else svc in s.locks && s.locks[svc].owner == c)
  }

  /** Some step of the run left the lock, and it has not run out since. */
  predicate LeftInPlace(init: Sys, steps: seq<Step>, c: nat, svc: Service) {
    steps != [] &&
      var rest, l := steps[..|steps| - 1], steps[|steps| - 1];
      || Orphans(Run(init, rest), l, c, svc)
      || (LeftInPlace(init, rest, c, svc) && !(l == Expire(svc) && Enabled(Run(init, rest), l)))
  }

  ghost predicate OrphanStep(s: Sys, l: Step, c: nat, svc: Service) {
    Orphaned(Apply(s, l), c, svc) <==>
      Orphans(s, l, c, svc) || (Orphaned(s, c, svc) && !(l == Expire(svc) && Enabled(s, l)))
  }

  lemma OrphansOfAcquire(s: Sys, l: Step, c: nat, svc: Service)
    requires LockExact(s, svc) && l.Acquire?
    ensures OrphanStep(s, l, c, svc)
  {
  }

  lemma OrphansOfRelease(s: Sys, l: Step, c: nat, svc: Service)
    requires LockExact(s, svc) && l.Release?
    ensures OrphanStep(s, l, c, svc)
  {
  }

  lemma OrphansOfOthers(s: Sys, l: Step, c: nat, svc: Service)
    requires LockExact(s, svc) && !l.Acquire? && !l.Release?
    ensures OrphanStep(s, l, c, svc)
  {
  }

  lemma OrphansOfStep(s: Sys, l: Step, c: nat, svc: Service)
    requires LockExact(s, svc)
    ensures OrphanStep(s, l, c, svc)
  {
    if l.Acquire? {
      OrphansOfAcquire(s, l, c, svc);
    } else if l.Release? {
      OrphansOfRelease(s, l, c, svc);
    } else {
      OrphansOfOthers(s, l, c, svc);
    }
  }

  /** In every run a finished operation's lock is in place if and only if one of its steps
      left it there, by a lost lock reply or a lost release request, and it has not run out
      since. */
  lemma {:induction false} OrphanedExactly(init: Sys, steps: seq<Step>, c: nat, svc: Service)
    requires Init(init)
    ensures Orphaned(Run(init, steps), c, svc) <==> LeftInPlace(init, steps, c, svc)
  {
    if steps != [] {
      var rest := steps[..|steps| - 1];
      OrphanedExactly(init, rest, c, svc);
      ReachableInv(init, rest);
      OrphansOfStep(Run(init, rest), steps[|steps| - 1], c, svc);
    }
  }

  // ----- undisturbed operations, and what an intrusion does -----

  lemma {:induction false} RunConcat(s: Sys, a: seq<Step>, b: seq<Step>)
    ensures Run(s, a + b) == Run(Run(s, a), b)
  {
    if b == [] {
      assert a + b == a;
    } else {
      assert (a + b)[..|a + b| - 1] == a + b[..|b| - 1];
      RunConcat(s, a, b[..|b| - 1]);
    }
  }

  lemma RunOneMore(s: Sys, steps: seq<Step>, l: Step)
    ensures Run(s, steps + [l]) == Apply(Run(s, steps), l)
  {
    assert (steps + [l])[..|steps + [l]| - 1] == steps;
  }

  lemma RunFour(s: Sys, k: Step, l: Step, m: Step, n: Step)
    ensures Run(s, [k, l, m, n]) == Apply(Apply(Apply(Apply(s, k), l), m), n)
  {
    RunOneMore(s, [], k);
    RunOneMore(s, [k], l);
    RunOneMore(s, [k, l], m);
    RunOneMore(s, [k, l, m], n);
    assert [] + [k] == [k] && [k] + [l] == [k, l] && [k, l] + [m] == [k, l, m] && [k, l, m] + [n] == [k, l, m, n];
  }

  function Up(c: nat, d: Deployment): seq<Step> {
    [Begin(c, d), Acquire(c, Delivered), CountReplicas(c, Delivered), ScaleUp(c, Delivered)]
  }

  function Down(c: nat): seq<Step> {
    [Decide(c), ScaleBack(c, Delivered), Release(c, Delivered), Pass(0)]
  }

  /** A new operation that finds its lock free scales up from the count it finds. */
  lemma UpEffect(s: Sys, c: nat, d: Deployment)
    requires c !in s.ops && d in s.replicas && d in s.service && s.service[d] !in s.locks
    ensures var t, n := Run(s, Up(c, d)), CountOf(s.replicas[d]);
            && t.service == s.service && t.base == s.base && t.now == s.now
            && t.replicas == s.replicas[d := Some(n + 1)]
            && t.locks == s.locks[s.service[d] := Lock(c, s.now + 2 * 60 * 1000)]
            && t.ops.Keys == s.ops.Keys + {c}
            && t.ops[c] == Operation(d, s.now, ScaledUp(n), false)
            && forall o :: o in s.ops ==> t.ops[o] == s.ops[o]
  {
    RunFour(s, Begin(c, d), Acquire(c, Delivered), CountReplicas(c, Delivered), ScaleUp(c, Delivered));
    var s1 := Apply(s, Begin(c, d));
    AdmittedEffect(s1, c, d);
    var s2 := Apply(s1, Acquire(c, Delivered));
    var s3 := Apply(s2, CountReplicas(c, Delivered));
    assert s3.ops[c] == Operation(d, s.now, Counted(CountOf(s.replicas[d])), false);
  }

  lemma AdmittedEffect(s: Sys, c: nat, d: Deployment)
    requires c in s.ops && s.ops[c] == Operation(d, s.now, Begun, false) && d in s.service && s.service[d] !in s.locks
    ensures var t := Apply(s, Acquire(c, Delivered));
            && t.service == s.service && t.base == s.base && t.now == s.now && t.replicas == s.replicas
            && t.locks == s.locks[s.service[d] := Lock(c, s.now + LOCK_TTL)]
            && t.ops == s.ops[c := Operation(d, s.now, Admitted, false)]
  {
  }

  /** An operation that scales back puts its original count back, and its lock, if it is
      still its own, away. */
  lemma DownEffect(s: Sys, c: nat)
    requires c in s.ops && s.ops[c].pc.ScaledUp? && s.ops[c].deployment in s.replicas && s.ops[c].deployment in s.service
    ensures var t, op := Run(s, Down(c)), s.ops[c];
            && t.service == s.service && t.base == s.base && t.now == s.now
            && t.replicas == s.replicas[op.deployment := Some(op.pc.original)]
            && (var svc := s.service[op.deployment];
                t.locks == if svc in s.locks && s.locks[svc].owner == c then s.locks - {svc} else s.locks)
            && t.ops.Keys == s.ops.Keys
            && t.ops[c] == op.(pc := Done)
            && forall o :: o in s.ops && o != c ==> t.ops[o] == s.ops[o]
  {
    RunFour(s, Decide(c), ScaleBack(c, Delivered), Release(c, Delivered), Pass(0));
    var n := s.ops[c].pc.original;
    var s1 := Apply(s, Decide(c));
    assert s1.ops[c] == s.ops[c].(pc := Decided(n));
    var s2 := Apply(s1, ScaleBack(c, Delivered));
    assert s2.ops[c] == s.ops[c].(pc := Releasing);
  }

  /** Undisturbed, an operation whose messages all arrive restores the count it found and
      frees the lock it took. */
  lemma UndisturbedRoundTrip(s: Sys, c: nat, d: Deployment)
    requires c !in s.ops && d in s.replicas && d in s.service && s.service[d] !in s.locks
    ensures var t := Run(s, Up(c, d) + Down(c));
            && t.replicas == s.replicas[d := Some(match s.replicas[d] case None => 1 case Some(n) => n)]
            && t.locks == s.locks && c in t.ops && t.ops[c].pc.Done?
  {
    RunConcat(s, Up(c, d), Down(c));
    UpEffect(s, c, d);
    DownEffect(Run(s, Up(c, d)), c);
  }

  function Late(svc: Service): seq<Step> {
    [Pass(LOCK_TTL), Expire(svc), Pass(0), Pass(0)]
  }

  lemma LateEffect(s: Sys, svc: Service)
    requires svc in s.locks && s.locks[svc].deadline <= s.now + LOCK_TTL
    ensures var t := Run(s, Late(svc));
            && t.locks == s.locks - {svc} && t.ops == s.ops && t.replicas == s.replicas
            && t.service == s.service && t.base == s.base
  {
    RunFour(s, Pass(LOCK_TTL), Expire(svc), Pass(0), Pass(0));
    var s1 := Apply(s, Pass(LOCK_TTL));
    assert s1.locks == s.locks && s1.now == s.now + LOCK_TTL;
  }

  /** Two operations overlap because the first one's lock runs out; the one named last
      scales back last. */
  function Overlap(d: Deployment, svc: Service, first: nat, last: nat): seq<Step> {
    Up(0, d) + Late(svc) + Up(1, d) + Down(first) + Down(last)
  }

  lemma OverlapRun(s: Sys, d: Deployment, svc: Service, first: nat, last: nat)
    ensures Run(s, Overlap(d, svc, first, last))
         == Run(Run(Run(Run(Run(s, Up(0, d)), Late(svc)), Up(1, d)), Down(first)), Down(last))
  {
    RunConcat(s, Up(0, d) + Late(svc) + Up(1, d) + Down(first), Down(last));
    RunConcat(s, Up(0, d) + Late(svc) + Up(1, d), Down(first));
    RunConcat(s, Up(0, d) + Late(svc), Up(1, d));
    RunConcat(s, Up(0, d), Late(svc));
  }

  /** Two operations are scaled up at once, the second from a count that includes the
      first one's extra replica. */
  ghost predicate BothUp(s: Sys, init: Sys, d: Deployment, n: int) {
    && s.service == init.service && s.base == init.base && d in s.replicas && d in s.service
    && s.ops.Keys == {0, 1}
    && s.ops[0].deployment == d && s.ops[0].pc == ScaledUp(n) && !s.ops[0].left
    && s.ops[1].deployment == d && s.ops[1].pc == ScaledUp(n + 1) && !s.ops[1].left
  }

  lemma SecondUp(s: Sys, init: Sys, d: Deployment, n: int)
    requires s.service == init.service && s.base == init.base && d in s.service && s.service[d] !in s.locks
    requires d in s.replicas && CountOf(s.replicas[d]) == n + 1
    requires s.ops.Keys == {0} && s.ops[0].deployment == d && s.ops[0].pc == ScaledUp(n) && !s.ops[0].left
    ensures BothUp(Run(s, Up(1, d)), init, d, n)
  {
    UpEffect(s, 1, d);
  }

  lemma OverlapBothUp(init: Sys, d: Deployment)
    requires Init(init) && d in init.replicas && d in init.service
    ensures BothUp(Run(Run(Run(init, Up(0, d)), Late(init.service[d])), Up(1, d)), init, d, CountOf(init.replicas[d]))
  {
    UpEffect(init, 0, d);
    LateEffect(Run(init, Up(0, d)), init.service[d]);
    SecondUp(Run(Run(init, Up(0, d)), Late(init.service[d])), init, d, CountOf(init.replicas[d]));
  }

  lemma BothDown(s: Sys, init: Sys, d: Deployment, n: int, first: nat, last: nat)
    requires BothUp(s, init, d, n) && {first, last} == {0, 1}
    ensures var t := Run(Run(s, Down(first)), Down(last));
            && (forall c :: c in t.ops ==> t.ops[c].pc.Done? && !t.ops[c].left)
            && t.base == init.base && d in t.replicas && CountOf(t.replicas[d]) == n + last
  {
    assert first in {0, 1} && last in {0, 1} && 0 in {first, last} && 1 in {first, last};
    DownEffect(s, first);
    DownEffect(Run(s, Down(first)), last);
  }

  /** Time matters: if the first operation's lock runs out before it scales back and a
      second one counts its extra replica as part of the original, then when both have
      finished, with every message delivered, the deployment has one replica too many if
      the second scales back last, and the right count if the first does, whatever its
      initial count was. */
  lemma IntrusionMayLeaveOneTooMany(init: Sys, d: Deployment, first: nat, last: nat)
    requires Init(init) && d in init.replicas && d in init.service && {first, last} == {0, 1}
    ensures var s := Run(init, Overlap(d, init.service[d], first, last));
            && (forall c :: c in s.ops ==> s.ops[c].pc.Done? && !s.ops[c].left)
            && d in s.base && d in s.replicas && CountOf(s.replicas[d]) == s.base[d] + if last == 1 then 1 else 0
  {
    assert last in {0, 1};
    OverlapRun(init, d, init.service[d], first, last);
    OverlapBothUp(init, d);
    BothDown(Run(Run(Run(init, Up(0, d)), Late(init.service[d])), Up(1, d)), init, d, CountOf(init.replicas[d]), first, last);
  }
}
