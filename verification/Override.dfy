/** One-shot node overrides: a change-node request stores one, and whichever of the
    ranking and the lookup endpoint asks first consumes it. Every command is atomic, so
    any interleaving of callers and expiries is a sequence of steps. */
module Override {
  import opened Wrappers
  import opened SchedulerRepo

  type Service = nat

  // ----- state and steps -----

  /** What became of overrides: a SET (and the override it displaced, if any), a
      consumption, an expiry. */
  datatype Event =
    | Stored(svc: Service, node: string, displaced: Option<string>)
    | Taken(svc: Service, node: string)
    | Lapsed(svc: Service, node: string)

  datatype Overrides = Overrides(pending: map<Service, string>, log: seq<Event>)

  datatype Step =
    | Store(svc: Service, node: string, reply: Reply)
    | Consume(svc: Service, reply: Reply)
    | Expire(svc: Service)

  function Apply(s: Overrides, l: Step): Overrides {
    match l
    case Store(svc, node, reply) =>
      if reply.RequestLost? then s
      else Overrides(s.pending[svc := node], s.log + [Stored(svc, node, Lookup(s.pending, svc))])
    case Consume(svc, reply) =>
      if reply.RequestLost? || svc !in s.pending then s
      else Overrides(s.pending - {svc}, s.log + [Taken(svc, s.pending[svc])])
    case Expire(svc) =>
      if svc !in s.pending then s
      else Overrides(s.pending - {svc}, s.log + [Lapsed(svc, s.pending[svc])])
  }

  function Run(s: Overrides, steps: seq<Step>): Overrides {
    if steps == [] then s else Apply(Run(s, steps[..|steps| - 1]), steps[|steps| - 1])
  }

  const NOTHING := Overrides(map[], [])

  // ----- conservation -----

  /** How many events of a log satisfy a condition. */
  function Count(log: seq<Event>, p: Event -> bool): nat {
    if log == [] then 0 else Count(log[..|log| - 1], p) + if p(log[|log| - 1]) then 1 else 0
  }

  function IsStored(svc: Service, v: string -> bool): Event -> bool {
    (e: Event) => e.Stored? && e.svc == svc && v(e.node)
  }

  function IsDisplaced(svc: Service, v: string -> bool): Event -> bool {
    (e: Event) => e.Stored? && e.svc == svc && e.displaced.Some? && v(e.displaced.value)
  }

  function IsTaken(svc: Service, v: string -> bool): Event -> bool {
    (e: Event) => e.Taken? && e.svc == svc && v(e.node)
  }

  function IsLapsed(svc: Service, v: string -> bool): Event -> bool {
    (e: Event) => e.Lapsed? && e.svc == svc && v(e.node)
  }

  ghost predicate Conserved(s: Overrides, svc: Service, v: string -> bool) {
    Count(s.log, IsStored(svc, v))
    == Count(s.log, IsTaken(svc, v)) + Count(s.log, IsDisplaced(svc, v)) + Count(s.log, IsLapsed(svc, v))
       + if svc in s.pending && v(s.pending[svc]) then 1 else 0
  }

  lemma OneMoreEvent(log: seq<Event>, e: Event, p: Event -> bool)
    ensures Count(log + [e], p) == Count(log, p) + if p(e) then 1 else 0
  {
    assert (log + [e])[..|log + [e]| - 1] == log;
  }

  /** What one event does to the two sides of the account. */
  lemma EventCounts(log: seq<Event>, e: Event, svc: Service, v: string -> bool)
    ensures var t := log + [e];
            && Count(t, IsStored(svc, v)) == Count(log, IsStored(svc, v)) + (if IsStored(svc, v)(e) then 1 else 0)
            && Count(t, IsTaken(svc, v)) == Count(log, IsTaken(svc, v)) + (if IsTaken(svc, v)(e) then 1 else 0)
            && Count(t, IsDisplaced(svc, v)) == Count(log, IsDisplaced(svc, v)) + (if IsDisplaced(svc, v)(e) then 1 else 0)
            && Count(t, IsLapsed(svc, v)) == Count(log, IsLapsed(svc, v)) + (if IsLapsed(svc, v)(e) then 1 else 0)
  {
    OneMoreEvent(log, e, IsStored(svc, v));
    OneMoreEvent(log, e, IsTaken(svc, v));
    OneMoreEvent(log, e, IsDisplaced(svc, v));
    OneMoreEvent(log, e, IsLapsed(svc, v));
  }

  lemma StoreConserves(s: Overrides, at: Service, node: string, svc: Service, v: string -> bool)
    requires Conserved(s, svc, v)
    ensures Conserved(Overrides(s.pending[at := node], s.log + [Stored(at, node, Lookup(s.pending, at))]), svc, v)
  {
    EventCounts(s.log, Stored(at, node, Lookup(s.pending, at)), svc, v);
  }

  lemma RemovalConserves(s: Overrides, at: Service, e: Event, svc: Service, v: string -> bool)
    requires Conserved(s, svc, v) && at in s.pending
    requires e == Taken(at, s.pending[at]) || e == Lapsed(at, s.pending[at])
    ensures Conserved(Overrides(s.pending - {at}, s.log + [e]), svc, v)
  {
    EventCounts(s.log, e, svc, v);
  }

  lemma StepConserves(s: Overrides, l: Step, svc: Service, v: string -> bool)
    requires Conserved(s, svc, v)
    ensures Conserved(Apply(s, l), svc, v)
  {
    match l
    case Store(at, node, reply) => StoreConserves(s, at, node, svc, v);
    case Consume(at, reply) =>
      if at in s.pending {
        RemovalConserves(s, at, Taken(at, s.pending[at]), svc, v);
      }
    case Expire(at) =>
      if at in s.pending {
        RemovalConserves(s, at, Lapsed(at, s.pending[at]), svc, v);
      }
  }

  /** For every service and any kind of override (say, the non-empty ones): in every run,
      those stored are those consumed, those displaced, those expired, and the pending one. */
  lemma {:induction false} TokensConserved(steps: seq<Step>, svc: Service, v: string -> bool)
    ensures Conserved(Run(NOTHING, steps), svc, v)
  {
    if steps != [] {
      TokensConserved(steps[..|steps| - 1], svc, v);
      StepConserves(Run(NOTHING, steps[..|steps| - 1]), steps[|steps| - 1], svc, v);
    }
  }

  // ----- the latest override wins -----

  predicate OnService(log: seq<Event>, k: nat, svc: Service) {
    k < |log| && log[k].svc == svc
  }

  /** Event i stored the node, and nothing happened to the service's override since. */
  ghost predicate LatestSet(log: seq<Event>, svc: Service, node: string, i: nat, k: nat) {
    && i < k <= |log| && log[i].Stored? && log[i].svc == svc && log[i].node == node
    && forall j: nat :: i < j < k ==> !OnService(log, j, svc)
  }

  ghost predicate PendingIsLatest(s: Overrides, svc: Service) {
    svc in s.pending ==> exists i :: LatestSet(s.log, svc, s.pending[svc], i, |s.log|)
  }

  ghost predicate TakenIsLatest(log: seq<Event>, k: nat) {
    k < |log| && log[k].Taken? ==> exists i :: LatestSet(log, log[k].svc, log[k].node, i, k)
  }

  lemma LatestSurvives(log: seq<Event>, e: Event, svc: Service, node: string, i: nat, k: nat)
    requires LatestSet(log, svc, node, i, k)
    ensures LatestSet(log + [e], svc, node, i, k)
    ensures k == |log| && e.svc != svc ==> LatestSet(log + [e], svc, node, i, k + 1)
  {
    forall j: nat | i < j < k ensures !OnService(log + [e], j, svc) {
      assert !OnService(log, j, svc);
    }
  }

  lemma StepKeepsLatest(s: Overrides, l: Step)
    requires forall svc :: PendingIsLatest(s, svc)
    requires forall k: nat :: TakenIsLatest(s.log, k)
    ensures forall svc :: PendingIsLatest(Apply(s, l), svc)
    ensures forall k: nat :: TakenIsLatest(Apply(s, l).log, k)
  {
    var t := Apply(s, l);
    if t.log != s.log {
      var e := t.log[|s.log|];
      assert t.log == s.log + [e];
      forall svc ensures PendingIsLatest(t, svc) {
        assert PendingIsLatest(s, svc);
        if svc in t.pending && svc == e.svc {
          assert LatestSet(t.log, svc, t.pending[svc], |s.log|, |t.log|);
        } else if svc in t.pending {
          var i :| LatestSet(s.log, svc, s.pending[svc], i, |s.log|);
          LatestSurvives(s.log, e, svc, s.pending[svc], i, |s.log|);
        }
      }
      forall k: nat ensures TakenIsLatest(t.log, k) {
        if k < |s.log| && s.log[k].Taken? {
          assert TakenIsLatest(s.log, k);
          var i :| LatestSet(s.log, s.log[k].svc, s.log[k].node, i, k);
          LatestSurvives(s.log, e, s.log[k].svc, s.log[k].node, i, k);
        } else if k == |s.log| && e.Taken? {
          assert PendingIsLatest(s, e.svc);
          var i :| LatestSet(s.log, e.svc, e.node, i, |s.log|);
          LatestSurvives(s.log, e, e.svc, e.node, i, k);
        }
      }
    }
  }

  /** In every run, each consumption takes the node of the latest store for its service,
      which was neither consumed nor displaced nor expired in between. */
  lemma {:induction false} ConsumeTakesLatest(steps: seq<Step>)
    ensures forall svc :: PendingIsLatest(Run(NOTHING, steps), svc)
    ensures forall k: nat :: TakenIsLatest(Run(NOTHING, steps).log, k)
  {
    if steps != [] {
      ConsumeTakesLatest(steps[..|steps| - 1]);
      StepKeepsLatest(Run(NOTHING, steps[..|steps| - 1]), steps[|steps| - 1]);
    }
  }

  /** An override is consumed at most once: between two consumptions lies another store. */
  lemma NoDoubleConsume(steps: seq<Step>, k1: nat, k2: nat)
    requires var log := Run(NOTHING, steps).log;
             k1 < k2 < |log| && log[k1].Taken? && log[k2].Taken? && log[k1].svc == log[k2].svc
    ensures var log := Run(NOTHING, steps).log;
            exists i :: k1 < i < k2 && log[i].Stored? && log[i].svc == log[k2].svc && log[i].node == log[k2].node
  {
    var log := Run(NOTHING, steps).log;
    ConsumeTakesLatest(steps);
    assert TakenIsLatest(log, k2);
    var i :| LatestSet(log, log[k2].svc, log[k2].node, i, k2);
    assert OnService(log, k1, log[k2].svc);
  }

  // ----- the store and its readers -----

  class OverrideStore {
    var pending: map<Service, string>
    var log: seq<Event>
    ghost var trace: seq<Step>

    function View(): Overrides
      reads this
    {
      Overrides(pending, log)
    }

    ghost predicate Valid()
      reads this
    {
      View() == Run(NOTHING, trace)
    }

    constructor ()
      ensures Valid() && pending == map[] && trace == []
    {
      pending, log, trace := map[], [], [];
    }

    ghost method Settle(before: Overrides, l: Step)
      requires before == Run(NOTHING, trace) && View() == Apply(before, l)
      modifies this`trace
      ensures Valid() && trace == old(trace) + [l]
    {
      trace := trace + [l];
      assert trace[..|trace| - 1] == old(trace);
    }

    method SetNodeOverride(svc: Service, node: string, reply: Reply) returns (ok: bool)
      requires Valid()
      modifies this
      ensures Valid() && trace == old(trace) + [Store(svc, node, reply)]
      ensures ok == reply.Delivered?
      ensures pending == if reply.RequestLost? then old(pending) else old(pending)[svc := node]
    {
      ghost var before := View();
      if !reply.RequestLost? {
        log := log + [Stored(svc, node, Lookup(pending, svc))];
        pending := pending[svc := node];
      }
      Settle(before, Store(svc, node, reply));
      return reply.Delivered?;
    }

    /** GET and DEL in one script. An empty node counts as no override, but is gone. */
    method ConsumeNodeOverride(svc: Service, reply: Reply) returns (r: Option<string>)
      requires Valid()
      modifies this
      ensures Valid() && trace == old(trace) + [Consume(svc, reply)]
      ensures pending == if reply.RequestLost? then old(pending) else old(pending) - {svc}
      ensures r == if reply.Delivered? && svc in old(pending) && old(pending)[svc] != "" then Some(old(pending)[svc]) else None
    {
      ghost var before := View();
      r := None;
      if svc in pending && !reply.RequestLost? {
        var node := pending[svc];
        log := log + [Taken(svc, node)];
        pending := pending - {svc};
        if reply.Delivered? && node != "" {
          r := Some(node);
        }
      }
      Settle(before, Consume(svc, reply));
    }

    /** The node for a service: a pending override first, which is thereby used up, then
        the standing preference, then the scorer's decision. A failed read of the
        override or the preference falls through. */
    method GetOptimalNode(svc: Service, reply: Reply, preference: Option<string>, decision: Option<string>)
      returns (answer: Answer)
      requires Valid()
      modifies this
      ensures Valid() && trace == old(trace) + [Consume(svc, reply)]
      ensures pending == if reply.RequestLost? then old(pending) else old(pending) - {svc}
      ensures answer.Overridden? <==> svc in old(pending) && old(pending)[svc] != "" && reply.Delivered?
      ensures answer.Overridden? ==> answer.node == old(pending)[svc]
      ensures !answer.Overridden? ==>
                if preference.Some? && preference.value != "" then answer == Preferred(preference.value)
                else if decision.Some? then answer == Decided(decision.value)
                else answer == NotFound
    {
      var token := ConsumeNodeOverride(svc, reply);
      if token.Some? {
        return Overridden(token.value);
      }
      if preference.Some? && preference.value != "" {
        return Preferred(preference.value);
      }
      if decision.None? {
        return NotFound;
      }
      return Decided(decision.value);
    }
  }

  datatype Answer = Overridden(node: string) | Preferred(node: string) | Decided(node: string) | NotFound
}
