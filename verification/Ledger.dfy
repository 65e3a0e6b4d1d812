/** The history of a run: every reserve and rollback that took effect, in order,
    and what it leaves outstanding. These are bookkeeping of the model, not fields
    of the system. */
module Ledger {
  import opened NodeModel

  datatype Kind = Reserved | RolledBack

  /** One executed script: `version` is the record's version just before it. */
  datatype Event = Event(kind: Kind, client: nat, node: NodeName, cpu: int, mem: int, version: int)

  /** One reservation of a client on a node. */
  datatype Reservation = Reservation(client: nat, node: NodeName, cpu: int, mem: int)

  /** The three amounts a reservation takes. */
  datatype Resource = Cpu | Memory | Pods

  function ReservationOf(e: Event): Reservation {
    Reservation(e.client, e.node, e.cpu, e.mem)
  }

  function Amount(r: Reservation, d: Resource): int {
    match d
    case Cpu => r.cpu
    case Memory => r.mem
    case Pods => 1
  }

  /** What a reservation costs a node. */
  function CostOn(r: Reservation, node: NodeName, d: Resource): int {
    if r.node == node then Amount(r, d) else 0
  }

  /** Drops the newest occurrence of a reservation. */
  function RemoveOne(rs: seq<Reservation>, r: Reservation): seq<Reservation> {
    if rs == [] then []
    else if rs[|rs| - 1] == r then rs[..|rs| - 1]
    else RemoveOne(rs[..|rs| - 1], r) + [rs[|rs| - 1]]
  }

  /** The reservations made and not rolled back. */
  function Outstanding(log: seq<Event>): seq<Reservation> {
    if log == [] then []
    else
      var before := Outstanding(log[..|log| - 1]);
      var e := log[|log| - 1];
      match e.kind
      case Reserved => before + [ReservationOf(e)]
      case RolledBack => RemoveOne(before, ReservationOf(e))
  }

  /** Total of the reservations that lie on a node. */
  function Load(rs: seq<Reservation>, node: NodeName, d: Resource): int {
    if rs == [] then 0 else Load(rs[..|rs| - 1], node, d) + CostOn(rs[|rs| - 1], node, d)
  }

  function Count(rs: seq<Reservation>, r: Reservation): nat {
    if rs == [] then 0 else Count(rs[..|rs| - 1], r) + if rs[|rs| - 1] == r then 1 else 0
  }

  /** How many events touched a node: each of them bumped its version once. */
  function EventsOn(log: seq<Event>, node: NodeName): nat {
    if log == [] then 0
    else EventsOn(log[..|log| - 1], node) + if log[|log| - 1].node == node then 1 else 0
  }

  /** How many events of one kind a client caused on a node. */
  function Caused(log: seq<Event>, kind: Kind, client: nat, node: NodeName): nat {
    if log == [] then 0
    else
      var e := log[|log| - 1];
      Caused(log[..|log| - 1], kind, client, node)
      + if e.kind == kind && e.client == client && e.node == node then 1 else 0
  }

  /** Every rollback undoes a reservation outstanding at that moment, and no
      reservation has a negative amount. */
  ghost predicate WellFormed(log: seq<Event>) {
    log == []
    || (var before := log[..|log| - 1];
        var e := log[|log| - 1];
        && WellFormed(before)
        && 0 <= e.cpu && 0 <= e.mem
        && (e.kind.RolledBack? ==> Count(Outstanding(before), ReservationOf(e)) > 0))
  }

  /** Event number k carries the version its node had after the events before it. */
  ghost predicate VersionedAt(log: seq<Event>, base: map<NodeName, NodeState>, k: nat)
    requires k < |log|
  {
    log[k].node in base && log[k].version == base[log[k].node].version + EventsOn(log[..k], log[k].node)
  }

  ghost predicate Versioned(log: seq<Event>, base: map<NodeName, NodeState>) {
    forall k: nat {:trigger VersionedAt(log, base, k)} :: k < |log| ==> VersionedAt(log, base, k)
  }

  // ----- lemmas -----

  lemma Last<T>(s: seq<T>, x: T)
    ensures (s + [x])[..|s + [x]| - 1] == s
    ensures (s + [x])[|s + [x]| - 1] == x
  {
  }

  lemma {:induction false} RemoveOneCount(rs: seq<Reservation>, r: Reservation, x: Reservation)
    requires Count(rs, r) > 0
    ensures Count(RemoveOne(rs, r), x) == Count(rs, x) - if x == r then 1 else 0
  {
    var last := rs[|rs| - 1];
    if last != r {
      RemoveOneCount(rs[..|rs| - 1], r, x);
      Last(RemoveOne(rs[..|rs| - 1], r), last);
    }
  }

  lemma {:induction false} RemoveOneLoad(rs: seq<Reservation>, r: Reservation, node: NodeName, d: Resource)
    requires Count(rs, r) > 0
    ensures Load(RemoveOne(rs, r), node, d) == Load(rs, node, d) - CostOn(r, node, d)
  {
    var last := rs[|rs| - 1];
    if last != r {
      RemoveOneLoad(rs[..|rs| - 1], r, node, d);
      Last(RemoveOne(rs[..|rs| - 1], r), last);
    }
  }

  /** One more event changes the outstanding reservations by exactly that event. */
  lemma OneMoreEvent(log: seq<Event>, e: Event, r: Reservation, node: NodeName, d: Resource)
    requires e.kind.RolledBack? ==> Count(Outstanding(log), ReservationOf(e)) > 0
    ensures Count(Outstanding(log + [e]), r)
         == Count(Outstanding(log), r) + (if r != ReservationOf(e) then 0 else if e.kind.Reserved? then 1 else -1)
    ensures Load(Outstanding(log + [e]), node, d)
         == Load(Outstanding(log), node, d)
            + if e.kind.Reserved? then CostOn(ReservationOf(e), node, d) else -CostOn(ReservationOf(e), node, d)
  {
    Last(log, e);
    match e.kind
    case Reserved =>
      Last(Outstanding(log), ReservationOf(e));
    case RolledBack =>
      RemoveOneCount(Outstanding(log), ReservationOf(e), r);
      RemoveOneLoad(Outstanding(log), ReservationOf(e), node, d);
  }

  ghost predicate NonNegative(rs: seq<Reservation>) {
    forall i :: 0 <= i < |rs| ==> 0 <= rs[i].cpu && 0 <= rs[i].mem
  }

  /** With no negative amount outstanding, each reservation is covered by its node's load. */
  lemma {:induction false} LoadCovers(rs: seq<Reservation>, r: Reservation, node: NodeName, d: Resource)
    requires NonNegative(rs)
    ensures 0 <= Load(rs, node, d)
    ensures Count(rs, r) > 0 && r.node == node ==> Amount(r, d) <= Load(rs, node, d)
  {
    if rs != [] {
      LoadCovers(rs[..|rs| - 1], r, node, d);
    }
  }

  lemma {:induction false} RemoveOneNonNegative(rs: seq<Reservation>, r: Reservation)
    requires NonNegative(rs)
    ensures NonNegative(RemoveOne(rs, r))
  {
    if rs != [] && rs[|rs| - 1] != r {
      RemoveOneNonNegative(rs[..|rs| - 1], r);
    }
  }

  lemma {:induction false} OutstandingNonNegative(log: seq<Event>)
    requires WellFormed(log)
    ensures NonNegative(Outstanding(log))
  {
    if log != [] {
      var before := log[..|log| - 1];
      OutstandingNonNegative(before);
      RemoveOneNonNegative(Outstanding(before), ReservationOf(log[|log| - 1]));
    }
  }

  /** What a client has outstanding on a node is its reserves less its rollbacks there. */
  lemma {:induction false} OutstandingIsNet(log: seq<Event>, r: Reservation)
    requires WellFormed(log)
    requires forall k :: 0 <= k < |log| && log[k].client == r.client ==> log[k].cpu == r.cpu && log[k].mem == r.mem
    ensures Count(Outstanding(log), r) == Caused(log, Reserved, r.client, r.node) - Caused(log, RolledBack, r.client, r.node)
  {
    if log != [] {
      var before := log[..|log| - 1];
      var e := log[|log| - 1];
      assert log == before + [e];
      OutstandingIsNet(before, r);
      OneMoreEvent(before, e, r, r.node, Pods);
    }
  }

  lemma {:induction false} EventsOnPrefix(log: seq<Event>, k: nat, node: NodeName)
    requires k <= |log|
    ensures EventsOn(log[..k], node) <= EventsOn(log, node)
  {
    if k < |log| {
      EventsOnPrefix(log[..|log| - 1], k, node);
      assert log[..|log| - 1][..k] == log[..k];
    } else {
      assert log[..k] == log;
    }
  }

  /** Versions recorded for one node are strictly increasing along the history. */
  lemma VersionsIncrease(log: seq<Event>, base: map<NodeName, NodeState>, i: nat, j: nat)
    requires Versioned(log, base)
    requires i < j < |log| && log[i].node == log[j].node
    ensures log[i].version < log[j].version
  {
    var n := log[i].node;
    assert VersionedAt(log, base, i) && VersionedAt(log, base, j);
    EventsOnPrefix(log[..j], i + 1, n);
    assert log[..j][..i + 1] == log[..i + 1];
    assert log[..i + 1][..i] == log[..i];
    assert log[..i + 1][i] == log[i];
  }

  /** If a longer history has no further event on a node, the node's load is unchanged. */
  lemma {:induction false} SameCountSameLoad(log: seq<Event>, k: nat, node: NodeName, d: Resource)
    requires WellFormed(log)
    requires k <= |log| && EventsOn(log[..k], node) == EventsOn(log, node)
    ensures Load(Outstanding(log[..k]), node, d) == Load(Outstanding(log), node, d)
  {
    if k < |log| {
      var before := log[..|log| - 1];
      var e := log[|log| - 1];
      assert log == before + [e];
      assert before[..k] == log[..k];
      EventsOnPrefix(before, k, node);
      SameCountSameLoad(before, k, node, d);
      OneMoreEvent(before, e, ReservationOf(e), node, d);
    } else {
      assert log[..k] == log;
    }
  }
}
