/** What a call has done by the time it holds a reservation, or has given up: every
    candidate before was tried, and the reserve acted on the version, and so on the usage,
    that the candidate list was made from. */
module Attempts {
  import opened Wrappers
  import opened NodeModel
  import opened SchedulerRepo
  import opened Ledger
  import opened Protocol
  import opened Invariant
  import opened Safety

  // ----- every candidate is tried -----

  /** Some step of the run is the call's attempt to lock its i-th candidate. */
  predicate Tried(s0: Sys, steps: seq<Step>, c: nat, i: nat) {
    steps != [] &&
      var rest, l := steps[..|steps| - 1], steps[|steps| - 1];
      || Tried(s0, rest, c, i)
      || (l.TryLock? && l.c == c && Ready(Run(s0, rest), c) && Run(s0, rest).clients[c].pc == Trying(i))
  }

  /** How many candidates the call has at least begun to try. */
  function Begun(s: Sys, c: nat): nat {
    if c !in s.clients then 0 else s.clients[c].pc.i + if s.clients[c].pc.Trying? then 0 else 1
  }

  lemma BegunOfLocking(s: Sys, l: Step, c: nat)
    requires (l.Arrive? || l.TryLock? || l.Unlock?) && Mover(l) == Some(c)
    ensures var tries := l.TryLock? && Ready(s, c) && s.clients[c].pc.Trying?;
            Begun(Apply(s, l), c) == Begun(s, c) + if tries then 1 else 0
  {
  }

  lemma BegunOfChecks(s: Sys, l: Step, c: nat)
    requires (l.Fetch? || l.Conclude?) && Mover(l) == Some(c)
    ensures Begun(Apply(s, l), c) == Begun(s, c)
  {
  }

  lemma BegunOfScripts(s: Sys, l: Step, c: nat)
    requires (l.Reserve? || l.Rollback?) && Mover(l) == Some(c)
    ensures Begun(Apply(s, l), c) == Begun(s, c)
  {
  }

  lemma BegunOfStep(s: Sys, l: Step, c: nat)
    ensures var tries := l.TryLock? && l.c == c && Ready(s, c) && s.clients[c].pc.Trying?;
            Begun(Apply(s, l), c) == Begun(s, c) + if tries then 1 else 0
  {
    if Mover(l) != Some(c) {
      OthersUntouched(s, l, c);
    } else if l.Fetch? || l.Conclude? {
      BegunOfChecks(s, l, c);
    } else if l.Reserve? || l.Rollback? {
      BegunOfScripts(s, l, c);
    } else {
      BegunOfLocking(s, l, c);
    }
  }

  /** In every run a call has tried exactly its first candidates, one after the other. */
  lemma {:induction false} TriedInOrder(s0: Sys, steps: seq<Step>, c: nat, i: nat)
    requires Init(s0)
    ensures Tried(s0, steps, c, i) <==> i < Begun(Run(s0, steps), c)
  {
    if steps != [] {
      var rest, l := steps[..|steps| - 1], steps[|steps| - 1];
      TriedInOrder(s0, rest, c, i);
      BegunOfStep(Run(s0, rest), l, c);
    }
  }

  // ----- every reserve is checked -----

  /** What the call read passed the comparison with the listed version and the filter. */
  ghost predicate Checked(client: Client) {
    client.pc.Fetched? ==>
      && HasNode(client)
      && client.pc.seen.version == client.scored[client.pc.i].version
      && CheckHardConstraints(client.intent, client.pc.seen).None?
  }

  /** The reserve of the call's current candidate, at the version the candidate was listed with. */
  function ListedReserve(c: nat, client: Client): Event
    requires HasNode(client)
  {
    Event(Reserved, c, NodeOf(client), client.intent.cpu, client.intent.mem, client.scored[client.pc.i].version)
  }

  ghost predicate ReservedAsListed(s: Sys, c: nat) {
    c in s.clients ==>
      && Checked(s.clients[c])
      && (Holding(s.clients[c].pc) && HasNode(s.clients[c]) ==> ListedReserve(c, s.clients[c]) in s.log)
      && (s.clients[c].pc.Bound? && HasNode(s.clients[c]) ==> Vouched(s.clients[c]))
  }

  lemma LogGrows(s: Sys, l: Step)
    ensures s.log <= Apply(s, l).log
  {
    if l.Fetch? || l.Conclude? {
      ChecksAreLocal(s, l);
    }
  }

  lemma AsListedByLocking(s: Sys, l: Step, c: nat)
    requires (l.Arrive? || l.TryLock? || l.Unlock?) && Mover(l) == Some(c) && ReservedAsListed(s, c)
    ensures ReservedAsListed(Apply(s, l), c)
  {
  }

  lemma AsListedByFetch(s: Sys, c: nat, reply: Reply)
    requires ReservedAsListed(s, c)
    ensures ReservedAsListed(Apply(s, Fetch(c, reply)), c)
  {
  }

  lemma AsListedByConclude(s: Sys, c: nat, bind: BindReply)
    requires ReservedAsListed(s, c)
    ensures ReservedAsListed(Apply(s, Conclude(c, bind)), c)
  {
  }

  lemma AsListedByReserve(s: Sys, c: nat, reply: Reply)
    requires ReservedAsListed(s, c)
    ensures ReservedAsListed(Apply(s, Reserve(c, reply)), c)
  {
    var t := Apply(s, Reserve(c, reply));
    if t.log != s.log {
      assert t.log[|s.log|] in t.log;
    }
  }

  lemma AsListedByRollback(s: Sys, c: nat, reply: Reply)
    requires ReservedAsListed(s, c)
    ensures ReservedAsListed(Apply(s, Rollback(c, reply)), c)
  {
  }

  lemma AsListedByOthers(s: Sys, l: Step, c: nat)
    requires Mover(l) != Some(c) && ReservedAsListed(s, c)
    ensures ReservedAsListed(Apply(s, l), c)
  {
    OthersUntouched(s, l, c);
    LogGrows(s, l);
    assert forall e :: e in s.log ==> e in Apply(s, l).log;
  }

  lemma {:induction false} RunReservesAsListed(s0: Sys, steps: seq<Step>, c: nat)
    requires Init(s0)
    ensures ReservedAsListed(Run(s0, steps), c)
  {
    if steps != [] {
      var rest, l := steps[..|steps| - 1], steps[|steps| - 1];
      var s := Run(s0, rest);
      RunReservesAsListed(s0, rest, c);
      if Mover(l) != Some(c) {
        AsListedByOthers(s, l, c);
      } else {
        match l
        case Fetch(_, reply) => AsListedByFetch(s, c, reply);
        case Conclude(_, bind) => AsListedByConclude(s, c, bind);
        case Reserve(_, reply) => AsListedByReserve(s, c, reply);
        case Rollback(_, reply) => AsListedByRollback(s, c, reply);
        case _ => AsListedByLocking(s, l, c);
      }
    }
  }

  /** A call that holds a reservation made it at the very version its candidate was listed
      with; and one that has bound its pod did so on a node that the API list vouches for. */
  lemma {:induction false} HeldAsListed(s0: Sys, steps: seq<Step>, c: nat)
    requires Init(s0)
    requires var s := Run(s0, steps); c in s.clients && Holding(s.clients[c].pc)
    ensures var s := Run(s0, steps);
            var client := s.clients[c];
            && HasNode(client) && ListedReserve(c, client) in s.log
            && (client.pc.Bound? ==> Vouched(client))
  {
    ReachableInv(s0, steps);
    assert ClientOk(Run(s0, steps), c);
    RunReservesAsListed(s0, steps, c);
  }

  /** From the listing to the script no update is lost: a reserve takes effect only while the
      node's record has the usage it had when it was listed, at any moment of the run with
      the version the candidate carries, and what the caller re-read passed the filter. */
  lemma {:induction false} ReserveActsOnListing(s0: Sys, steps: seq<Step>, i: nat, c: nat, reply: Reply, d: Resource)
    requires Init(s0) && i <= |steps|
    requires var s := Run(s0, steps);
             Enabled(s, Reserve(c, reply)) && Apply(s, Reserve(c, reply)).log != s.log
    requires var client, listed := Run(s0, steps).clients[c], Run(s0, steps[..i]).nodes;
             NodeOf(client) in listed && listed[NodeOf(client)].version == client.scored[client.pc.i].version
    ensures var s := Run(s0, steps);
            var n := NodeOf(s.clients[c]);
            && n in s.nodes && Used(s.nodes[n], d) == Used(Run(s0, steps[..i]).nodes[n], d)
            && SameUsage(s.nodes[n], s.clients[c].pc.seen)
            && CheckHardConstraints(s.clients[c].intent, s.clients[c].pc.seen).None?
  {
    RunReservesAsListed(s0, steps, c);
    NoLostUpdate(s0, steps, c, reply);
    assert steps[..|steps|] == steps;
    UsageIsFunctionOfVersion(s0, steps, i, |steps|, NodeOf(Run(s0, steps).clients[c]), d);
  }
}
