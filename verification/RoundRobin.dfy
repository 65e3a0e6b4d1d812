/** Round-robin distribution: an atomic counter per service hands out indices, which
    rotate the scheduler's ranked list and pick the ranking endpoint's node. */
module RoundRobin {
  import opened Wrappers
  import opened SchedulerRepo

  type Service = nat

  // ----- how often consecutive indices meet a position -----

  /** How many of the m indices from a on are hits. */
  function Hits(a: nat, m: nat, hit: nat -> bool): nat {
    if m == 0 then 0 else Hits(a, m - 1, hit) + if hit(a + m - 1) then 1 else 0
  }

  /** The indices that fall on position p of n. */
  function On(n: nat, p: nat): nat -> bool
    requires p < n
  {
    x => x % n == p
  }

  lemma {:induction false} NextIndex(x: nat, n: nat)
    requires 0 < n
    ensures (x + 1) % n == if x % n == n - 1 then 0 else x % n + 1
    ensures (x + 1) / n == if x % n == n - 1 then x / n + 1 else x / n
  {
    var q, r := x / n, x % n;
    assert x == q * n + r;
    if r == n - 1 {
      assert x + 1 == (q + 1) * n;
      Divide(x + 1, n, q + 1, 0);
    } else {
      Divide(x + 1, n, q, r + 1);
    }
  }

  lemma LargeMultiple(k: int, n: int)
    requires k >= 1 && 0 <= n
    ensures k * n >= n
  {
    assert k * n == (k - 1) * n + n;
    assert (k - 1) * n >= 0;
  }

  lemma SmallMultiple(k: int, n: int)
    requires 0 < n && -n < k * n < n
    ensures k == 0
  {
    if k >= 1 {
      LargeMultiple(k, n);
    } else if k <= -1 {
      LargeMultiple(-k, n);
    }
  }

  lemma Distribute(a: int, b: int, n: int)
    ensures (a - b) * n == a * n - b * n && (a + b) * n == a * n + b * n
  {
  }

  lemma {:induction false} Divide(x: nat, n: nat, q: nat, r: nat)
    requires r < n && x == q * n + r
    ensures x / n == q && x % n == r
  {
    var d := x / n;
    var e := x % n;
    assert x == d * n + e;
    Distribute(d, q, n);
    SmallMultiple(d - q, n);
  }

  /** Indices before x that fall on position p. */
  function Before(x: nat, n: nat, p: nat): nat
    requires p < n
  {
    x / n + if p < x % n then 1 else 0
  }

  lemma {:induction false} HitsExact(a: nat, m: nat, n: nat, p: nat)
    requires p < n
    ensures Hits(a, m, On(n, p)) == Before(a + m, n, p) - Before(a, n, p)
  {
    if m > 0 {
      HitsExact(a, m - 1, n, p);
      NextIndex(a + m - 1, n);
    }
  }

  lemma {:induction false} SumOfMultiples(a: nat, m: nat, n: nat, q: nat, r: nat, u: nat, v: nat)
    requires r < n && v < n && a == q * n + r && m == u * n + v
    ensures (a + m) / n == q + u + if r + v < n then 0 else 1
    ensures (a + m) % n == r + v - if r + v < n then 0 else n
  {
    Distribute(q, u, n);
    if r + v < n {
      Divide(a + m, n, q + u, r + v);
    } else {
      Distribute(q + u, 1, n);
      Divide(a + m, n, q + u + 1, r + v - n);
    }
  }

  lemma {:induction false} SumDivides(a: nat, m: nat, n: nat)
    requires 0 < n
    ensures (a + m) / n == a / n + m / n + if a % n + m % n < n then 0 else 1
    ensures (a + m) % n == a % n + m % n - if a % n + m % n < n then 0 else n
  {
    Recompose(a, n);
    Recompose(m, n);
    SumOfMultiples(a, m, n, a / n, a % n, m / n, m % n);
  }

  lemma Recompose(x: nat, n: nat)
    requires 0 < n
    ensures x == x / n * n + x % n && x % n < n
  {
  }

  /** Any m consecutive indices meet each of n positions m / n times, rounded down or up. */
  lemma {:induction false} Fair(a: nat, m: nat, n: nat, p: nat)
    requires p < n
    ensures Hits(a, m, On(n, p)) == m / n || (Hits(a, m, On(n, p)) == m / n + 1 && m % n != 0)
  {
    HitsExact(a, m, n, p);
    SumDivides(a, m, n);
  }

  // ----- rotation -----

  function Rotated<T>(s: seq<T>, offset: nat): seq<T>
    requires offset <= |s|
  {
    s[offset..] + s[..offset]
  }

  /** The list from the drawn turn on, if a turn was drawn. */
  function InTurn<T>(s: seq<T>, index: Option<nat>): seq<T> {
    if index.Some? && |s| > 1 then Rotated(s, index.value % |s|) else s
  }

  /** Which of n ranked nodes stands at place i after rotating by index x. */
  function Shown(n: nat, x: nat, i: nat): (j: nat)
    requires 0 < n
    ensures j < n
  {
    (x + i) % n
  }

  lemma {:induction false} RotatedAt<T>(s: seq<T>, x: nat, i: nat)
    requires i < |s|
    ensures Rotated(s, x % |s|)[i] == s[Shown(|s|, x, i)]
  {
    SumDivides(x, i, |s|);
    Divide(i, |s|, 0, i);
  }

  lemma RotatedPermutes<T>(s: seq<T>, offset: nat)
    requires offset <= |s|
    ensures multiset(Rotated(s, offset)) == multiset(s)
  {
    assert s == s[..offset] + s[offset..];
  }

  function ShownLater(n: nat, a: nat, k: nat, i: nat): nat
    requires 0 < n
  {
    Shown(n, a + k, i)
  }

  /** Each further index moves the ranked list along by one. */
  lemma {:induction false} LaterByOne(n: nat, a: nat, k: nat, i: nat)
    requires k < n
    ensures ShownLater(n, a, k, i) == (if Shown(n, a, i) + k < n then Shown(n, a, i) + k else Shown(n, a, i) + k - n)
  {
    SumDivides(a + i, k, n);
    Divide(k, n, 0, k);
    assert a + i + k == a + k + i;
  }

  predicate Distinct<T(==)>(s: seq<T>) {
    forall i, j :: 0 <= i < j < |s| ==> s[i] != s[j]
  }

  /** What stands at place i of the list in the turn k indices after a. */
  function PlaceInTurn<T>(s: seq<T>, a: nat, k: nat, i: nat): T
    requires i < |s|
  {
    InTurn(s, Some(a + k))[i]
  }

  lemma PlaceIsShown<T>(s: seq<T>, a: nat, k: nat, i: nat)
    requires i < |s|
    ensures PlaceInTurn(s, a, k, i) == s[ShownLater(|s|, a, k, i)]
  {
    if |s| > 1 {
      RotatedAt(s, a + k, i);
    }
  }

  /** Over any n consecutive indices, every one of n nodes takes every place in the list
      exactly once. */
  lemma {:induction false} EveryNodeEveryPlaceOnce<T>(s: seq<T>, a: nat, i: nat, j: nat) returns (k: nat)
    requires Distinct(s) && i < |s| && j < |s|
    ensures k < |s| && PlaceInTurn(s, a, k, i) == s[j]
    ensures forall other: nat :: other < |s| && PlaceInTurn(s, a, other, i) == s[j] ==> other == k
  {
    var n, x := |s|, Shown(|s|, a, i);
    k := if j >= x then j - x else j - x + n;
    LaterByOne(n, a, k, i);
    PlaceIsShown(s, a, k, i);
    forall other: nat | other < n && PlaceInTurn(s, a, other, i) == s[j] ensures other == k {
      LaterByOne(n, a, other, i);
      PlaceIsShown(s, a, other, i);
    }
  }

  /** Go's copy: as many elements as fit. */
  method Copy<T>(dst: array<T>, at: nat, src: seq<T>)
    requires at + |src| <= dst.Length
    modifies dst
    ensures dst[..] == old(dst[..])[..at] + src + old(dst[..])[at + |src|..]
  {
    for i := 0 to |src|
      invariant dst[..] == old(dst[..])[..at] + src[..i] + old(dst[..])[at + i..]
    {
      ghost var was := dst[..];
      dst[at + i] := src[i];
      assert dst[..] == was[at + i := src[i]];
      CopiedOneMore(old(dst[..]), at, src, i, was);
    }
    assert src[..|src|] == src;
  }

  lemma CopiedOneMore<T>(before: seq<T>, at: nat, src: seq<T>, i: nat, now: seq<T>)
    requires at + |src| <= |before| && i < |src| && now == before[..at] + src[..i] + before[at + i..]
    ensures now[at + i := src[i]] == before[..at] + src[..i + 1] + before[at + i + 1..]
  {
    assert src[..i + 1] == src[..i] + [src[i]];
  }

  /** The order in which a call tries the ranked nodes, given the index it drew, if any. */
  method RotateRanked<T(0)>(scored: seq<T>, index: Option<nat>) returns (r: seq<T>)
    ensures r == InTurn(scored, index)
    ensures multiset(r) == multiset(scored)
  {
    r := scored;
    if index.None? || |scored| <= 1 {
      return;
    }
    var offset := index.value % |scored|;
    if offset > 0 {
      var rotated := new T[|scored|];
      Copy(rotated, 0, scored[offset..]);
      Copy(rotated, |scored| - offset, scored[..offset]);
      r := rotated[..];
    }
    RotatedPermutes(scored, offset);
  }

  // ----- the counters -----

  /** An executed increment: the index handed out, and whether the caller learnt it. */
  datatype Draw = Draw(svc: Service, index: nat, learnt: bool)

  datatype Counters = Counters(values: map<Service, nat>, draws: seq<Draw>)

  datatype Step = Increment(svc: Service, reply: Reply) | Expire(svc: Service)

  function ValueOf(c: Counters, svc: Service): nat {
    if svc in c.values then c.values[svc] else 0
  }

  function Apply(c: Counters, l: Step): Counters {
    match l
    case Increment(svc, reply) =>
      if reply.RequestLost? then c
      else Counters(c.values[svc := ValueOf(c, svc) + 1], c.draws + [Draw(svc, ValueOf(c, svc), reply.Delivered?)])
    case Expire(svc) => c.(values := c.values - {svc})
  }

  function Run(c: Counters, steps: seq<Step>): Counters {
    if steps == [] then c else Apply(Run(c, steps[..|steps| - 1]), steps[|steps| - 1])
  }

  /** How many draws of a service there are. */
  function Drawn(draws: seq<Draw>, svc: Service): nat {
    if draws == [] then 0 else Drawn(draws[..|draws| - 1], svc) + if draws[|draws| - 1].svc == svc then 1 else 0
  }

  /** How many of their indices are hits. */
  function Picks(draws: seq<Draw>, svc: Service, hit: nat -> bool): nat {
    if draws == [] then 0
    else
      var last := draws[|draws| - 1];
      Picks(draws[..|draws| - 1], svc, hit) + if last.svc == svc && hit(last.index) then 1 else 0
  }

  /** The draws made so far are the indices from `first` on, one by one. */
  ghost predicate Consecutive(c: Counters, first: nat, svc: Service, hit: nat -> bool) {
    var m := Drawn(c.draws, svc);
    ValueOf(c, svc) == first + m && Picks(c.draws, svc, hit) == Hits(first, m, hit)
  }

  lemma OneMoreDraw(draws: seq<Draw>, d: Draw, svc: Service, hit: nat -> bool)
    ensures Drawn(draws + [d], svc) == Drawn(draws, svc) + if d.svc == svc then 1 else 0
    ensures Picks(draws + [d], svc, hit) == Picks(draws, svc, hit) + if d.svc == svc && hit(d.index) then 1 else 0
  {
    assert (draws + [d])[..|draws + [d]| - 1] == draws;
  }

  lemma StepKeepsConsecutive(c: Counters, l: Step, first: nat, svc: Service, hit: nat -> bool)
    requires Consecutive(c, first, svc, hit) && l != Expire(svc)
    ensures Consecutive(Apply(c, l), first, svc, hit)
  {
    match l
    case Expire(_) =>
    case Increment(other, reply) =>
      if !reply.RequestLost? {
        var draw := Draw(other, ValueOf(c, other), reply.Delivered?);
        OneMoreDraw(c.draws, draw, svc, hit);
        var m := Drawn(c.draws, svc);
        assert other == svc ==> Hits(first, m + 1, hit) == Hits(first, m, hit) + if hit(draw.index) then 1 else 0;
        assert Apply(c, l).draws == c.draws + [draw];
      }
  }

  lemma {:induction false} DrawsAreConsecutive(c: Counters, steps: seq<Step>, svc: Service, hit: nat -> bool)
    requires c.draws == [] && Expire(svc) !in steps
    ensures Consecutive(Run(c, steps), ValueOf(c, svc), svc, hit)
  {
    if steps != [] {
      DrawsAreConsecutive(c, steps[..|steps| - 1], svc, hit);
      StepKeepsConsecutive(Run(c, steps[..|steps| - 1]), steps[|steps| - 1], ValueOf(c, svc), svc, hit);
    }
  }

  /** In every run of any number of callers, as long as the service's counter does not
      expire: of m draws every one of n positions gets m / n, rounded down or up. */
  lemma {:induction false} DrawsAreFair(c: Counters, steps: seq<Step>, svc: Service, n: nat, p: nat)
    requires p < n && c.draws == [] && Expire(svc) !in steps
    ensures var draws := Run(c, steps).draws;
            var m := Drawn(draws, svc);
            var picks := Picks(draws, svc, On(n, p));
            picks == m / n || (picks == m / n + 1 && m % n != 0)
  {
    DrawsAreConsecutive(c, steps, svc, On(n, p));
    Fair(ValueOf(c, svc), Drawn(Run(c, steps).draws, svc), n, p);
  }

  lemma {:induction false} SamePicks(draws: seq<Draw>, svc: Service, f: nat -> bool, g: nat -> bool)
    requires forall x :: f(x) == g(x)
    ensures Picks(draws, svc, f) == Picks(draws, svc, g)
  {
    if draws != [] {
      SamePicks(draws[..|draws| - 1], svc, f, g);
    }
  }

  /** The indices that select a node from the ranked list. */
  function Selects<T(==)>(ranked: seq<T>, node: T): nat -> bool
    requires ranked != []
  {
    x => ranked[x % |ranked|] == node
  }

  /** The draws that make their caller select: hits whose index the caller learnt. */
  function Selected(draws: seq<Draw>, svc: Service, hit: nat -> bool): nat {
    if draws == [] then 0
    else
      var last := draws[|draws| - 1];
      Selected(draws[..|draws| - 1], svc, hit) + if last.svc == svc && hit(last.index) && last.learnt then 1 else 0
  }

  /** How often the run increments the service's counter, with this reply, while its value
      is a hit. */
  function Turns(c: Counters, steps: seq<Step>, svc: Service, hit: nat -> bool, reply: Reply): nat {
    if steps == [] then 0
    else
      var rest := steps[..|steps| - 1];
      Turns(c, rest, svc, hit, reply)
      + if steps[|steps| - 1] == Increment(svc, reply) && hit(ValueOf(Run(c, rest), svc)) then 1 else 0
  }

  lemma TurnStep(c: Counters, l: Step, svc: Service, hit: nat -> bool)
    ensures var draws := Apply(c, l).draws;
            var turn := if hit(ValueOf(c, svc)) then 1 else 0;
            && Selected(draws, svc, hit) == Selected(c.draws, svc, hit) + (if l == Increment(svc, Delivered) then turn else 0)
            && Picks(draws, svc, hit)
               == Picks(c.draws, svc, hit) + if l == Increment(svc, Delivered) || l == Increment(svc, ReplyLost) then turn else 0
  {
    var t := Apply(c, l);
    if t.draws != c.draws {
      assert t.draws[..|t.draws| - 1] == c.draws;
    }
  }

  /** A hit is drawn by an increment that takes effect, and selected by one whose reply
      arrives. */
  lemma {:induction false} PicksAreTurns(c: Counters, steps: seq<Step>, svc: Service, hit: nat -> bool)
    requires c.draws == []
    ensures var draws := Run(c, steps).draws;
            && Selected(draws, svc, hit) == Turns(c, steps, svc, hit, Delivered)
            && Picks(draws, svc, hit) == Turns(c, steps, svc, hit, Delivered) + Turns(c, steps, svc, hit, ReplyLost)
  {
    if steps != [] {
      PicksAreTurns(c, steps[..|steps| - 1], svc, hit);
      TurnStep(Run(c, steps[..|steps| - 1]), steps[|steps| - 1], svc, hit);
    }
  }

  lemma {:induction false} NothingLostNoTurnLost(c: Counters, steps: seq<Step>, svc: Service, hit: nat -> bool)
    requires Increment(svc, ReplyLost) !in steps
    ensures Turns(c, steps, svc, hit, ReplyLost) == 0
  {
    if steps != [] {
      NothingLostNoTurnLost(c, steps[..|steps| - 1], svc, hit);
    }
  }

  /** While the ranked list stays the same, each of its n nodes is due m / n times in m
      draws, rounded down or up. It is selected exactly as often as it is due, less the
      replies lost while the counter stood at one of its turns; and without lost replies
      none is. */
  lemma {:induction false} SelectionIsFair<T(!new)>(c: Counters, steps: seq<Step>, svc: Service, ranked: seq<T>, node: T)
    requires Distinct(ranked) && node in ranked && c.draws == [] && Expire(svc) !in steps
    ensures var draws := Run(c, steps).draws;
            var m, n := Drawn(draws, svc), |ranked|;
            var due := Selected(draws, svc, Selects(ranked, node)) + Turns(c, steps, svc, Selects(ranked, node), ReplyLost);
            due == m / n || (due == m / n + 1 && m % n != 0)
    ensures Selected(Run(c, steps).draws, svc, Selects(ranked, node)) == Turns(c, steps, svc, Selects(ranked, node), Delivered)
    ensures Increment(svc, ReplyLost) !in steps ==> Turns(c, steps, svc, Selects(ranked, node), ReplyLost) == 0
  {
    var draws := Run(c, steps).draws;
    var p :| 0 <= p < |ranked| && ranked[p] == node;
    DrawsAreFair(c, steps, svc, |ranked|, p);
    SamePicks(draws, svc, Selects(ranked, node), On(|ranked|, p));
    PicksAreTurns(c, steps, svc, Selects(ranked, node));
    if Increment(svc, ReplyLost) !in steps {
      NothingLostNoTurnLost(c, steps, svc, Selects(ranked, node));
    }
  }

  lemma RunOneMore(c: Counters, steps: seq<Step>, l: Step)
    ensures Run(c, steps + [l]) == Apply(Run(c, steps), l)
  {
    assert (steps + [l])[..|steps + [l]| - 1] == steps;
  }

  function EveryOtherLost(svc: Service, rounds: nat): seq<Step> {
    if rounds == 0 then []
    else EveryOtherLost(svc, rounds - 1) + [Increment(svc, ReplyLost)] + [Increment(svc, Delivered)]
  }

  lemma SelectedOneMore(draws: seq<Draw>, d: Draw, svc: Service, hit: nat -> bool)
    ensures Selected(draws + [d], svc, hit)
         == Selected(draws, svc, hit) + if d.svc == svc && hit(d.index) && d.learnt then 1 else 0
  {
    assert (draws + [d])[..|draws + [d]| - 1] == draws;
  }

  lemma LostRound<T>(c: Counters, svc: Service, ranked: seq<T>, q: nat)
    requires |ranked| == 2 && Distinct(ranked) && ValueOf(c, svc) == 2 * q
    ensures var t := Apply(Apply(c, Increment(svc, ReplyLost)), Increment(svc, Delivered));
            && ValueOf(t, svc) == 2 * q + 2
            && Selected(t.draws, svc, Selects(ranked, ranked[0])) == Selected(c.draws, svc, Selects(ranked, ranked[0]))
            && Selected(t.draws, svc, Selects(ranked, ranked[1])) == Selected(c.draws, svc, Selects(ranked, ranked[1])) + 1
  {
    var lost, heard := Draw(svc, 2 * q, false), Draw(svc, 2 * q + 1, true);
    var first, second := Selects(ranked, ranked[0]), Selects(ranked, ranked[1]);
    assert !first(heard.index) && second(heard.index);
    SelectedOneMore(c.draws, lost, svc, first);
    SelectedOneMore(c.draws, lost, svc, second);
    SelectedOneMore(c.draws + [lost], heard, svc, first);
    SelectedOneMore(c.draws + [lost], heard, svc, second);
    assert Apply(c, Increment(svc, ReplyLost)).draws == c.draws + [lost];
  }

  /** Lost replies can starve a node: when every other one is lost, the first of two ranked
      nodes is never selected, however long this goes on. */
  lemma {:induction false} LostRepliesStarve<T>(svc: Service, ranked: seq<T>, rounds: nat)
    requires |ranked| == 2 && Distinct(ranked)
    ensures var t := Run(Counters(map[], []), EveryOtherLost(svc, rounds));
            && ValueOf(t, svc) == 2 * rounds
            && Selected(t.draws, svc, Selects(ranked, ranked[0])) == 0
            && Selected(t.draws, svc, Selects(ranked, ranked[1])) == rounds
  {
    if rounds > 0 {
      LostRepliesStarve(svc, ranked, rounds - 1);
      var before := EveryOtherLost(svc, rounds - 1);
      RunOneMore(Counters(map[], []), before, Increment(svc, ReplyLost));
      RunOneMore(Counters(map[], []), before + [Increment(svc, ReplyLost)], Increment(svc, Delivered));
      LostRound(Run(Counters(map[], []), before), svc, ranked, rounds - 1);
    }
  }

  class RoundRobinCounters {
    var values: map<Service, nat>
    var draws: seq<Draw>
    ghost var trace: seq<Step>

    function View(): Counters
      reads this
    {
      Counters(values, draws)
    }

    ghost predicate Valid()
      reads this
    {
      View() == Run(Counters(map[], []), trace)
    }

    constructor ()
      ensures Valid() && values == map[] && draws == [] && trace == []
    {
      values, draws, trace := map[], [], [];
    }

    /** INCR; the index is the value before. */
    method GetAndIncrementRoundRobin(svc: Service, reply: Reply) returns (index: Option<nat>)
      requires Valid()
      modifies this
      ensures Valid() && trace == old(trace) + [Increment(svc, reply)]
      ensures index == if reply.Delivered? then Some(ValueOf(old(View()), svc)) else None
      ensures values == if reply.RequestLost? then old(values) else old(values)[svc := ValueOf(old(View()), svc) + 1]
    {
      ghost var was := View();
      var before := if svc in values then values[svc] else 0;
      if !reply.RequestLost? {
        values := values[svc := before + 1];
        draws := draws + [Draw(svc, before, reply.Delivered?)];
      }
      Settle(was, Increment(svc, reply));
      return if reply.Delivered? then Some(before) else None;
    }

    ghost method Settle(before: Counters, l: Step)
      requires before == Run(Counters(map[], []), trace) && View() == Apply(before, l)
      modifies this`trace
      ensures Valid() && trace == old(trace) + [l]
    {
      trace := trace + [l];
      assert trace[..|trace| - 1] == old(trace);
    }
  }

  // ----- the ranking endpoint -----

  datatype Decision = Decision(preferredNode: string, scores: map<string, int>)

  datatype HostPriority = HostPriority(host: string, score: int)

  function ScoreIn(d: Decision, node: string): int {
    if node in d.scores then d.scores[node] else 50
  }

  /** One entry per node, in the order of the request. */
  ghost predicate Answers(out: seq<HostPriority>, nodes: seq<string>, score: string -> int) {
    |out| == |nodes| && forall i :: 0 <= i < |nodes| ==> out[i] == HostPriority(nodes[i], score(nodes[i]))
  }

  function Favouring(selected: string): string -> int {
    node => if node == selected then 100 else 50
  }

  function AsDecided(d: Decision): string -> int {
    node => ScoreIn(d, node)
  }

  method GenerateScoresForNode(nodes: seq<string>, selected: string) returns (out: seq<HostPriority>)
    ensures Answers(out, nodes, Favouring(selected))
  {
    out := [];
    for i := 0 to |nodes|
      invariant Answers(out, nodes[..i], Favouring(selected))
    {
      var score := 50;
      if nodes[i] == selected {
        score := 100;
      }
      out := out + [HostPriority(nodes[i], score)];
    }
  }

  method ScoresFromDecision(nodes: seq<string>, d: Decision) returns (out: seq<HostPriority>)
    ensures Answers(out, nodes, AsDecided(d))
  {
    out := [];
    for i := 0 to |nodes|
      invariant Answers(out, nodes[..i], AsDecided(d))
    {
      var score := 50;
      if nodes[i] in d.scores {
        score := d.scores[nodes[i]];
      }
      out := out + [HostPriority(nodes[i], score)];
    }
  }

  /** What sorting the nodes by descending score may return; ties may fall either way. */
  ghost predicate IsRanking(ranked: seq<string>, nodes: seq<string>, d: Decision) {
    && multiset(ranked) == multiset(nodes)
    && forall i, j :: 0 <= i < j < |ranked| ==> ScoreIn(d, ranked[i]) >= ScoreIn(d, ranked[j])
  }

  /** A preferred node among the candidates gets the top score; otherwise the node whose
      turn it is, and if no turn can be drawn every node keeps its decided score. The
      counter moves on only when a turn is drawn. */
  method ScoresFromDecisionRoundRobin(nodes: seq<string>, d: Decision, svc: Service, counters: RoundRobinCounters?,
                                      ranked: seq<string>, reply: Reply)
    returns (out: seq<HostPriority>)
    requires counters != null ==> counters.Valid()
    requires IsRanking(ranked, nodes, d)
    modifies counters
    ensures counters != null ==> counters.Valid()
    ensures var preferred := d.preferredNode != "" && d.preferredNode in nodes;
            var draws := !preferred && |nodes| > 1 && counters != null;
            && (counters != null && !draws ==> counters.trace == old(counters.trace))
            && (draws ==> counters.trace == old(counters.trace) + [Increment(svc, reply)])
            && |out| == |nodes| && |ranked| == |nodes|
            && forall i :: 0 <= i < |nodes| ==>
                 && out[i].host == nodes[i]
                 && out[i].score == (if preferred then (if nodes[i] == d.preferredNode then 100 else 50)
                                     else if draws && reply.Delivered? then
                                       (if nodes[i] == ranked[ValueOf(old(counters.View()), svc) % |ranked|] then 100 else 50)
                                     else if nodes[i] in d.scores then d.scores[nodes[i]] else 50)
  {
    assert |multiset(ranked)| == |multiset(nodes)|;
    if d.preferredNode != "" {
      for i := 0 to |nodes|
        invariant d.preferredNode !in nodes[..i]
        invariant counters != null ==> counters.Valid() && counters.trace == old(counters.trace)
      {
        if nodes[i] == d.preferredNode {
          out := GenerateScoresForNode(nodes, d.preferredNode);
          return;
        }
      }
    }
    if |nodes| <= 1 || counters == null {
      out := ScoresFromDecision(nodes, d);
      return;
    }
    var index := counters.GetAndIncrementRoundRobin(svc, reply);
    if index.None? {
      out := ScoresFromDecision(nodes, d);
      return;
    }
    out := GenerateScoresForNode(nodes, ranked[index.value % |ranked|]);
  }
}
