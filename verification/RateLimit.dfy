/** The rebalancer's rate limit as a property of the history of its cycles. Times are in
    nanoseconds, as Go's clock gives them; the store keeps whole seconds. */
module RateLimit {
  import opened Wrappers

  const SECOND := 1000000000
  const DAY := 86400 * SECOND

  /** One call of RunOnce: when it started and ended, whether it was skipped, how many pods
      it moved, whether the last-run key could be read, and whether writing it took effect
      (a cycle that is skipped does not write). */
  datatype Cycle = Cycle(start: int, end: int, skipped: bool, moved: nat, keyRead: bool, keyWritten: bool)

  type History = seq<Cycle>

  function Last(h: History): Cycle
    requires h != []
  {
    h[|h| - 1]
  }

  function Earlier(h: History): History
    requires h != []
  {
    h[..|h| - 1]
  }

  function Skipped(h: History): nat {
    if h == [] then 0 else Skipped(Earlier(h)) + if Last(h).skipped then 1 else 0
  }

  function Moved(h: History): nat {
    if h == [] then 0 else Moved(Earlier(h)) + Last(h).moved
  }

  /** A skipped cycle moves nothing, any other at most `cap` pods. */
  predicate Capped(h: History, cap: nat) {
    forall k :: 0 <= k < |h| ==> h[k].moved <= if h[k].skipped then 0 else cap
  }

  /** The cycles that were not skipped and started within [from, to), oldest first. */
  function ActiveIn(h: History, from: int, to: int): History {
    if h == [] then []
    else if !Last(h).skipped && from <= Last(h).start < to then ActiveIn(Earlier(h), from, to) + [Last(h)]
    else ActiveIn(Earlier(h), from, to)
  }

  function MovedIn(h: History, from: int, to: int): nat {
    if h == [] then 0
    else MovedIn(Earlier(h), from, to) + if from <= Last(h).start < to then Last(h).moved else 0
  }

  /** When the last cycle that was not skipped started, if there was one. */
  function LastActive(h: History): Option<int> {
    if h == [] then None
    else if !Last(h).skipped then Some(Last(h).start)
    else LastActive(Earlier(h))
  }

  /** Cycles that were not skipped start more than `gap` apart. */
  predicate Spaced(h: History, gap: int) {
    h != [] ==>
      && Spaced(Earlier(h), gap)
      && (!Last(h).skipped && LastActive(Earlier(h)).Some? ==> Last(h).start - LastActive(Earlier(h)).value > gap)
  }

  /** The store answered every read and write of the last-run key. */
  predicate Reliable(h: History) {
    forall k :: 0 <= k < |h| ==> h[k].keyRead && h[k].keyWritten
  }

  // ----- the last-run key -----

  /** A time in the store: whole seconds, until it expires. */
  datatype Stamp = Stamp(sec: int, deadline: int)

  /** The record of a start, written at its cycle's end to live for a day. */
  function StampAt(start: int, now: int): Stamp {
    Stamp(start / SECOND, now + DAY)
  }

  function Age(s: Stamp, now: int): int {
    now - s.sec * SECOND
  }

  /** Whether enough time has passed since the recorded run. A key that is missing or
      cannot be read counts as long ago. */
  predicate CooldownElapsed(key: Option<Stamp>, cooldown: int, now: int, readable: bool) {
    !readable || key.None? || key.value.deadline <= now || Age(key.value, now) >= cooldown
  }

  /** What the store holds after a history that found this key. */
  function KeyAfter(first: Option<Stamp>, h: History): Option<Stamp> {
    if h == [] then first
    else if !Last(h).skipped && Last(h).keyWritten then Some(StampAt(Last(h).start, Last(h).end))
    else KeyAfter(first, Earlier(h))
  }

  /** One cycle after the other, none of which acts unless it finds the cooldown over. */
  predicate Legal(first: Option<Stamp>, h: History, cooldown: int) {
    h != [] ==>
      && Legal(first, Earlier(h), cooldown)
      && Last(h).start <= Last(h).end
      && (Earlier(h) != [] ==> Last(Earlier(h)).end <= Last(h).start)
      && (!Last(h).skipped ==> CooldownElapsed(KeyAfter(first, Earlier(h)), cooldown, Last(h).start, Last(h).keyRead))
  }

  /** The cooldown less the second lost to truncation, but no more than the key lives. */
  function Gap(cooldown: int): int {
    if cooldown - SECOND < DAY - 1 then cooldown - SECOND else DAY - 1
  }

  lemma TruncationCostsLessThanASecond(key: Stamp, t: int, cooldown: int, now: int)
    requires key.sec == t / SECOND && t + DAY <= key.deadline
    requires CooldownElapsed(Some(key), cooldown, now, true)
    ensures now - t > Gap(cooldown)
  {
  }

  /** The loss of all but a nanosecond of that second does happen. */
  lemma TruncationLossIsTight(k: nat, cooldown: int)
    ensures var t := k * SECOND + SECOND - 1;
            CooldownElapsed(Some(StampAt(t, t)), cooldown, t + cooldown - SECOND + 1, true)
  {
    assert (k * SECOND + SECOND - 1) / SECOND == k;
  }

  lemma {:induction false} KeyIsLastActive(first: Option<Stamp>, h: History, cooldown: int)
    requires Legal(first, h, cooldown) && Reliable(h) && LastActive(h).Some?
    ensures var key := KeyAfter(first, h);
            key.Some? && key.value.sec == LastActive(h).value / SECOND && LastActive(h).value + DAY <= key.value.deadline
  {
    if Last(h).skipped {
      ReliableEarlier(h);
      KeyIsLastActive(first, Earlier(h), cooldown);
    }
  }

  lemma ReliableEarlier(h: History)
    requires h != [] && Reliable(h)
    ensures Reliable(Earlier(h)) && Last(h).keyRead && Last(h).keyWritten
  {
    assert forall k :: 0 <= k < |h| - 1 ==> Earlier(h)[k] == h[k];
  }

  /** With a store that answers, cycles that are not skipped start more than the gap apart,
      whatever the configured cooldown. */
  lemma {:induction false} LegalIsSpaced(first: Option<Stamp>, h: History, cooldown: int)
    requires Legal(first, h, cooldown) && Reliable(h)
    ensures Spaced(h, Gap(cooldown))
  {
    if h != [] {
      ReliableEarlier(h);
      LegalIsSpaced(first, Earlier(h), cooldown);
      if !Last(h).skipped && LastActive(Earlier(h)).Some? {
        KeyIsLastActive(first, Earlier(h), cooldown);
        TruncationCostsLessThanASecond(KeyAfter(first, Earlier(h)).value, LastActive(Earlier(h)).value, cooldown, Last(h).start);
      }
    }
  }

  // ----- when the spacing fails -----

  /** The history up to and including the last cycle that was not skipped. */
  function ThroughLastActive(h: History): (r: History)
    requires LastActive(h).Some?
    ensures r != [] && !Last(r).skipped && Last(r).start == LastActive(h).value
  {
    if !Last(h).skipped then h else ThroughLastActive(Earlier(h))
  }

  lemma {:induction false} SkippedLeaveNoTrace(first: Option<Stamp>, h: History, cooldown: int)
    requires LastActive(h).Some? && Legal(first, h, cooldown)
    ensures KeyAfter(first, h) == KeyAfter(first, ThroughLastActive(h)) && Legal(first, ThroughLastActive(h), cooldown)
  {
    if Last(h).skipped {
      SkippedLeaveNoTrace(first, Earlier(h), cooldown);
    }
  }

  /** The last cycle whose write of the key took effect. */
  function LastRecorded(h: History): Option<Cycle> {
    if h == [] then None
    else if !Last(h).skipped && Last(h).keyWritten then Some(Last(h))
    else LastRecorded(Earlier(h))
  }

  /** The key is old enough: the cooldown, less the fraction of a second the key dropped,
      has passed since its run started, or a day since it ended. */
  predicate OldEnough(c: Cycle, cooldown: int, now: int) {
    now - c.start >= cooldown - c.start % SECOND || now - c.end >= DAY
  }

  /** At any time: if a run was ever recorded, a cycle may act exactly when it cannot read
      the key or the last recorded run is old enough, whatever happened since. */
  lemma {:induction false} RecordedRunDecides(first: Option<Stamp>, h: History, cooldown: int, now: int, keyRead: bool)
    ensures CooldownElapsed(KeyAfter(first, h), cooldown, now, keyRead)
       <==> match LastRecorded(h)
            case None => CooldownElapsed(first, cooldown, now, keyRead)
            case Some(c) => !keyRead || OldEnough(c, cooldown, now)
  {
    if h != [] && (Last(h).skipped || !Last(h).keyWritten) {
      RecordedRunDecides(first, Earlier(h), cooldown, now, keyRead);
    }
  }

  /** A key that lets one cycle act lets every later one act. */
  lemma OnceElapsed(key: Option<Stamp>, cooldown: int, was: int, now: int)
    requires CooldownElapsed(key, cooldown, was, true) && was <= now
    ensures CooldownElapsed(key, cooldown, now, true)
  {
  }

  /** Exactly when a cycle may act at any time after the last one that acted: when it cannot
      read the key; or that one's write took effect and is old enough; or that write had no
      effect and the key it left in place lets a cycle act, which it does if that one had
      been able to read. */
  lemma {:induction false} NextCycleExactly(first: Option<Stamp>, h: History, cooldown: int, now: int, keyRead: bool)
    requires Legal(first, h, cooldown) && LastActive(h).Some?
    requires Last(ThroughLastActive(h)).end <= now
    ensures var through := ThroughLastActive(h);
            var last := Last(through);
            && (CooldownElapsed(KeyAfter(first, h), cooldown, now, keyRead) <==>
                  || !keyRead
                  || (last.keyWritten && OldEnough(last, cooldown, now))
                  || (!last.keyWritten && CooldownElapsed(KeyAfter(first, Earlier(through)), cooldown, now, true)))
            && (last.keyRead ==>
                  (CooldownElapsed(KeyAfter(first, h), cooldown, now, keyRead) <==>
                     !keyRead || !last.keyWritten || OldEnough(last, cooldown, now)))
  {
    SkippedLeaveNoTrace(first, h, cooldown);
    var through := ThroughLastActive(h);
    if Last(through).keyRead {
      OnceElapsed(KeyAfter(first, Earlier(through)), cooldown, Last(through).start, now);
    }
  }

  /** Within the gap no run is old enough, so there only the failures are left. */
  lemma {:induction false} WithinGapExactly(first: Option<Stamp>, h: History, cooldown: int, now: int, keyRead: bool)
    requires Legal(first, h, cooldown) && LastActive(h).Some?
    requires var last := Last(ThroughLastActive(h)); last.end <= now <= last.start + Gap(cooldown)
    ensures var through := ThroughLastActive(h);
            && (CooldownElapsed(KeyAfter(first, h), cooldown, now, keyRead)
                <==> !keyRead || (!Last(through).keyWritten && CooldownElapsed(KeyAfter(first, Earlier(through)), cooldown, now, true)))
            && (Last(through).keyRead ==>
                  (CooldownElapsed(KeyAfter(first, h), cooldown, now, keyRead) <==> !keyRead || !Last(through).keyWritten))
  {
    NextCycleExactly(first, h, cooldown, now, keyRead);
    SkippedLeaveNoTrace(first, h, cooldown);
  }

  /** A cooldown above a day is cut to a day: with every read and write answered, two cycles
      may act a day apart; and no sooner, if it is a second above. */
  lemma {:induction false} CutToADay(cooldown: int, t: int, moved: nat)
    requires DAY < cooldown
    ensures var h := [Cycle(t, t, false, moved, true, true), Cycle(t + DAY, t + DAY, false, moved, true, true)];
            && Legal(None, h, cooldown) && Reliable(h)
            && LastActive(Earlier(h)) == Some(t) && LastActive(h) == Some(t + DAY)
            && (DAY + SECOND <= cooldown ==>
                  forall now :: t <= now < t + DAY ==> !CooldownElapsed(KeyAfter(None, Earlier(h)), cooldown, now, true))
  {
    var h := [Cycle(t, t, false, moved, true, true), Cycle(t + DAY, t + DAY, false, moved, true, true)];
    assert Earlier(h) == [h[0]] && Earlier([h[0]]) == [];
  }

  /** Both failures happen: two cycles that act may start any time apart, none included,
      when the second cannot read the key or the first could not write it. */
  lemma {:induction false} FailuresBypassCooldown(cooldown: int, t: int, d: nat, moved: nat)
    ensures var blind := [Cycle(t, t, false, moved, true, true), Cycle(t + d, t + d, false, moved, false, true)];
            var mute := [Cycle(t, t, false, moved, true, false), Cycle(t + d, t + d, false, moved, true, true)];
            && Legal(None, blind, cooldown) && LastActive(Earlier(blind)) == Some(t) && LastActive(blind) == Some(t + d)
            && Legal(None, mute, cooldown) && LastActive(Earlier(mute)) == Some(t) && LastActive(mute) == Some(t + d)
            && !Spaced(blind, d) && !Spaced(mute, d)
  {
    var blind := [Cycle(t, t, false, moved, true, true), Cycle(t + d, t + d, false, moved, false, true)];
    var mute := [Cycle(t, t, false, moved, true, false), Cycle(t + d, t + d, false, moved, true, true)];
    assert Earlier(blind) == [blind[0]] && Earlier(mute) == [mute[0]];
    assert Earlier([blind[0]]) == [] && Earlier([mute[0]]) == [];
  }

  // ----- totals -----

  lemma OneMore(cap: nat, n: nat)
    ensures cap * (n + 1) == cap * n + cap
  {
  }

  lemma CappedEarlier(h: History, cap: nat)
    requires h != [] && Capped(h, cap)
    ensures Capped(Earlier(h), cap) && Last(h).moved <= if Last(h).skipped then 0 else cap
  {
    assert forall k :: 0 <= k < |h| - 1 ==> Earlier(h)[k] == h[k];
  }

  /** No more pods are moved in all than the cap allows for the cycles not skipped. */
  lemma {:induction false} MovedWithinCap(h: History, cap: nat)
    requires Capped(h, cap)
    ensures Skipped(h) <= |h| && Moved(h) <= cap * (|h| - Skipped(h))
  {
    if h != [] {
      CappedEarlier(h, cap);
      MovedWithinCap(Earlier(h), cap);
      OneMore(cap, |Earlier(h)| - Skipped(Earlier(h)));
    }
  }

  // ----- windows -----

  lemma {:induction false} MovedByActive(h: History, cap: nat, from: int, to: int)
    requires Capped(h, cap)
    ensures MovedIn(h, from, to) <= cap * |ActiveIn(h, from, to)|
  {
    if h != [] {
      CappedEarlier(h, cap);
      MovedByActive(Earlier(h), cap, from, to);
      OneMore(cap, |ActiveIn(Earlier(h), from, to)|);
    }
  }

  /** Spaced cycles in a window: each takes up at least the gap after its predecessor. */
  lemma {:induction false} ActiveSpread(h: History, gap: nat, from: int, to: int)
    requires Spaced(h, gap) && ActiveIn(h, from, to) != []
    ensures var active := ActiveIn(h, from, to);
            && from <= Last(active).start < to
            && LastActive(h).Some? && Last(active).start <= LastActive(h).value
            && (|active| - 1) * gap <= Last(active).start - from
  {
    var before := ActiveIn(Earlier(h), from, to);
    if before != [] {
      ActiveSpread(Earlier(h), gap, from, to);
      assert (|before| - 1) * gap + gap == |before| * gap;
    }
  }

  lemma {:induction false} AtMost(k: nat, gap: nat, window: nat)
    requires 0 < gap && k * gap <= window
    ensures k <= window / gap
  {
    var q, r := window / gap, window % gap;
    assert window == q * gap + r;
    Scale(gap, q + 1, if k > q then k else q + 1);
  }

  /** Cycles starting in any window move at most the cap times one more than the number of
      gaps that fit into the window. */
  lemma WindowBound(h: History, cap: nat, gap: nat, from: int, window: nat)
    requires Capped(h, cap) && Spaced(h, gap) && 0 < gap
    ensures MovedIn(h, from, from + window) <= cap * (window / gap + 1)
  {
    var active := ActiveIn(h, from, from + window);
    MovedByActive(h, cap, from, from + window);
    if active != [] {
      ActiveSpread(h, gap, from, from + window);
      AtMost(|active| - 1, gap, window);
    }
    Scale(cap, |active|, window / gap + 1);
  }

  lemma Scale(cap: nat, m: nat, n: nat)
    requires m <= n
    ensures cap * m <= cap * n
  {
    assert cap * (n - m) == cap * n - cap * m;
  }
}
