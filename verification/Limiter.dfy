/** The sender's and the receiver's fixed-window limiters, and how they compose. */
module Limiter {
  import opened Ack
  import opened Basics

  const RATE_LIMIT_WINDOW_MS: int := 60_000

  /** The aligned start of the window an instant falls into. */
  function WindowStart(now: int, windowMs: int): (start: int)
    requires windowMs > 0
    ensures start <= now < start + windowMs
    ensures start % windowMs == 0
  {
    AlignedMod(now / windowMs, windowMs);
    (now / windowMs) * windowMs
  }

  lemma AlignedMod(k: int, windowMs: int)
    requires windowMs > 0
    ensures (k * windowMs) % windowMs == 0
  {
    DivisionUnique(k * windowMs, k, windowMs);
  }

  lemma DivisionUnique(x: int, k: int, windowMs: int)
    requires windowMs > 0 && k * windowMs <= x < (k + 1) * windowMs
    ensures x / windowMs == k && x % windowMs == x - k * windowMs
  {
    var q := x / windowMs;
    MultiplesApart(q, k, windowMs);
    MultiplesApart(k, q, windowMs);
  }

  lemma MultiplesApart(a: int, b: int, windowMs: int)
    requires windowMs > 0
    ensures a < b ==> (a + 1) * windowMs <= b * windowMs
  {
  }

  /** Aligned windows are equal or disjoint. */
  lemma WindowUnique(t: int, start: int, windowMs: int)
    requires windowMs > 0 && start % windowMs == 0
    ensures start <= t < start + windowMs <==> WindowStart(t, windowMs) == start
  {
    var k := start / windowMs;
    assert start == k * windowMs;
    if start <= t < start + windowMs {
      assert (k + 1) * windowMs == start + windowMs;
      DivisionUnique(t, k, windowMs);
    }
  }

  // ---------- Sender: FixedWindowThrottle ----------

  datatype Window = Window(start: int, count: nat)

  const NEW_THROTTLE := Window(-1, 0)

  /** The state in which tryAcquire decides: a counter of the current window. */
  function Rolled(w: Window, windowMs: int, now: int): Window
    requires windowMs > 0
  {
    if WindowStart(now, windowMs) != w.start then Window(WindowStart(now, windowMs), 0) else w
  }

  function Acquire(w: Window, limit: nat, windowMs: int, now: int): (Window, int)
    requires windowMs > 0
  {
    var current := Rolled(w, windowMs, now);
    if current.count < limit then (current.(count := current.count + 1), 0)
    else (current, current.start + windowMs - now)
  }

  class FixedWindowThrottle {
    const limitPerWindow: nat
    const windowMs: int
    var windowStart: int
    var count: nat

    constructor (limitPerWindow: nat, windowMs: int)
      ensures State() == NEW_THROTTLE && this.limitPerWindow == limitPerWindow && this.windowMs == windowMs
    {
      this.limitPerWindow := limitPerWindow;
      this.windowMs := windowMs;
      windowStart := -1;
      count := 0;
    }

    function State(): Window
      reads this
    {
      Window(windowStart, count)
    }

    /** tryAcquire: zero takes a slot; otherwise the positive wait that ends exactly at the next window. */
    method TryAcquire(now: int) returns (waitMs: int)
      requires windowMs > 0
      modifies this
      ensures (State(), waitMs) == Acquire(old(State()), limitPerWindow, windowMs, now)
      ensures waitMs != 0 ==> waitMs > 0 && WindowStart(now + waitMs, windowMs) == now + waitMs
    {
      var start := WindowStart(now, windowMs);
      if start != windowStart {
        windowStart := start;
        count := 0;
      }
      if count < limitPerWindow {
        count := count + 1;
        return 0;
      }
      WaitEndsAtBoundary(now, windowMs);
      return start + windowMs - now;
    }
  }

  lemma WaitEndsAtBoundary(now: int, windowMs: int)
    requires windowMs > 0
    ensures var next := WindowStart(now, windowMs) + windowMs; WindowStart(next, windowMs) == next
  {
    var k := now / windowMs;
    assert (k + 1) * windowMs == WindowStart(now, windowMs) + windowMs;
    DivisionUnique((k + 1) * windowMs, k + 1, windowMs);
  }

  // ---------- Runs of the sender ----------

  /** A call of tryAcquire or a restart of the sender, which forgets the counter. */
  datatype Tick = Call(at: int) | Restart(at: int)

  ghost predicate ClockRuns(ticks: seq<Tick>) {
    forall i, j :: 0 <= i < j < |ticks| ==> ticks[i].at <= ticks[j].at
  }

  function StateAfter(ticks: seq<Tick>, limit: nat, windowMs: int): Window
    requires windowMs > 0
  {
    if ticks == [] then NEW_THROTTLE
    else
      var last := |ticks| - 1;
      match ticks[last]
      case Restart(_) => NEW_THROTTLE
      case Call(at) => Acquire(StateAfter(ticks[..last], limit, windowMs), limit, windowMs, at).0
  }

  /** The instants at which the run was granted a slot. */
  function Grants(ticks: seq<Tick>, limit: nat, windowMs: int): (times: seq<int>)
    requires windowMs > 0
  {
    if ticks == [] then []
    else
      var last := |ticks| - 1;
      var earlier := Grants(ticks[..last], limit, windowMs);
      var state := StateAfter(ticks[..last], limit, windowMs);
      if ticks[last].Call? && Acquire(state, limit, windowMs, ticks[last].at).1 == 0
      then earlier + [ticks[last].at] else earlier
  }

  /** How many instants lie in a half-open interval. */
  function CountIn(times: seq<int>, from: int, to: int): (n: nat)
    ensures n <= |times|
  {
    if times == [] then 0
    else
      var last := |times| - 1;
      CountIn(times[..last], from, to) + (if from <= times[last] < to then 1 else 0)
  }

  function RestartsIn(ticks: seq<Tick>, from: int, to: int): nat {
    if ticks == [] then 0
    else
      var last := |ticks| - 1;
      RestartsIn(ticks[..last], from, to) + (if ticks[last].Restart? && from <= ticks[last].at < to then 1 else 0)
  }

  lemma CountMore(times: seq<int>, t: int, from: int, to: int)
    ensures CountIn(times + [t], from, to) == CountIn(times, from, to) + (if from <= t < to then 1 else 0)
  {
    assert (times + [t])[..|times|] == times;
  }

  lemma {:induction false} GrantsWithinClock(ticks: seq<Tick>, limit: nat, windowMs: int, bound: int)
    requires windowMs > 0
    requires forall i :: 0 <= i < |ticks| ==> ticks[i].at <= bound
    ensures forall i :: 0 <= i < |Grants(ticks, limit, windowMs)| ==> Grants(ticks, limit, windowMs)[i] <= bound
  {
    if ticks != [] {
      GrantsWithinClock(ticks[..|ticks| - 1], limit, windowMs, bound);
    }
  }

  lemma {:induction false} GrantsInOrder(ticks: seq<Tick>, limit: nat, windowMs: int)
    requires windowMs > 0 && ClockRuns(ticks)
    ensures forall i, j :: 0 <= i < j < |Grants(ticks, limit, windowMs)| ==>
              Grants(ticks, limit, windowMs)[i] <= Grants(ticks, limit, windowMs)[j]
  {
    if ticks != [] {
      var last := |ticks| - 1;
      GrantsInOrder(ticks[..last], limit, windowMs);
      GrantsWithinClock(ticks[..last], limit, windowMs, ticks[last].at);
    }
  }

  /** What is known about one aligned window, by where the clock is; restarts have earned an allowance. */
  ghost predicate WindowLedger(granted: nat, allowance: nat, state: Window, last: Option<int>, limit: nat,
      windowMs: int, start: int)
  {
    var here := if state.start == start then state.count else 0;
    && state.count <= limit
    && granted <= allowance + limit
    && (last.None? || last.value < start ==> granted == 0 && here == 0)
    && (last.Some? && start <= last.value < start + windowMs ==> granted <= allowance + here)
  }

  lemma LedgerCall(granted: nat, allowance: nat, state: Window, last: Option<int>, limit: nat, windowMs: int,
      start: int, at: int)
    requires windowMs > 0 && start % windowMs == 0
    requires WindowLedger(granted, allowance, state, last, limit, windowMs, start)
    requires last.Some? ==> last.value <= at
    ensures var (next, wait) := Acquire(state, limit, windowMs, at);
            var inside := start <= at < start + windowMs;
            var more := if wait == 0 && inside then 1 else 0;
            WindowLedger(granted + more, allowance, next, Some(at), limit, windowMs, start)
  {
    WindowUnique(at, start, windowMs);
  }

  lemma LedgerRestart(granted: nat, allowance: nat, state: Window, last: Option<int>, limit: nat, windowMs: int,
      start: int, at: int)
    requires windowMs > 0
    requires WindowLedger(granted, allowance, state, last, limit, windowMs, start)
    requires last.Some? ==> last.value <= at
    ensures WindowLedger(granted, allowance + (if start <= at < start + windowMs then limit else 0), NEW_THROTTLE,
              Some(at), limit, windowMs, start)
  {
  }

  function LastAt(ticks: seq<Tick>): Option<int> {
    if ticks == [] then None else Some(ticks[|ticks| - 1].at)
  }

  lemma {:induction false} LedgerHolds(ticks: seq<Tick>, limit: nat, windowMs: int, start: int)
    requires windowMs > 0 && start % windowMs == 0 && ClockRuns(ticks)
    ensures WindowLedger(CountIn(Grants(ticks, limit, windowMs), start, start + windowMs),
                   RestartsIn(ticks, start, start + windowMs) * limit,
                   StateAfter(ticks, limit, windowMs), LastAt(ticks), limit, windowMs, start)
  {
    hide *;
    if ticks == [] {
      NoTicks(limit, windowMs, start);
      OneMore(0, limit);
      NothingYet(limit, windowMs, start);
    } else {
      var last := |ticks| - 1;
      var before := ticks[..last];
      LastTick(ticks, limit, windowMs, start);
      ClockRunsBefore(ticks);
      LedgerHolds(before, limit, windowMs, start);
      var (state, at) := (StateAfter(before, limit, windowMs), ticks[last].at);
      var granted := CountIn(Grants(before, limit, windowMs), start, start + windowMs);
      var restarts := RestartsIn(before, start, start + windowMs);
      if ticks[last].Call? {
        LedgerCall(granted, restarts * limit, state, LastAt(before), limit, windowMs, start, at);
      } else {
        OneMore(restarts, limit);
        LedgerRestart(granted, restarts * limit, state, LastAt(before), limit, windowMs, start, at);
      }
    }
  }

  lemma OneMore(n: nat, limit: nat)
    ensures (n + 1) * limit == n * limit + limit && (n + 0) * limit == n * limit + 0
  {
  }

  lemma ClockRunsBefore(ticks: seq<Tick>)
    requires ticks != [] && ClockRuns(ticks)
    ensures var before := ticks[..|ticks| - 1];
            ClockRuns(before) && (LastAt(before).Some? ==> LastAt(before).value <= ticks[|ticks| - 1].at)
  {
  }

  lemma NoTicks(limit: nat, windowMs: int, start: int)
    requires windowMs > 0
    ensures CountIn(Grants([], limit, windowMs), start, start + windowMs) == 0
    ensures RestartsIn([], start, start + windowMs) == 0
    ensures StateAfter([], limit, windowMs) == NEW_THROTTLE && LastAt([]) == None
  {
  }

  /** The last tick of a run, in terms of the run before it. */
  lemma LastTick(ticks: seq<Tick>, limit: nat, windowMs: int, start: int)
    requires windowMs > 0 && ticks != []
    ensures var (before, tick) := (ticks[..|ticks| - 1], ticks[|ticks| - 1]);
            var (next, wait) := Acquire(StateAfter(before, limit, windowMs), limit, windowMs, tick.at);
            var inside := start <= tick.at < start + windowMs;
            && LastAt(ticks) == Some(tick.at)
            && StateAfter(ticks, limit, windowMs) == (if tick.Call? then next else NEW_THROTTLE)
            && RestartsIn(ticks, start, start + windowMs) ==
                 RestartsIn(before, start, start + windowMs) + (if tick.Restart? && inside then 1 else 0)
            && CountIn(Grants(ticks, limit, windowMs), start, start + windowMs) ==
                 CountIn(Grants(before, limit, windowMs), start, start + windowMs)
                 + (if tick.Call? && wait == 0 && inside then 1 else 0)
  {
    hide Acquire, WindowStart, CountIn;
    CountMore(Grants(ticks[..|ticks| - 1], limit, windowMs), ticks[|ticks| - 1].at, start, start + windowMs);
  }

  lemma NothingYet(limit: nat, windowMs: int, start: int)
    ensures WindowLedger(0, 0, NEW_THROTTLE, None, limit, windowMs, start)
  {
  }

  /** At most L grants per aligned window, and at most (k + 1) * L when the sender restarts k times in it. */
  lemma GrantsPerWindow(ticks: seq<Tick>, limit: nat, windowMs: int, start: int)
    requires windowMs > 0 && start % windowMs == 0 && ClockRuns(ticks)
    ensures CountIn(Grants(ticks, limit, windowMs), start, start + windowMs) <=
            (RestartsIn(ticks, start, start + windowMs) + 1) * limit
  {
    LedgerHolds(ticks, limit, windowMs, start);
    var restarts := RestartsIn(ticks, start, start + windowMs);
    assert (restarts + 1) * limit == restarts * limit + limit;
  }

  lemma {:induction false} CountSplits(times: seq<int>, from: int, mid: int, to: int)
    requires from <= mid <= to
    ensures CountIn(times, from, to) == CountIn(times, from, mid) + CountIn(times, mid, to)
  {
    if times != [] {
      CountSplits(times[..|times| - 1], from, mid, to);
    }
  }

  lemma NoRestarts(ticks: seq<Tick>, from: int, to: int)
    requires forall i :: 0 <= i < |ticks| ==> ticks[i].Call?
    ensures RestartsIn(ticks, from, to) == 0
  {
    if ticks != [] {
      NoRestarts(ticks[..|ticks| - 1], from, to);
    }
  }

  /** Without restarts, any half-open interval of one window length sees at most 2 * L grants. */
  lemma GrantsPerInterval(ticks: seq<Tick>, limit: nat, windowMs: int, from: int)
    requires windowMs > 0 && ClockRuns(ticks) && forall i :: 0 <= i < |ticks| ==> ticks[i].Call?
    ensures CountIn(Grants(ticks, limit, windowMs), from, from + windowMs) <= 2 * limit
  {
    var times := Grants(ticks, limit, windowMs);
    var first := WindowStart(from, windowMs);
    var second := first + windowMs;
    WaitEndsAtBoundary(from, windowMs);
    GrantsPerWindow(ticks, limit, windowMs, first);
    GrantsPerWindow(ticks, limit, windowMs, second);
    NoRestarts(ticks, first, first + windowMs);
    NoRestarts(ticks, second, second + windowMs);
    CountSplits(times, from, second, from + windowMs);
    CountSplits(times, first, from, second);
    CountSplits(times, second, from + windowMs, second + windowMs);
  }

  // ---------- Receiver: RateLimitStore ----------

  datatype ConsumeResult = ConsumeResult(allowed: bool, count: nat, retryAfterSec: nat)

  function CeilSeconds(ms: int): nat
    requires ms > 0
  {
    (ms + 999) / 1000
  }

  function Consume(state: Option<Window>, limit: nat, now: int): (Window, ConsumeResult) {
    var start := WindowStart(now, RATE_LIMIT_WINDOW_MS);
    if state.None? || state.value.start != start then (Window(start, 1), ConsumeResult(true, 1, 0))
    else
      var count := state.value.count + 1;
      var wait := CeilSeconds(start + RATE_LIMIT_WINDOW_MS - now);
      (Window(start, count),
       if count <= limit then ConsumeResult(true, count, 0)
       else ConsumeResult(false, count, if wait > 1 then wait else 1))
  }

  function Lookup(windows: map<Bytes, Window>, key: Bytes): Option<Window> {
    if key in windows then Some(windows[key]) else None
  }

  class RateLimitStore {
    var windows: map<Bytes, Window>

    constructor ()
      ensures windows == map[]
    {
      windows := map[];
    }

    /** consume: counts the request in the window of its key and touches no other key. */
    method ConsumeSlot(key: Bytes, limit: nat, now: int) returns (r: ConsumeResult)
      modifies this
      ensures r == Consume(Lookup(old(windows), key), limit, now).1
      ensures windows == old(windows)[key := Consume(Lookup(old(windows), key), limit, now).0]
    {
      var start := WindowStart(now, RATE_LIMIT_WINDOW_MS);
      if key !in windows || windows[key].start != start {
        windows := windows[key := Window(start, 1)];
        return ConsumeResult(true, 1, 0);
      }
      var count := windows[key].count + 1;
      windows := windows[key := Window(start, count)];
      if count <= limit {
        return ConsumeResult(true, count, 0);
      }
      var retryAfterSec := CeilSeconds(start + RATE_LIMIT_WINDOW_MS - now);
      return ConsumeResult(false, count, if retryAfterSec > 1 then retryAfterSec else 1);
    }
  }

  // ---------- Sender and receiver together ----------

  /** The receiver's window of a key after requests at these instants of its clock, whatever the limit. */
  function ReceiverAfter(times: seq<int>): Option<Window> {
    if times == [] then None
    else
      var last := |times| - 1;
      Some(Consume(ReceiverAfter(times[..last]), 0, times[last]).0)
  }

  /** The stored count is the number of requests in the current window. */
  lemma {:induction false} ReceiverCounts(times: seq<int>)
    requires times != [] && forall i, j :: 0 <= i < j < |times| ==> times[i] <= times[j]
    ensures var last := times[|times| - 1];
            var start := WindowStart(last, RATE_LIMIT_WINDOW_MS);
            ReceiverAfter(times) == Some(Window(start, CountIn(times, start, start + RATE_LIMIT_WINDOW_MS)))
  {
    var last := |times| - 1;
    var start := WindowStart(times[last], RATE_LIMIT_WINDOW_MS);
    var before := times[..last];
    if before == [] {
      assert CountIn(times[..0], start, start + RATE_LIMIT_WINDOW_MS) == 0;
    } else {
      ReceiverCounts(before);
      assert before[last - 1] == times[last - 1];
      WindowUnique(times[last - 1], start, RATE_LIMIT_WINDOW_MS);
      if WindowStart(times[last - 1], RATE_LIMIT_WINDOW_MS) != start {
        CountBefore(before, start, start + RATE_LIMIT_WINDOW_MS);
      }
    }
  }

  lemma {:induction false} CountBefore(times: seq<int>, from: int, to: int)
    requires forall i :: 0 <= i < |times| ==> times[i] < from
    ensures CountIn(times, from, to) == 0
  {
    if times != [] {
      CountBefore(times[..|times| - 1], from, to);
    }
  }

  function Shifted(times: seq<int>, offset: int): (r: seq<int>)
    ensures |r| == |times|
    ensures forall i :: 0 <= i < |times| ==> r[i] == times[i] + offset
  {
    seq(|times|, i requires 0 <= i < |times| => times[i] + offset)
  }

  lemma {:induction false} CountShifted(times: seq<int>, offset: int, from: int, to: int)
    ensures CountIn(Shifted(times, offset), from, to) == CountIn(times, from - offset, to - offset)
  {
    if times != [] {
      var last := |times| - 1;
      CountShifted(times[..last], offset, from, to);
      assert Shifted(times, offset)[..last] == Shifted(times[..last], offset);
    }
  }

  lemma {:induction false} CountPrefix(times: seq<int>, n: nat, from: int, to: int)
    requires n <= |times|
    ensures CountIn(times[..n], from, to) <= CountIn(times, from, to)
  {
    if n < |times| {
      CountPrefix(times[..|times| - 1], n, from, to);
      assert times[..|times| - 1][..n] == times[..n];
    } else {
      assert times[..n] == times;
    }
  }

  /**
   * The limiters compose: with instant delivery and any constant offset between the two
   * clocks, a receiver limit of 2 * L allows every request of a sender that never restarts.
   */
  lemma ReceiverNeverRefuses(ticks: seq<Tick>, limit: nat, offset: int, i: nat)
    requires ClockRuns(ticks) && forall k :: 0 <= k < |ticks| ==> ticks[k].Call?
    requires i < |Grants(ticks, limit, RATE_LIMIT_WINDOW_MS)|
    ensures var arrivals := Shifted(Grants(ticks, limit, RATE_LIMIT_WINDOW_MS), offset);
            Consume(ReceiverAfter(arrivals[..i]), 2 * limit, arrivals[i]).1.allowed
  {
    hide Grants, Consume, CountIn, ReceiverAfter, WindowStart;
    var times := Grants(ticks, limit, RATE_LIMIT_WINDOW_MS);
    var arrivals := Shifted(times, offset);
    GrantsInOrder(ticks, limit, RATE_LIMIT_WINDOW_MS);
    var start := WindowStart(arrivals[i], RATE_LIMIT_WINDOW_MS);
    CountShifted(times, offset, start, start + RATE_LIMIT_WINDOW_MS);
    GrantsPerInterval(ticks, limit, RATE_LIMIT_WINDOW_MS, start - offset);
    ArrivalAllowed(arrivals, i, 2 * limit);
  }

  /**
   * A request is allowed exactly while it is among the first limit requests of its window.
   * The first request of a window is always allowed, so a limit of 0 acts like 1.
   */
  lemma AllowedExactly(times: seq<int>, i: nat, limit: nat)
    requires i < |times| && forall j, k :: 0 <= j < k < |times| ==> times[j] <= times[k]
    ensures var start := WindowStart(times[i], RATE_LIMIT_WINDOW_MS);
            Consume(ReceiverAfter(times[..i]), limit, times[i]).1.allowed <==>
            CountIn(times[..i + 1], start, start + RATE_LIMIT_WINDOW_MS) <= (if limit > 0 then limit else 1)
  {
    hide CountIn, WindowStart;
    var upTo := times[..i + 1];
    assert upTo[..i] == times[..i];
    ReceiverCounts(upTo);
    CountsUp(ReceiverAfter(times[..i]), times[i]);
    if i > 0 {
      ReceiverCounts(times[..i]);
    }
  }

  /** A request that continues its window is at least the second one of it. */
  lemma CountsUp(state: Option<Window>, now: int)
    ensures var start := WindowStart(now, RATE_LIMIT_WINDOW_MS);
            Consume(state, 0, now).0.count ==
            if state.None? || state.value.start != start then 1 else state.value.count + 1
  {
  }

  /** A request is allowed while its window holds no more requests than the limit. */
  lemma ArrivalAllowed(arrivals: seq<int>, i: nat, limit: nat)
    requires i < |arrivals| && forall j, k :: 0 <= j < k < |arrivals| ==> arrivals[j] <= arrivals[k]
    requires var start := WindowStart(arrivals[i], RATE_LIMIT_WINDOW_MS);
             CountIn(arrivals, start, start + RATE_LIMIT_WINDOW_MS) <= limit
    ensures Consume(ReceiverAfter(arrivals[..i]), limit, arrivals[i]).1.allowed
  {
    hide CountIn, WindowStart;
    var start := WindowStart(arrivals[i], RATE_LIMIT_WINDOW_MS);
    var upTo := arrivals[..i + 1];
    assert upTo[..i] == arrivals[..i];
    ReceiverCounts(upTo);
    CountPrefix(arrivals, i + 1, start, start + RATE_LIMIT_WINDOW_MS);
  }

  /**
   * Honouring a 429 works: after a refusal, waiting the delay computed from the returned
   * seconds, whatever the jitter, lands in a later window, where the next request of the
   * key is allowed whatever the limit is.
   */
  lemma RetryAfterWorks(state: Option<Window>, limit: nat, now: int, random: real, later: int, nextLimit: nat)
    requires 0.0 <= random < 1.0
    requires !Consume(state, limit, now).1.allowed
    requires later as real >=
             now as real + RateLimitedDelayMs(Consume(state, limit, now).1.retryAfterSec as real, random)
    ensures WindowStart(later, RATE_LIMIT_WINDOW_MS) > WindowStart(now, RATE_LIMIT_WINDOW_MS)
    ensures Consume(Some(Consume(state, limit, now).0), nextLimit, later).1.allowed
  {
    var start := WindowStart(now, RATE_LIMIT_WINDOW_MS);
    var seconds := Consume(state, limit, now).1.retryAfterSec;
    assert seconds * 1000 >= start + RATE_LIMIT_WINDOW_MS - now;
    assert (random * 1000.0).Floor >= 0;
    assert later as real >= (now + seconds * 1000) as real;
    assert later >= start + RATE_LIMIT_WINDOW_MS;
    WindowUnique(later, start, RATE_LIMIT_WINDOW_MS);
  }
}
