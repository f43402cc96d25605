/**
 * internal/cache/rediscache/rediscache.go, allowScript: INCR a counter, start its expiry with the first
 * increment, and refuse once the counter is above the limit. Times are milliseconds of the Redis clock.
 */
module RateLimit {
  import opened RelayTypes

  /** A live counter: its value and the instant its key expires. */
  datatype Window = Window(count: nat, until: Time)

  /**
   * Redis drops a key when its expiry instant has passed; whether the key still exists in the very
   * millisecond of that instant (`lasts`) is left open, and every result below holds for both answers.
   */
  predicate Gone(window: Window, now: Time, lasts: bool) {
    if lasts then now > window.until else now >= window.until
  }

  function Live(window: Option<Window>, now: Time, lasts: bool): Option<Window> {
    if window.Some? && Gone(window.value, now, lasts) then None else window
  }

  /** One run of the script; the new key content and the decision. */
  function Allow(window: Option<Window>, limit: int, span: int, now: Time, lasts: bool): (Option<Window>, bool) {
    match Live(window, now, lasts)
    case Some(w) => (Some(w.(count := w.count + 1)), w.count + 1 <= limit)
    // PEXPIRE with a time to live that is not positive deletes the key at once.
    case None => (if span <= 0 then None else Some(Window(1, now + span)), 1 <= limit)
  }

  class Limiter {
    var windows: map<string, Window>

    constructor ()
      ensures windows == map[]
    {
      windows := map[];
    }

    function Get(key: string): Option<Window>
      reads this
    {
      if key in windows then Some(windows[key]) else None
    }

    /** allow: the script run on one key; no other key changes. */
    method Run(key: string, limit: int, span: int, now: Time, lasts: bool) returns (allowed: bool)
      modifies this
      ensures (Get(key), allowed) == Allow(old(Get(key)), limit, span, now, lasts)
      ensures forall k :: k != key ==> Get(k) == old(Get(k))
    {
      if key in windows && Gone(windows[key], now, lasts) {
        windows := windows - {key};
      }
      var current := 1;
      if key in windows {
        current := windows[key].count + 1;
        windows := windows[key := windows[key].(count := current)];
      } else if span > 0 {
        windows := windows[key := Window(1, now + span)];
      }
      allowed := current <= limit;
    }
  }

  // ----- Whole histories of one key -----

  /** The key after the calls at `times`, starting from an empty cache. */
  function After(times: seq<Time>, limit: int, span: int, lasts: bool): Option<Window> {
    if times == [] then None
    else Allow(After(times[..|times| - 1], limit, span, lasts), limit, span, times[|times| - 1], lasts).0
  }

  /** The decision on call number `i`. */
  predicate Allowed(times: seq<Time>, i: nat, limit: int, span: int, lasts: bool)
    requires i < |times|
  {
    Allow(After(times[..i], limit, span, lasts), limit, span, times[i], lasts).1
  }

  predicate Ordered(times: seq<Time>) {
    forall i, j :: 0 <= i < j < |times| ==> times[i] <= times[j]
  }

  /** How many calls of [from, to) were allowed. */
  function CountAllowed(times: seq<Time>, from: Time, to: Time, limit: int, span: int, lasts: bool): nat {
    if times == [] then 0
    else
      var n := |times| - 1;
      CountAllowed(times[..n], from, to, limit, span, lasts)
      + (if from <= times[n] < to && Allowed(times, n, limit, span, lasts) then 1 else 0)
  }

  lemma {:induction false} CountSplits(times: seq<Time>, a: Time, b: Time, c: Time, limit: int, span: int, lasts: bool)
    requires a <= b <= c
    ensures CountAllowed(times, a, c, limit, span, lasts)
         == CountAllowed(times, a, b, limit, span, lasts) + CountAllowed(times, b, c, limit, span, lasts)
  {
    if times != [] {
      CountSplits(times[..|times| - 1], a, b, c, limit, span, lasts);
    }
  }

  /** Counting up to any instant after the last call counts everything from `from` on. */
  lemma {:induction false} CountPastEnd(times: seq<Time>, from: Time, to1: Time, to2: Time, limit: int, span: int, lasts: bool)
    requires forall i :: 0 <= i < |times| ==> times[i] < to1 && times[i] < to2
    ensures CountAllowed(times, from, to1, limit, span, lasts) == CountAllowed(times, from, to2, limit, span, lasts)
  {
    if times != [] {
      CountPastEnd(times[..|times| - 1], from, to1, to2, limit, span, lasts);
    }
  }

  lemma {:induction false} CountNothing(times: seq<Time>, from: Time, to: Time, limit: int, span: int, lasts: bool)
    requires forall i :: 0 <= i < |times| ==> times[i] < from
    ensures CountAllowed(times, from, to, limit, span, lasts) == 0
  {
    if times != [] {
      CountNothing(times[..|times| - 1], from, to, limit, span, lasts);
    }
  }

  function Min(a: int, b: int): int {
    if a < b then a else b
  }

  function Max0(a: int): int {
    if a < 0 then 0 else a
  }

  /**
   * The state of a key after a history: the current window was opened `span` before its end by a call that
   * was allowed if any is, exactly min(count, limit) calls since then were allowed, and the `span` before the
   * opening, without its first instant, saw fewer than `limit`.
   */
  ghost predicate WindowFacts(times: seq<Time>, limit: int, span: int, lasts: bool) {
    var key := After(times, limit, span, lasts);
    && (times != [] ==> key.Some?)
    && (key.Some? ==>
        && times != []
        && key.value.count >= 1
        && key.value.until - span <= times[|times| - 1] <= key.value.until
        && CountAllowed(times, key.value.until - span, times[|times| - 1] + 1, limit, span, lasts) == Max0(Min(key.value.count, limit))
        && CountAllowed(times, key.value.until - span, key.value.until - span + 1, limit, span, lasts) >= Max0(Min(1, limit))
        && CountAllowed(times, key.value.until - span - span + 1, key.value.until - span, limit, span, lasts) <= Max0(limit - 1))
  }

  lemma OrderedPrefix(times: seq<Time>)
    requires times != [] && Ordered(times)
    ensures Ordered(times[..|times| - 1])
    ensures var front, now := times[..|times| - 1], times[|times| - 1];
      forall i :: 0 <= i < |front| ==> front[i] < now + 1
  {
  }

  /** A call inside a live window extends that window's count. */
  lemma SameWindow(times: seq<Time>, limit: int, span: int, lasts: bool)
    requires span > 0 && times != [] && Ordered(times)
    requires WindowFacts(times[..|times| - 1], limit, span, lasts)
    requires Live(After(times[..|times| - 1], limit, span, lasts), times[|times| - 1], lasts).Some?
    ensures WindowFacts(times, limit, span, lasts)
  {
    var n := |times| - 1;
    var front, now := times[..n], times[n];
    var w := After(front, limit, span, lasts).value;
    OrderedPrefix(times);
    CountPastEnd(front, w.until - span, front[n - 1] + 1, now + 1, limit, span, lasts);
  }

  /** A call that finds no live window opens the next one, at least `span` after the last began. */
  lemma NextWindow(times: seq<Time>, limit: int, span: int, lasts: bool)
    requires span > 0 && times != [] && Ordered(times)
    requires WindowFacts(times[..|times| - 1], limit, span, lasts)
    requires Live(After(times[..|times| - 1], limit, span, lasts), times[|times| - 1], lasts).None?
    ensures WindowFacts(times, limit, span, lasts)
  {
    var n := |times| - 1;
    var front, now := times[..n], times[n];
    OrderedPrefix(times);
    if front == [] {
    } else {
      var w := After(front, limit, span, lasts).value;
      assert front[n - 1] == times[n - 1] && front[n - 1] <= w.until <= now;
      assert front[n - 1] < now by { LastBeforeNow(times, limit, span, lasts); }
      assert forall i :: 0 <= i < |front| ==> front[i] <= front[n - 1];
      CountNothing(front, now, now + 1, limit, span, lasts);
      PreviousWindow(front, now, limit, span, lasts);
    }
  }

  /** Seen from the opening of the next window, the last `span` misses the call that opened this one. */
  lemma PreviousWindow(times: seq<Time>, now: Time, limit: int, span: int, lasts: bool)
    requires span > 0 && times != [] && WindowFacts(times, limit, span, lasts)
    requires After(times, limit, span, lasts).value.until <= now
    requires forall i :: 0 <= i < |times| ==> times[i] <= times[|times| - 1] < now
    ensures CountAllowed(times, now - span + 1, now, limit, span, lasts) <= Max0(limit - 1)
  {
    var start := After(times, limit, span, lasts).value.until - span;
    CountPastEnd(times, start, times[|times| - 1] + 1, now, limit, span, lasts);
    CountSplits(times, start, start + 1, now, limit, span, lasts);
    CountSplits(times, start + 1, now - span + 1, now, limit, span, lasts);
  }

  /** The previous call cannot share its instant with a call that finds the window gone. */
  lemma LastBeforeNow(times: seq<Time>, limit: int, span: int, lasts: bool)
    requires span > 0 && |times| >= 2 && Ordered(times)
    requires Live(After(times[..|times| - 1], limit, span, lasts), times[|times| - 1], lasts).None?
    requires After(times[..|times| - 1], limit, span, lasts).Some?
    ensures times[|times| - 2] < times[|times| - 1]
  {
    var n := |times| - 1;
    var front := times[..n];
    assert front[..n - 1] == times[..n - 1] && front[n - 1] == times[n - 1];
  }

  lemma {:induction false} WindowFactsHold(times: seq<Time>, limit: int, span: int, lasts: bool)
    requires span > 0 && Ordered(times)
    ensures WindowFacts(times, limit, span, lasts)
  {
    if times != [] {
      var n := |times| - 1;
      OrderedPrefix(times);
      WindowFactsHold(times[..n], limit, span, lasts);
      if Live(After(times[..n], limit, span, lasts), times[n], lasts).Some? {
        SameWindow(times, limit, span, lasts);
      } else {
        NextWindow(times, limit, span, lasts);
      }
    }
  }

  /**
   * Any half-open interval of one window length contains fewer than twice the limit of allowed calls. The
   * interval can meet two windows, but then it misses the call that opened the first.
   */
  lemma {:induction false} FewerThanTwiceTheLimit(times: seq<Time>, from: Time, limit: int, span: int, lasts: bool)
    requires span > 0 && Ordered(times)
    ensures CountAllowed(times, from, from + span, limit, span, lasts) <= Max0(2 * limit - 1)
  {
    if times != [] {
      var n := |times| - 1;
      var now := times[n];
      if now < from {
        CountNothing(times, from, from + span, limit, span, lasts);
      } else if now >= from + span {
        OrderedPrefix(times);
        FewerThanTwiceTheLimit(times[..n], from, limit, span, lasts);
      } else {
        WindowFactsHold(times, limit, span, lasts);
        var start := After(times, limit, span, lasts).value.until - span;
        CountPastEnd(times, from, from + span, now + 1, limit, span, lasts);
        if from <= start {
          CountSplits(times, from, start, now + 1, limit, span, lasts);
          CountSplits(times, start - span + 1, from, start, limit, span, lasts);
        } else {
          CountSplits(times, start, from, now + 1, limit, span, lasts);
        }
      }
    }
  }

  /** A first call, `a` more just before its window ends, and `b` as soon as it has ended. */
  function Burst(span: int, lasts: bool, a: nat, b: nat): seq<Time> {
    if b > 0 then Burst(span, lasts, a, b - 1) + [span]
    else if a > 0 then Burst(span, lasts, a - 1, 0) + [span - 1]
    else [if lasts then -1 else 0]
  }

  /** One more call. */
  lemma OneMore(times: seq<Time>, now: Time, from: Time, to: Time, limit: int, span: int, lasts: bool)
    ensures var decision := Allow(After(times, limit, span, lasts), limit, span, now, lasts);
      && After(times + [now], limit, span, lasts) == decision.0
      && CountAllowed(times + [now], from, to, limit, span, lasts)
           == CountAllowed(times, from, to, limit, span, lasts) + (if from <= now < to && decision.1 then 1 else 0)
  {
    assert (times + [now])[..|times|] == times;
  }

  lemma {:induction false} BurstCounts(limit: int, span: int, lasts: bool, a: nat, b: nat)
    requires limit >= 1 && span >= 2 && a <= limit - 1 && b <= limit
    ensures Ordered(Burst(span, lasts, a, b)) && Burst(span, lasts, a, b) != []
    ensures forall i :: 0 <= i < |Burst(span, lasts, a, b)| ==> Burst(span, lasts, a, b)[i] <= (if b > 0 then span else span - 1)
    ensures After(Burst(span, lasts, a, b), limit, span, lasts)
         == Some(if b > 0 then Window(b, 2 * span) else Window(a + 1, if lasts then span - 1 else span))
    ensures CountAllowed(Burst(span, lasts, a, b), 1, 1 + span, limit, span, lasts) == a + b
    decreases a + b
  {
    hide After, CountAllowed;
    if b > 0 {
      BurstCounts(limit, span, lasts, a, b - 1);
      OneMore(Burst(span, lasts, a, b - 1), span, 1, 1 + span, limit, span, lasts);
    } else if a > 0 {
      BurstCounts(limit, span, lasts, a - 1, 0);
      OneMore(Burst(span, lasts, a - 1, 0), span - 1, 1, 1 + span, limit, span, lasts);
    } else {
      FirstCall(if lasts then -1 else 0, limit, span, lasts);
    }
  }

  lemma FirstCall(now: Time, limit: int, span: int, lasts: bool)
    requires limit >= 1 && span >= 1 && now < 1
    ensures After([now], limit, span, lasts) == Some(Window(1, now + span)) && CountAllowed([now], 1, 1 + span, limit, span, lasts) == 0
  {
    assert [now][..0] == [];
  }

  /** The bound is reached for every limit and every window of two milliseconds or more. */
  lemma TwiceTheLimitLessOneReached(limit: int, span: int, lasts: bool)
    requires limit >= 1 && span >= 2
    ensures exists times :: Ordered(times) && CountAllowed(times, 1, 1 + span, limit, span, lasts) == 2 * limit - 1
  {
    BurstCounts(limit, span, lasts, limit - 1, limit);
  }

  /** All calls of one instant fall into one window of one millisecond. */
  lemma {:induction false} OneInstant(times: seq<Time>, from: Time, limit: int, lasts: bool)
    requires Ordered(times)
    ensures CountAllowed(times, from, from + 1, limit, 1, lasts) <= Max0(limit)
  {
    if times != [] {
      var n := |times| - 1;
      if times[n] < from {
        CountNothing(times, from, from + 1, limit, 1, lasts);
      } else if times[n] > from {
        OrderedPrefix(times);
        OneInstant(times[..n], from, limit, lasts);
      } else {
        WindowFactsHold(times, limit, 1, lasts);
        CountSplits(times, After(times, limit, 1, lasts).value.until - 1, from, from + 1, limit, 1, lasts);
      }
    }
  }

  ghost predicate WithinLimit(times: seq<Time>, from: Time, limit: int, span: int, lasts: bool) {
    Ordered(times) ==> CountAllowed(times, from, from + span, limit, span, lasts) <= Max0(limit)
  }

  /** Every interval of one window length stays within the limit if and only if the limit is at most one or a window is one millisecond. */
  lemma LimitHoldsAcrossWindowsExactly(limit: int, span: int, lasts: bool)
    requires span >= 1
    ensures (forall times, from :: WithinLimit(times, from, limit, span, lasts)) <==> limit <= 1 || span == 1
  {
    if limit <= 1 || span == 1 {
      forall times, from ensures WithinLimit(times, from, limit, span, lasts) {
        if !Ordered(times) {
        } else if span == 1 {
          OneInstant(times, from, limit, lasts);
        } else {
          FewerThanTwiceTheLimit(times, from, limit, span, lasts);
        }
      }
    } else {
      TwiceTheLimitLessOneReached(limit, span, lasts);
      var times :| Ordered(times) && CountAllowed(times, 1, 1 + span, limit, span, lasts) == 2 * limit - 1;
      assert !WithinLimit(times, 1, limit, span, lasts);
    }
  }

  /** A refusal means that the limit was used up within the last window length. */
  lemma RefusalIsEarned(times: seq<Time>, i: nat, limit: int, span: int, lasts: bool)
    requires span > 0 && Ordered(times) && i < |times|
    requires !Allowed(times, i, limit, span, lasts)
    ensures CountAllowed(times[..i + 1], times[i] - span, times[i] + 1, limit, span, lasts) >= limit
  {
    var seen := times[..i + 1];
    assert seen[..i] == times[..i] && seen[i] == times[i];
    WindowFactsHold(seen, limit, span, lasts);
    var w := After(seen, limit, span, lasts).value;
    CountSplits(seen, times[i] - span, w.until - span, times[i] + 1, limit, span, lasts);
  }

  // ----- Refused calls leave no trace -----

  /** Two keys that treat every later call alike: same expiry, and the same or both exhausted counters. */
  predicate Alike(a: Option<Window>, b: Option<Window>, limit: int) {
    match (a, b)
    case (None, None) => true
    case (Some(v), Some(w)) => v.until == w.until && (v.count == w.count || (v.count >= limit && w.count >= limit))
    case _ => false
  }

  lemma AlikeStays(a: Option<Window>, b: Option<Window>, limit: int, span: int, now: Time, lasts: bool)
    requires Alike(a, b, limit)
    ensures Allow(a, limit, span, now, lasts).1 == Allow(b, limit, span, now, lasts).1
    ensures Alike(Allow(a, limit, span, now, lasts).0, Allow(b, limit, span, now, lasts).0, limit)
  {
  }

  /** The history without call number `i`. */
  function Without(times: seq<Time>, i: nat): seq<Time>
    requires i < |times|
  {
    times[..i] + times[i + 1..]
  }

  lemma {:induction false} ForgettingStaysAlike(times: seq<Time>, i: nat, limit: int, span: int, lasts: bool)
    requires i < |times| && limit >= 1 && !Allowed(times, i, limit, span, lasts)
    ensures Alike(After(times, limit, span, lasts), After(Without(times, i), limit, span, lasts), limit)
    decreases |times|
  {
    var n := |times| - 1;
    if i == n {
      assert Without(times, i) == times[..n];
    } else {
      var front := times[..n];
      assert front[..i] == times[..i] && front[i] == times[i];
      ForgettingStaysAlike(front, i, limit, span, lasts);
      assert Without(times, i)[..n - 1] == Without(front, i);
      assert Without(times, i)[n - 1] == times[n];
      AlikeStays(After(front, limit, span, lasts), After(Without(front, i), limit, span, lasts), limit, span, times[n], lasts);
    }
  }

  /**
   * Refused calls never prolong a block: taking a refused call out of the history changes no other decision.
   */
  lemma RefusedCallsLeaveNoTrace(times: seq<Time>, i: nat, j: nat, limit: int, span: int, lasts: bool)
    requires i < |times| && j < |times| && i != j && !Allowed(times, i, limit, span, lasts)
    ensures Allowed(times, j, limit, span, lasts)
        <==> Allowed(Without(times, i), if j < i then j else j - 1, limit, span, lasts)
  {
    var rest := Without(times, i);
    if j < i {
      assert rest[..j] == times[..j] && rest[j] == times[j];
    } else if limit >= 1 {
      var before := times[..j];
      assert before[..i] == times[..i] && before[i] == times[i];
      ForgettingStaysAlike(before, i, limit, span, lasts);
      assert rest[..j - 1] == Without(before, i) && rest[j - 1] == times[j];
      AlikeStays(After(before, limit, span, lasts), After(Without(before, i), limit, span, lasts), limit, span, times[j], lasts);
    }
  }
}
