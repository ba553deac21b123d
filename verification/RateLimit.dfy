/** The fixed-window limiter: one counter key per window, re-expired by every call.
    Times are in milliseconds, periods in seconds. */
module RateLimit {

  // The window a reading falls into; the reading is first cut to whole seconds.
  function Window(now: int, period: nat): int
    requires period >= 1
  {
    (now / 1000) / period
  }

  datatype Key = Key(count: nat, expiresAt: int)

  type Keys = map<int, Key>

  function Value(keys: Keys, w: int, now: int): nat {
    if w in keys && now < keys[w].expiresAt then keys[w].count else 0
  }

  function Increment(keys: Keys, now: int, period: nat): Keys
    requires period >= 1
  {
    var w := Window(now, period);
    keys[w := Key(Value(keys, w, now) + 1, now + 1000 * period)]
  }

  class Limiter {
    var keys: Keys

    constructor ()
      ensures keys == map[]
    {
      keys := map[];
    }

    // `false` stands for the raised RateLimited error.
    method CheckRateLimit(now: int, limit: int, period: nat) returns (admitted: bool)
      requires period >= 1
      modifies this
      ensures keys == Increment(old(keys), now, period)
      ensures var w := (now / 1000) / period;
              && w in keys && keys - {w} == old(keys) - {w}
              && keys[w].count == (if w in old(keys) && now < old(keys)[w].expiresAt then old(keys)[w].count + 1 else 1)
              && keys[w].expiresAt == now + 1000 * period
              && (admitted <==> keys[w].count <= limit)
    {
      var w := Window(now, period);
      var count := 1;
      if w in keys && now < keys[w].expiresAt {
        count := keys[w].count + 1;
      }
      keys := keys[w := Key(count, now + 1000 * period)];
      admitted := count <= limit;
    }
  }

  // --- Histories of calls -----------------------------------------------------

  ghost predicate Clock(calls: seq<int>, now: int) {
    && (forall i, j :: 0 <= i < j < |calls| ==> calls[i] <= calls[j])
    && (forall i :: 0 <= i < |calls| ==> 0 <= calls[i] <= now)
  }

  ghost function Play(calls: seq<int>, period: nat): Keys
    requires period >= 1
  {
    if calls == [] then map[]
    else Increment(Play(calls[..|calls| - 1], period), calls[|calls| - 1], period)
  }

  // The answer given to a call at `now` after the calls before it.
  ghost predicate Admits(before: seq<int>, now: int, limit: int, period: nat)
    requires period >= 1
  {
    Value(Play(before, period), Window(now, period), now) + 1 <= limit
  }

  ghost function CallsIn(calls: seq<int>, period: nat, w: int): nat
    requires period >= 1
  {
    if calls == [] then 0
    else CallsIn(calls[..|calls| - 1], period, w) + if Window(calls[|calls| - 1], period) == w then 1 else 0
  }

  ghost function AdmittedIn(calls: seq<int>, limit: int, period: nat, w: int): nat
    requires period >= 1
  {
    if calls == [] then 0
    else
      var front, t := calls[..|calls| - 1], calls[|calls| - 1];
      AdmittedIn(front, limit, period, w) + if Window(t, period) == w && Admits(front, t, limit, period) then 1 else 0
  }

  ghost function AdmittedBetween(calls: seq<int>, limit: int, period: nat, lo: int, hi: int): nat
    requires period >= 1
  {
    if calls == [] then 0
    else
      var front, t := calls[..|calls| - 1], calls[|calls| - 1];
      AdmittedBetween(front, limit, period, lo, hi) + if lo <= t <= hi && Admits(front, t, limit, period) then 1 else 0
  }

  // --- Window arithmetic --------------------------------------------------------

  lemma InWindow(t: int, period: nat)
    requires period >= 1
    ensures var w := Window(t, period);
            w * (1000 * period) <= t < w * (1000 * period) + 1000 * period
  {
    var s := t / 1000;
    var w := s / period;
    assert w * period <= s < w * period + period;
    assert w * (1000 * period) == 1000 * (w * period);
  }

  /** A key refreshed at `t` lives at least to the end of its window, and so to any
      later reading in the same window. */
  lemma ExpiryCoversWindow(t: int, now: int, period: nat)
    requires period >= 1 && t <= now
    ensures t + 1000 * period >= (Window(t, period) + 1) * (1000 * period)
    ensures Window(t, period) == Window(now, period) ==> now < t + 1000 * period
  {
    InWindow(t, period);
    InWindow(now, period);
    var w := Window(t, period);
    assert (w + 1) * (1000 * period) == w * (1000 * period) + 1000 * period;
  }

  lemma LessFactor(x: int, y: int, p: nat)
    requires p >= 1 && x * p < y * p
    ensures x < y
  {
    assert (x - y) * p == x * p - y * p;
    assert x >= y ==> (x - y) * p >= 0;
  }

  lemma BetweenSpans(a: int, b: int, lo: int, t: int, p: nat)
    requires p >= 1 && a * p <= lo < a * p + p && b * p <= t < b * p + p && lo <= t <= lo + p
    ensures a <= b <= a + 1
  {
    assert (a + 2) * p == a * p + 2 * p && (b + 1) * p == b * p + p;
    LessFactor(b, a + 2, p);
    LessFactor(a, b + 1, p);
  }

  lemma SpansTwoWindows(lo: int, t: int, period: nat)
    requires period >= 1 && lo <= t <= lo + 1000 * period
    ensures Window(lo, period) <= Window(t, period) <= Window(lo, period) + 1
  {
    var p := 1000 * period;
    var a, b := Window(lo, period), Window(t, period);
    InWindow(lo, period);
    InWindow(t, period);
    BetweenSpans(a, b, lo, t, p);
  }

  // --- Results --------------------------------------------------------------------

  /** The stored counter is the number of calls made in the current window. */
  lemma {:induction false} CounterIsCalls(calls: seq<int>, period: nat, now: int)
    requires period >= 1 && Clock(calls, now)
    ensures Value(Play(calls, period), Window(now, period), now) == CallsIn(calls, period, Window(now, period))
  {
    if calls != [] {
      var front, t := calls[..|calls| - 1], calls[|calls| - 1];
      if Window(t, period) == Window(now, period) {
        CounterIsCalls(front, period, t);
        ExpiryCoversWindow(t, now, period);
      } else {
        CounterIsCalls(front, period, now);
      }
    }
  }

  // The smaller of the two, and nothing under a limit below zero.
  function AtMost(n: nat, limit: int): (k: nat)
    ensures k <= n && (limit >= 0 ==> k <= limit) && (k < n ==> k == if limit >= 0 then limit else 0)
  {
    if limit <= 0 then 0 else if n <= limit then n else limit
  }

  /** Of the calls made in one window exactly the first `limit` are admitted. */
  lemma {:induction false} AdmittedPerWindow(calls: seq<int>, limit: int, period: nat, now: int, w: int)
    requires period >= 1 && Clock(calls, now)
    ensures AdmittedIn(calls, limit, period, w) == AtMost(CallsIn(calls, period, w), limit)
  {
    if calls != [] {
      var front, t := calls[..|calls| - 1], calls[|calls| - 1];
      AdmittedPerWindow(front, limit, period, t, w);
      CounterIsCalls(front, period, t);
    }
  }

  lemma {:induction false} BetweenIsTwoWindows(calls: seq<int>, limit: int, period: nat, lo: int)
    requires period >= 1
    ensures AdmittedBetween(calls, limit, period, lo, lo + 1000 * period)
            <= AdmittedIn(calls, limit, period, Window(lo, period)) + AdmittedIn(calls, limit, period, Window(lo, period) + 1)
  {
    if calls != [] {
      var front, t := calls[..|calls| - 1], calls[|calls| - 1];
      BetweenIsTwoWindows(front, limit, period, lo);
      if lo <= t <= lo + 1000 * period {
        SpansTwoWindows(lo, t, period);
      }
    }
  }

  /** Any interval of one period admits at most twice the limit. */
  lemma TwiceTheLimit(calls: seq<int>, limit: nat, period: nat, now: int, lo: int)
    requires period >= 1 && Clock(calls, now)
    ensures AdmittedBetween(calls, limit, period, lo, lo + 1000 * period) <= 2 * limit
  {
    BetweenIsTwoWindows(calls, limit, period, lo);
    AdmittedPerWindow(calls, limit, period, now, Window(lo, period));
    AdmittedPerWindow(calls, limit, period, now, Window(lo, period) + 1);
  }

  // `limit` calls just before a window boundary and `limit` just after it.
  ghost function Straddle(limit: nat, period: nat): seq<int> {
    seq(2 * limit, i => if i < limit then 1000 * period - 1 else 1000 * period)
  }

  lemma BoundaryWindows(period: nat)
    requires period >= 1
    ensures Window(1000 * period - 1, period) == 0 && Window(1000 * period, period) == 1
  {
    InWindow(1000 * period - 1, period);
    InWindow(1000 * period, period);
    assert (1000 * period - 1) / 1000 == period - 1;
    assert (1000 * period) / 1000 == period;
  }

  lemma {:induction false} StraddleCounts(n: nat, limit: nat, period: nat)
    requires period >= 1 && n <= 2 * limit
    ensures var calls := Straddle(limit, period)[..n];
            CallsIn(calls, period, 0) == AtMost(n, limit) && CallsIn(calls, period, 1) == n - AtMost(n, limit) &&
            AdmittedBetween(calls, limit, period, 1000 * period - 1, 1000 * period)
            == AdmittedIn(calls, limit, period, 0) + AdmittedIn(calls, limit, period, 1)
  {
    if n > 0 {
      StraddleCounts(n - 1, limit, period);
      BoundaryWindows(period);
      var calls := Straddle(limit, period)[..n];
      var t := calls[n - 1];
      assert calls[..n - 1] == Straddle(limit, period)[..n - 1];
      assert t == if n <= limit then 1000 * period - 1 else 1000 * period;
    }
  }

  /** The factor two is reached, within two milliseconds. */
  lemma TwiceTheLimitIsReached(limit: nat, period: nat)
    requires period >= 1
    ensures Clock(Straddle(limit, period), 1000 * period)
    ensures AdmittedBetween(Straddle(limit, period), limit, period, 1000 * period - 1, 1000 * period) == 2 * limit
  {
    var calls := Straddle(limit, period);
    StraddleCounts(2 * limit, limit, period);
    assert calls[..2 * limit] == calls;
    AdmittedPerWindow(calls, limit, period, 1000 * period, 0);
    AdmittedPerWindow(calls, limit, period, 1000 * period, 1);
  }
}
