/** The failure breaker: a counter whose expiry is refreshed by every failure.
    Times and lifetimes are counted in whole clock ticks. */
module FailureBreaker {
  import opened Seqs

  // A Redis counter key; it reads as absent from `expiresAt` on.
  datatype Counter = Absent | Present(count: nat, expiresAt: int)

  function Value(c: Counter, now: int): nat {
    if c.Present? && now < c.expiresAt then c.count else 0
  }

  /** One lifetime serves both for counting and for recovery. A missing or zero
      recovery time falls back to the window. */
  function Ttl(window: int, recover: Option<int>): int {
    var r := if recover.Some? && recover.value != 0 then recover.value else window;
    if r > window then r else window
  }

  function Bump(c: Counter, now: int, ttl: int): Counter {
    Present(Value(c, now) + 1, now + ttl)
  }

  predicate IsOpen(c: Counter, now: int, tripAt: int) {
    c.Present? && now < c.expiresAt && c.count >= tripAt
  }

  // --- What the counter means ----------------------------------------------

  datatype Event = Failure(at: int) | Reset(at: int)

  ghost predicate Ordered(h: seq<Event>, now: int) {
    && (forall i, j :: 0 <= i < j < |h| ==> h[i].at <= h[j].at)
    && (forall i :: 0 <= i < |h| ==> h[i].at <= now)
  }

  ghost function Replay(h: seq<Event>, ttl: int): Counter {
    if h == [] then Absent
    else
      var last := h[|h| - 1];
      if last.Reset? then Absent else Bump(Replay(h[..|h| - 1], ttl), last.at, ttl)
  }

  ghost function SinceReset(h: seq<Event>): seq<int> {
    if h == [] || h[|h| - 1].Reset? then [] else SinceReset(h[..|h| - 1]) + [h[|h| - 1].at]
  }

  /** The last `k` failures follow each other, and reach `now`, at gaps below `ttl`. */
  ghost predicate IsStreak(failures: seq<int>, ttl: int, now: int, k: nat) {
    && k <= |failures|
    && (k > 0 ==> now - failures[|failures| - 1] < ttl)
    && (forall i :: |failures| - k < i < |failures| ==> failures[i] - failures[i - 1] < ttl)
  }

  /** At any time the stored count is the length of the longest such streak since
      the last reset. */
  lemma {:induction false} CountIsLongestStreak(h: seq<Event>, ttl: int, now: int)
    requires Ordered(h, now)
    ensures IsStreak(SinceReset(h), ttl, now, Value(Replay(h, ttl), now))
    ensures forall k: nat :: IsStreak(SinceReset(h), ttl, now, k) ==> k <= Value(Replay(h, ttl), now)
  {
    if h != [] && h[|h| - 1].Failure? {
      var front, t := h[..|h| - 1], h[|h| - 1].at;
      CountIsLongestStreak(front, ttl, t);
      var before, failures := SinceReset(front), SinceReset(h);
      assert failures == before + [t];
      forall k: nat | IsStreak(failures, ttl, now, k) && k > 0
        ensures IsStreak(before, ttl, t, k - 1)
      {
        if k > 1 {
          assert failures[|failures| - 1] - failures[|failures| - 2] < ttl;
        }
        forall i | |before| - (k - 1) < i < |before|
          ensures before[i] - before[i - 1] < ttl
        {
          assert failures[i] - failures[i - 1] < ttl;
        }
      }
    }
  }

  lemma LastIsRecorded(h: seq<Event>)
    requires SinceReset(h) != []
    ensures h != [] && SinceReset(h)[|SinceReset(h)| - 1] == h[|h| - 1].at
  {
  }

  /** The breaker is open exactly while the longest streak reaches the trip level,
      and it is closed once a full lifetime has passed without a failure. */
  lemma OpenIffStreak(h: seq<Event>, ttl: int, now: int, tripAt: nat)
    requires Ordered(h, now) && tripAt >= 1
    ensures IsOpen(Replay(h, ttl), now, tripAt) <==> IsStreak(SinceReset(h), ttl, now, tripAt)
    ensures (forall i :: 0 <= i < |h| ==> now - h[i].at >= ttl) ==> !IsOpen(Replay(h, ttl), now, tripAt)
  {
    CountIsLongestStreak(h, ttl, now);
    var fs := SinceReset(h);
    if IsOpen(Replay(h, ttl), now, tripAt) {
      assert IsStreak(fs, ttl, now, tripAt);
      LastIsRecorded(h);
    }
  }

  class Breaker {
    var counter: Counter
    // Every failure and reset so far.
    ghost var history: seq<Event>

    ghost predicate Valid(ttl: int)
      reads this
    {
      counter == Replay(history, ttl)
    }

    constructor ()
      ensures counter == Absent && history == [] && forall ttl :: Valid(ttl)
    {
      counter, history := Absent, [];
    }

    /** Returns the count, which by CountIsLongestStreak is the length of the streak that
        this failure ends. */
    method BumpFailure(now: int, window: int, recover: Option<int>) returns (count: nat)
      requires Valid(Ttl(window, recover))
      modifies this
      ensures Valid(Ttl(window, recover)) && history == old(history) + [Failure(now)]
      ensures count == if old(counter).Present? && now < old(counter).expiresAt then old(counter).count + 1 else 1
      ensures counter == Present(count, now + if recover.Some? && recover.value > window && recover.value != 0 then recover.value else window)
      ensures Ttl(window, recover) > 0 ==> count == Value(counter, now)
    {
      if counter.Present? && now < counter.expiresAt {
        counter := Present(counter.count + 1, counter.expiresAt);
      } else {
        counter := Present(1, now);
      }
      count := counter.count;
      counter := counter.(expiresAt := now + Ttl(window, recover));
      history := history + [Failure(now)];
      assert history[..|history| - 1] == old(history);
    }

    /** Whatever the lifetime, the breaker starts anew: it stays closed until failures
        after this moment form a streak. */
    method ResetFailure(now: int)
      modifies this
      ensures history == old(history) + [Reset(now)] && SinceReset(history) == [] && forall ttl :: Valid(ttl)
      ensures forall at, tripAt :: tripAt >= 1 ==> !IsOpen(counter, at, tripAt)
    {
      counter, history := Absent, history + [Reset(now)];
    }

    /** Open exactly while the failures since the last reset end in a streak of the trip
        level. */
    method IsBreakerOpen(now: int, tripAt: nat, ghost ttl: int) returns (open: bool)
      requires Valid(ttl) && Ordered(history, now) && tripAt >= 1
      ensures open <==> IsStreak(SinceReset(history), ttl, now, tripAt)
    {
      OpenIffStreak(history, ttl, now, tripAt);
      match counter
      case Absent => open := false;
      case Present(count, expiresAt) => open := now < expiresAt && count >= tripAt;
    }
  }

  // --- Does a trip mean a burst? --------------------------------------------

  ghost function Failures(times: seq<int>): seq<Event> {
    seq(|times|, i requires 0 <= i < |times| => Failure(times[i]))
  }

  ghost predicate Sorted(times: seq<int>) {
    forall i, j :: 0 <= i < j < |times| ==> times[i] <= times[j]
  }

  // `n` instants from 0 on, `gap` apart.
  ghost function Spaced(n: nat, gap: nat): (times: seq<int>)
    requires n >= 1
    ensures |times| == n && times[0] == 0
  {
    if n == 1 then [0] else Spaced(n - 1, gap) + [Spaced(n - 1, gap)[n - 2] + gap]
  }

  lemma {:induction false} SpacedIs(n: nat, gap: nat)
    requires n >= 1
    ensures Sorted(Spaced(n, gap)) && Spaced(n, gap)[n - 1] == (n - 1) * gap
    ensures forall i :: 1 <= i < n ==> Spaced(n, gap)[i] - Spaced(n, gap)[i - 1] == gap
  {
    if n > 1 {
      SpacedIs(n - 1, gap);
      assert (n - 1) * gap == (n - 2) * gap + gap;
    }
  }

  lemma {:induction false} SinceResetOfFailures(times: seq<int>)
    ensures SinceReset(Failures(times)) == times
  {
    if times != [] {
      var front := times[..|times| - 1];
      SinceResetOfFailures(front);
      assert Failures(times)[..|times| - 1] == Failures(front);
    }
  }

  lemma StreakOpens(times: seq<int>, ttl: int)
    requires times != [] && Sorted(times) && ttl >= 1
    requires forall i :: 1 <= i < |times| ==> times[i] - times[i - 1] < ttl
    ensures IsOpen(Replay(Failures(times), ttl), times[|times| - 1], |times|)
  {
    SinceResetOfFailures(times);
    assert IsStreak(times, ttl, times[|times| - 1], |times|);
    OpenIffStreak(Failures(times), ttl, times[|times| - 1], |times|);
  }

  // `tripAt` failures at the widest spacing that still counts.
  lemma SpacedFailuresTrip(tripAt: nat, ttl: int)
    requires tripAt >= 1 && ttl >= 1
    ensures var times := Spaced(tripAt, ttl - 1);
            Sorted(times) && IsOpen(Replay(Failures(times), ttl), times[tripAt - 1], tripAt) &&
            times[tripAt - 1] - times[0] == (tripAt - 1) * (ttl - 1)
  {
    var times := Spaced(tripAt, ttl - 1);
    SpacedIs(tripAt, ttl - 1);
    StreakOpens(times, ttl);
  }

  lemma {:induction false} SpanOfStreak(times: seq<int>, ttl: int, k: nat)
    requires 1 <= k <= |times|
    requires forall i :: |times| - k < i < |times| ==> times[i] - times[i - 1] < ttl
    ensures times[|times| - 1] - times[|times| - k] <= (k - 1) * (ttl - 1)
  {
    if k > 1 {
      SpanOfStreak(times, ttl, k - 1);
      assert (k - 1) * (ttl - 1) == (k - 2) * (ttl - 1) + (ttl - 1);
    }
  }

  /** The documented reading: whatever has been recorded and reset, the breaker is open only
      on `tripAt` failures that lie within one window. */
  ghost predicate TripsOnlyOnBurst(tripAt: nat, window: int, ttl: int)
    requires tripAt >= 1
  {
    forall h, now :: Ordered(h, now) && IsOpen(Replay(h, ttl), now, tripAt) ==>
      var f := SinceReset(h);
      |f| >= tripAt && f[|f| - 1] - f[|f| - tripAt] < window
  }

  /** With a lifetime `ttl` that reading is right exactly when `tripAt` failures at
      the widest permitted spacing still fit in the window. */
  lemma TripMeansBurstIff(tripAt: nat, window: int, ttl: int)
    requires tripAt >= 1 && ttl >= 1
    ensures TripsOnlyOnBurst(tripAt, window, ttl) <==> (tripAt - 1) * (ttl - 1) < window
  {
    if (tripAt - 1) * (ttl - 1) < window {
      forall h, now | Ordered(h, now) && IsOpen(Replay(h, ttl), now, tripAt)
        ensures |SinceReset(h)| >= tripAt && SinceReset(h)[|SinceReset(h)| - 1] - SinceReset(h)[|SinceReset(h)| - tripAt] < window
      {
        OpenIffStreak(h, ttl, now, tripAt);
        SpanOfStreak(SinceReset(h), ttl, tripAt);
      }
    } else {
      var times := Spaced(tripAt, ttl - 1);
      SpacedFailuresTrip(tripAt, ttl);
      SinceResetOfFailures(times);
      assert Ordered(Failures(times), times[tripAt - 1]);
    }
  }
}

/** The sliding-window budget: a sorted set with one member per clock reading. */
module SlidingWindow {
  import opened Seqs

  /** The member name is built from the clock reading, so two grants in the same
      tick share one member. The key disappears at `expiresAt`. */
  datatype Zset = Zset(scores: set<int>, expiresAt: Option<int>)

  const EMPTY := Zset({}, None)

  function Visible(z: Zset, now: int): Zset {
    if z.expiresAt.Some? && now >= z.expiresAt.value then EMPTY else z
  }

  // Drop an expired key, then remove the scores from 0 to the cutoff.
  function Evict(z: Zset, now: int, period: nat): Zset {
    var v := Visible(z, now);
    v.(scores := set g | g in v.scores && !(0 <= g <= now - period))
  }

  function Consume(z: Zset, now: int, limit: int, period: nat): (Zset, bool) {
    if limit <= 0 then (z, true)
    else
      var e := Evict(z, now, period);
      if |e.scores| >= limit then (e, false)
      else (Zset(e.scores + {now}, Some(now + 2 * period)), true)
  }

  // --- The stored set -----------------------------------------------------------

  // The distinct instants in (lo, hi] at which a call was granted.
  ghost function GrantedIn(grants: seq<int>, lo: int, hi: int): set<int> {
    set g | g in grants && lo < g <= hi
  }

  // Every member outlives the window it is counted in.
  ghost predicate Kept(z: Zset, period: nat) {
    forall g :: g in z.scores ==> g >= 0 && z.expiresAt.Some? && g + 2 * period <= z.expiresAt.value
  }

  /** The key's expiry never removes an entry that eviction would have kept. */
  lemma ExpiryDropsNothingLive(z: Zset, now: int, period: nat)
    requires Kept(z, period)
    ensures Evict(z, now, period).scores == set g | g in z.scores && g > now - period
    ensures Kept(Evict(z, now, period), period)
  {
  }

  /** The set tells all that matters of the grants: those of the last period are in it. */
  ghost predicate Tells(z: Zset, grants: seq<int>, period: nat, now: int) {
    && Kept(z, period)
    && (forall g :: g in z.scores ==> g in grants)
    && (forall g :: g in grants ==> 0 <= g <= now && (g > now - period ==> g in z.scores))
  }

  lemma EvictTells(z: Zset, grants: seq<int>, period: nat, last: int, now: int)
    requires Tells(z, grants, period, last) && last <= now
    ensures Tells(Evict(z, now, period), grants, period, now)
    ensures Evict(z, now, period).scores == GrantedIn(grants, now - period, now)
  {
    ExpiryDropsNothingLive(z, now, period);
    assert Evict(z, now, period).scores == GrantedIn(grants, now - period, now);
  }

  class RateBudget {
    var zset: Zset
    // The readings of all calls granted under a limit.
    ghost var grants: seq<int>

    constructor ()
      ensures zset == EMPTY && grants == [] && forall period, now :: Tells(zset, grants, period, now)
    {
      zset, grants := EMPTY, [];
    }

    /** Granted exactly if fewer than `limit` instants of the last period have been. */
    method ConsumeRate(now: int, limit: int, period: nat, ghost last: int) returns (granted: bool)
      requires Tells(zset, grants, period, last) && last <= now && 0 <= now
      modifies this
      ensures (zset, granted) == Consume(old(zset), now, limit, period)
      ensures limit <= 0 ==> granted && zset == old(zset) && grants == old(grants)
      ensures limit >= 1 ==>
                && (granted <==> |GrantedIn(old(grants), now - period, now)| < limit)
                && grants == (if granted then old(grants) + [now] else old(grants))
                && Tells(zset, grants, period, now)
                && (granted ==> now in zset.scores && zset.expiresAt == Some(now + 2 * period))
    {
      if limit <= 0 {
        return true;
      }
      EvictTells(zset, grants, period, last, now);
      zset := Evict(zset, now, period);
      if |zset.scores| >= limit {
        return false;
      }
      zset := zset.(scores := zset.scores + {now});
      zset := zset.(expiresAt := Some(now + 2 * period));
      grants := grants + [now];
      granted := true;
    }

    /** The number of instants of the last period at which a call was granted; asking
        changes no later answer. */
    method CurrentRateUsage(now: int, period: nat, ghost last: int) returns (used: nat)
      requires Tells(zset, grants, period, last) && last <= now
      modifies this`zset
      ensures used == |GrantedIn(grants, now - period, now)| && Tells(zset, grants, period, now)
    {
      EvictTells(zset, grants, period, last, now);
      zset := Evict(zset, now, period);
      used := |zset.scores|;
    }
  }

  // --- Sequential callers ---------------------------------------------------

  datatype Played = Played(zset: Zset, grants: seq<int>)

  ghost function Play(calls: seq<int>, limit: int, period: nat): Played {
    if calls == [] then Played(EMPTY, [])
    else
      var before := Play(calls[..|calls| - 1], limit, period);
      var now := calls[|calls| - 1];
      var (z, granted) := Consume(before.zset, now, limit, period);
      Played(z, if granted then before.grants + [now] else before.grants)
  }

  ghost predicate Clock(calls: seq<int>, now: int) {
    && (forall i, j :: 0 <= i < j < |calls| ==> calls[i] <= calls[j])
    && (forall i :: 0 <= i < |calls| ==> 0 <= calls[i] <= now)
  }

  ghost predicate StrictClock(calls: seq<int>) {
    forall i, j :: 0 <= i < j < |calls| ==> calls[i] < calls[j]
  }

  lemma {:induction false} PlayKeeps(calls: seq<int>, limit: int, period: nat, now: int)
    requires Clock(calls, now) && limit >= 1
    ensures Kept(Play(calls, limit, period).zset, period)
    ensures forall g :: g in Play(calls, limit, period).grants ==> 0 <= g <= now
    ensures forall g :: g in Play(calls, limit, period).zset.scores ==> g in Play(calls, limit, period).grants
    ensures forall g :: g in Play(calls, limit, period).grants && g > now - period ==>
              g in Play(calls, limit, period).zset.scores
  {
    if calls != [] {
      var front, t := calls[..|calls| - 1], calls[|calls| - 1];
      PlayKeeps(front, limit, period, t);
      ExpiryDropsNothingLive(Play(front, limit, period).zset, t, period);
    }
  }

  /** After eviction the set holds exactly the grants of the last period, and a call
      is denied exactly when there are already `limit` of them. */
  lemma WindowIsExact(calls: seq<int>, limit: int, period: nat, now: int)
    requires Clock(calls, now) && limit >= 1
    ensures var p := Play(calls, limit, period);
            Evict(p.zset, now, period).scores == GrantedIn(p.grants, now - period, now) &&
            (Consume(p.zset, now, limit, period).1 <==> |GrantedIn(p.grants, now - period, now)| < limit)
  {
    var p := Play(calls, limit, period);
    PlayKeeps(calls, limit, period, now);
    ExpiryDropsNothingLive(p.zset, now, period);
    assert Evict(p.zset, now, period).scores == GrantedIn(p.grants, now - period, now);
  }

  /** No window of one period contains more than `limit` grant instants. */
  lemma {:induction false} WindowBound(calls: seq<int>, limit: int, period: nat, now: int, lo: int)
    requires Clock(calls, now) && limit >= 1
    ensures |GrantedIn(Play(calls, limit, period).grants, lo, lo + period)| <= limit
  {
    if calls != [] {
      var front, t := calls[..|calls| - 1], calls[|calls| - 1];
      var p, q := Play(front, limit, period), Play(calls, limit, period);
      WindowBound(front, limit, period, t, lo);
      WindowIsExact(front, limit, period, t);
      PlayKeeps(front, limit, period, t);
      if q.grants == p.grants + [t] && lo < t <= lo + period {
        var recent := GrantedIn(p.grants, t - period, t);
        assert GrantedIn(q.grants, lo, lo + period) <= recent + {t};
        SubsetSize(GrantedIn(q.grants, lo, lo + period), recent + {t});
      } else {
        assert GrantedIn(q.grants, lo, lo + period) == GrantedIn(p.grants, lo, lo + period);
      }
    }
  }

  /** When no two readings coincide the instants are the grants themselves. */
  lemma {:induction false} StrictClockGrantsDistinct(calls: seq<int>, limit: int, period: nat)
    requires StrictClock(calls)
    ensures StrictClock(Play(calls, limit, period).grants)
    ensures forall g :: g in Play(calls, limit, period).grants ==> g in calls
  {
    if calls != [] {
      var front, t := calls[..|calls| - 1], calls[|calls| - 1];
      StrictClockGrantsDistinct(front, limit, period);
      var grants := Play(front, limit, period).grants;
      assert forall i :: 0 <= i < |grants| ==> grants[i] in grants;
      assert calls == front + [t];
    }
  }

  // --- Readings that coincide -------------------------------------------------

  // Grants counted one by one, not by instant.
  ghost function GrantsCounted(grants: seq<int>, lo: int, hi: int): nat {
    if grants == [] then 0
    else GrantsCounted(grants[..|grants| - 1], lo, hi) + if lo < grants[|grants| - 1] <= hi then 1 else 0
  }

  ghost predicate Respects(grants: seq<int>, limit: int, period: nat, lo: int) {
    GrantsCounted(grants, lo, lo + period) <= limit
  }

  ghost predicate NeverExceeds(limit: int, period: nat) {
    forall calls, now, lo :: Clock(calls, now) ==> Respects(Play(calls, limit, period).grants, limit, period, lo)
  }

  lemma {:induction false} CountAll(grants: seq<int>, lo: int, hi: int)
    requires forall i :: 0 <= i < |grants| ==> lo < grants[i] <= hi
    ensures GrantsCounted(grants, lo, hi) == |grants|
  {
    if grants != [] {
      CountAll(grants[..|grants| - 1], lo, hi);
    }
  }

  lemma {:induction false} SameTickAlwaysGranted(n: nat, limit: int, period: nat)
    requires limit >= 2 && period >= 1
    ensures Play(seq(n, _ => 0), limit, period).grants == seq(n, _ => 0)
    ensures Play(seq(n, _ => 0), limit, period).zset == if n == 0 then EMPTY else Zset({0}, Some(2 * period))
  {
    if n > 0 {
      SameTickAlwaysGranted(n - 1, limit, period);
      assert seq(n, _ => 0)[..n - 1] == seq(n - 1, _ => 0);
      var z := Play(seq(n - 1, _ => 0), limit, period).zset;
      assert Evict(z, 0, period) == z;
    }
  }

  lemma BurstExceeds(limit: int, period: nat)
    requires limit >= 2 && period >= 1
    ensures !NeverExceeds(limit, period)
  {
    var calls := seq(limit + 1, _ => 0);
    SameTickAlwaysGranted(limit + 1, limit, period);
    assert Clock(calls, 0);
    CountAll(calls, -1, -1 + period);
    assert !Respects(Play(calls, limit, period).grants, limit, period, -1);
  }

  lemma GrantedInAppend(front: seq<int>, g: int, lo: int, hi: int)
    requires g !in front
    ensures |GrantedIn(front + [g], lo, hi)| == |GrantedIn(front, lo, hi)| + if lo < g <= hi then 1 else 0
  {
    var was, all := GrantedIn(front, lo, hi), GrantedIn(front + [g], lo, hi);
    if lo < g <= hi {
      assert all == was + {g};
    } else {
      assert all == was;
    }
  }

  lemma {:induction false} CountIsSize(grants: seq<int>, lo: int, hi: int)
    requires StrictClock(grants)
    ensures GrantsCounted(grants, lo, hi) == |GrantedIn(grants, lo, hi)|
  {
    if grants == [] {
      assert GrantedIn(grants, lo, hi) == {};
    } else {
      var front, g := grants[..|grants| - 1], grants[|grants| - 1];
      CountIsSize(front, lo, hi);
      assert grants == front + [g];
      assert forall i :: 0 <= i < |front| ==> front[i] == grants[i] && grants[i] < g;
      GrantedInAppend(front, g, lo, hi);
    }
  }

  lemma StrictAppend(grants: seq<int>, t: int)
    requires StrictClock(grants) && t !in grants && forall g :: g in grants ==> g <= t
    ensures StrictClock(grants + [t])
  {
    assert forall i :: 0 <= i < |grants| ==> grants[i] in grants;
  }

  lemma {:induction false} SingleSlot(calls: seq<int>, period: nat, now: int)
    requires Clock(calls, now) && period >= 1
    ensures StrictClock(Play(calls, 1, period).grants)
  {
    if calls != [] {
      var front, t := calls[..|calls| - 1], calls[|calls| - 1];
      var p := Play(front, 1, period);
      SingleSlot(front, period, t);
      WindowIsExact(front, 1, period, t);
      PlayKeeps(front, 1, period, t);
      if Consume(p.zset, t, 1, period).1 {
        assert t !in GrantedIn(p.grants, t - period, t);
        StrictAppend(p.grants, t);
      }
    }
  }

  lemma SingleSlotRespected(calls: seq<int>, period: nat, now: int, lo: int)
    requires Clock(calls, now) && period >= 1
    ensures Respects(Play(calls, 1, period).grants, 1, period, lo)
  {
    SingleSlot(calls, period, now);
    WindowBound(calls, 1, period, now, lo);
    CountIsSize(Play(calls, 1, period).grants, lo, lo + period);
  }

  /** With a clock that may repeat a reading, the budget is respected exactly for a
      limit of one: from two on, calls in one tick are granted without bound. */
  lemma BudgetHoldsWithTiesIff(limit: int, period: nat)
    requires limit >= 1 && period >= 1
    ensures NeverExceeds(limit, period) <==> limit == 1
  {
    if limit == 1 {
      forall calls, now, lo | Clock(calls, now)
        ensures Respects(Play(calls, 1, period).grants, 1, period, lo)
      {
        SingleSlotRespected(calls, period, now, lo);
      }
    } else {
      BurstExceeds(limit, period);
    }
  }

  // --- Concurrent callers -----------------------------------------------------

  /** The count and the add are two round-trips: `waiting` holds the clock reading
      of each caller that has passed the check and not yet added its member. */
  datatype Shared = Shared(scores: set<int>, waiting: seq<int>)

  datatype Step = Check(now: int) | Add(caller: nat) | Vanish(caller: nat) | KeyExpires

  ghost predicate Enabled(s: Shared, step: Step) {
    step.Add? || step.Vanish? ==> step.caller < |s.waiting|
  }

  ghost function Apply(s: Shared, limit: int, period: nat, step: Step): Shared
    requires Enabled(s, step)
  {
    match step
    case Check(now) =>
      var kept := set g | g in s.scores && !(0 <= g <= now - period);
      Shared(kept, if |kept| >= limit then s.waiting else s.waiting + [now])
    case Add(c) => Shared(s.scores + {s.waiting[c]}, s.waiting[..c] + s.waiting[c + 1..])
    case Vanish(c) => s.(waiting := s.waiting[..c] + s.waiting[c + 1..])
    case KeyExpires => s.(scores := {})
  }

  // A run in which at most `k` callers are between the check and the add.
  ghost predicate ValidRun(s: Shared, limit: int, period: nat, k: nat, steps: seq<Step>)
    decreases |steps|
  {
    |s.waiting| <= k &&
    (steps == [] || (Enabled(s, steps[0]) && ValidRun(Apply(s, limit, period, steps[0]), limit, period, k, steps[1..])))
  }

  ghost function Final(s: Shared, limit: int, period: nat, k: nat, steps: seq<Step>): Shared
    requires ValidRun(s, limit, period, k, steps)
    decreases |steps|
  {
    if steps == [] then s else Final(Apply(s, limit, period, steps[0]), limit, period, k, steps[1..])
  }

  lemma StepKeepsBound(s: Shared, limit: int, period: nat, k: nat, step: Step)
    requires Enabled(s, step) && limit >= 1
    requires |s.scores| + |s.waiting| <= limit + k - 1
    requires |Apply(s, limit, period, step).waiting| <= k
    ensures var t := Apply(s, limit, period, step); |t.scores| + |t.waiting| <= limit + k - 1
  {
    var t := Apply(s, limit, period, step);
    SubsetSize(t.scores, if step.Add? then s.scores + {s.waiting[step.caller]} else s.scores);
  }

  /** With at most `k` callers in between, the set never exceeds limit + k - 1. */
  lemma {:induction false} RaceBound(s: Shared, limit: int, period: nat, k: nat, steps: seq<Step>)
    requires limit >= 1 && ValidRun(s, limit, period, k, steps)
    requires |s.scores| + |s.waiting| <= limit + k - 1
    ensures var f := Final(s, limit, period, k, steps); |f.scores| + |f.waiting| <= limit + k - 1
    decreases |steps|
  {
    if steps != [] {
      StepKeepsBound(s, limit, period, k, steps[0]);
      RaceBound(Apply(s, limit, period, steps[0]), limit, period, k, steps[1..]);
    }
  }

  ghost predicate Reachable(scores: set<int>, limit: int, period: nat, k: nat) {
    exists steps :: ValidRun(Shared({}, []), limit, period, k, steps) &&
      Final(Shared({}, []), limit, period, k, steps).scores == scores
  }

  lemma Prepend(s: Shared, limit: int, period: nat, k: nat, step: Step, rest: seq<Step>)
    requires |s.waiting| <= k && Enabled(s, step) && ValidRun(Apply(s, limit, period, step), limit, period, k, rest)
    ensures ValidRun(s, limit, period, k, [step] + rest)
    ensures Final(s, limit, period, k, [step] + rest) == Final(Apply(s, limit, period, step), limit, period, k, rest)
  {
    assert ([step] + rest)[1..] == rest;
  }

  // The members present and the readings waiting are 0, 1, 2, ... without repeats.
  ghost predicate Counting(s: Shared) {
    && (forall g :: g in s.scores ==> 0 <= g < |s.scores|)
    && (forall i :: 0 <= i < |s.waiting| ==> s.waiting[i] == |s.scores| + i)
  }

  // The waiting callers add their members one after the other.
  lemma {:induction false} DrainWaiting(s: Shared, limit: int, period: nat, k: nat) returns (steps: seq<Step>)
    requires Counting(s) && |s.waiting| <= k
    ensures ValidRun(s, limit, period, k, steps)
    ensures |Final(s, limit, period, k, steps).scores| == |s.scores| + |s.waiting|
    decreases |s.waiting|
  {
    if s.waiting == [] {
      steps := [];
    } else {
      var t := Apply(s, limit, period, Add(0));
      assert t.waiting == s.waiting[1..];
      var rest := DrainWaiting(t, limit, period, k);
      Prepend(s, limit, period, k, Add(0), rest);
      steps := [Add(0)] + rest;
    }
  }

  lemma CountingGrows(s: Shared)
    requires Counting(s)
    ensures var n := |s.scores| + |s.waiting|;
            && Counting(Shared(s.scores, s.waiting + [n]))
            && (s.waiting == [] ==> Counting(Shared(s.scores + {n}, [])) && |s.scores + {n}| == |s.scores| + 1)
  {
  }

  // A reading below the period evicts nothing.
  lemma CheckPasses(s: Shared, limit: int, period: nat, now: int)
    requires (forall g :: g in s.scores ==> 0 <= g) && |s.scores| < limit && now < period
    ensures Apply(s, limit, period, Check(now)) == Shared(s.scores, s.waiting + [now])
  {
    var kept := set g | g in s.scores && !(0 <= g <= now - period);
    assert kept == s.scores;
  }

  // One more caller passes the check.
  lemma CheckOne(s: Shared, limit: int, period: nat, k: nat, rest: seq<Step>) returns (steps: seq<Step>)
    requires Counting(s) && |s.scores| < limit && |s.waiting| < k
    requires var n := |s.scores| + |s.waiting|;
             n < period && ValidRun(Shared(s.scores, s.waiting + [n]), limit, period, k, rest)
    ensures var n := |s.scores| + |s.waiting|;
            && ValidRun(s, limit, period, k, steps)
            && Final(s, limit, period, k, steps) == Final(Shared(s.scores, s.waiting + [n]), limit, period, k, rest)
  {
    var n := |s.scores| + |s.waiting|;
    CheckPasses(s, limit, period, n);
    Prepend(s, limit, period, k, Check(n), rest);
    steps := [Check(n)] + rest;
  }

  // One caller passes the check and adds its member.
  lemma FillOne(s: Shared, limit: int, period: nat, k: nat, rest: seq<Step>) returns (steps: seq<Step>)
    requires Counting(s) && |s.scores| < limit && s.waiting == [] && k >= 1
    requires var n := |s.scores|; n < period && ValidRun(Shared(s.scores + {n}, []), limit, period, k, rest)
    ensures var n := |s.scores|;
            && ValidRun(s, limit, period, k, steps)
            && Final(s, limit, period, k, steps) == Final(Shared(s.scores + {n}, []), limit, period, k, rest)
  {
    var n := |s.scores|;
    var t := Shared(s.scores, [] + [n]);
    assert Apply(t, limit, period, Add(0)) == Shared(s.scores + {n}, []);
    Prepend(t, limit, period, k, Add(0), rest);
    steps := CheckOne(s, limit, period, k, [Add(0)] + rest);
  }

  // Let callers check one after the other until `k` are waiting, then let them add.
  lemma {:induction false} Race(s: Shared, limit: int, period: nat, k: nat) returns (steps: seq<Step>)
    requires k >= 1 && period >= limit + k && Counting(s) && |s.scores| == limit - 1 && |s.waiting| <= k
    ensures ValidRun(s, limit, period, k, steps)
    ensures var f := Final(s, limit, period, k, steps); |f.scores| == limit + k - 1
    decreases k - |s.waiting|
  {
    if |s.waiting| == k {
      steps := DrainWaiting(s, limit, period, k);
    } else {
      CountingGrows(s);
      var rest := Race(Shared(s.scores, s.waiting + [|s.scores| + |s.waiting|]), limit, period, k);
      steps := CheckOne(s, limit, period, k, rest);
    }
  }

  // Fill up to limit - 1 without a race, then let `k` callers check before any adds.
  lemma {:induction false} FillAndRace(s: Shared, limit: int, period: nat, k: nat) returns (steps: seq<Step>)
    requires k >= 1 && period >= limit + k && Counting(s) && |s.scores| <= limit - 1 && s.waiting == []
    ensures ValidRun(s, limit, period, k, steps)
    ensures var f := Final(s, limit, period, k, steps); |f.scores| == limit + k - 1
    decreases limit - |s.scores|
  {
    if |s.scores| == limit - 1 {
      steps := Race(s, limit, period, k);
    } else {
      CountingGrows(s);
      var rest := FillAndRace(Shared(s.scores + {|s.scores|}, []), limit, period, k);
      steps := FillOne(s, limit, period, k, rest);
    }
  }

  /** The bound is exact: every reachable set has at most limit + k - 1 members, and
      with a period long enough to fit the calls some reachable set has that many. */
  lemma RaceBoundIsExact(limit: int, period: nat, k: nat)
    requires limit >= 1 && k >= 1
    ensures forall scores :: Reachable(scores, limit, period, k) ==> |scores| <= limit + k - 1
    ensures period >= limit + k ==> exists scores :: Reachable(scores, limit, period, k) && |scores| == limit + k - 1
  {
    var empty := Shared({}, []);
    forall scores | Reachable(scores, limit, period, k)
      ensures |scores| <= limit + k - 1
    {
      var steps :| ValidRun(empty, limit, period, k, steps) && Final(empty, limit, period, k, steps).scores == scores;
      RaceBound(empty, limit, period, k, steps);
    }
    if period >= limit + k {
      var steps := FillAndRace(empty, limit, period, k);
      assert Reachable(Final(empty, limit, period, k, steps).scores, limit, period, k);
    }
  }
}
