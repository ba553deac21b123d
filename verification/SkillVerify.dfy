/** The verifier sweep: per workspace, verification outcomes drive a strike counter
    that a streak of clean results clears and that stops the workspace at three. */
module SkillVerify {
  import opened Seqs

  const TRIP_AT := 3

  // `Other` is any status string the sweep does not know.
  datatype Status = Accepted | Rejected | SkippedInsufficient | Errored | Other

  datatype Outcome = Crashed | Done(status: Status)

  predicate Clean(o: Outcome) {
    o.Done? && (o.status.Accepted? || o.status.Rejected? || o.status.SkippedInsufficient?)
  }

  datatype Counters = Counters(verified: nat, accepted: nat, rejected: nat, skipped: nat, errored: nat)

  /** The state of one workspace during a tick; `clean` and `bad` count the outcomes
      seen so far. */
  datatype Tally = Tally(strikes: nat, streak: nat, stopped: bool, clean: nat, bad: nat, counters: Counters)

  function Count(c: Counters, o: Outcome): Counters {
    match o
    case Crashed => c.(errored := c.errored + 1)
    case Done(Accepted) => c.(verified := c.verified + 1, accepted := c.accepted + 1)
    case Done(Rejected) => c.(verified := c.verified + 1, rejected := c.rejected + 1)
    case Done(SkippedInsufficient) => c.(verified := c.verified + 1, skipped := c.skipped + 1, accepted := c.accepted + 1)
    case Done(Errored) => c.(verified := c.verified + 1, errored := c.errored + 1)
    case Done(Other) => c.(verified := c.verified + 1)
  }

  function Next(t: Tally, o: Outcome): Tally {
    if Clean(o)
    then Tally(if t.streak + 1 >= TRIP_AT then 0 else t.strikes, t.streak + 1, t.stopped, t.clean + 1, t.bad, Count(t.counters, o))
    else Tally(t.strikes + 1, 0, t.stopped || t.strikes + 1 >= TRIP_AT, t.clean, t.bad + 1, Count(t.counters, o))
  }

  // The versions of one workspace in order, up to the short-circuit.
  function Run(t: Tally, outcomes: seq<Outcome>): Tally
    decreases |outcomes|
  {
    if outcomes == [] || t.stopped then t else Run(Next(t, outcomes[0]), outcomes[1..])
  }

  function Tried(t: Tally, outcomes: seq<Outcome>): nat
    decreases |outcomes|
  {
    if outcomes == [] || t.stopped then 0 else 1 + Tried(Next(t, outcomes[0]), outcomes[1..])
  }

  function Entering(strikes: nat, counters: Counters): Tally {
    Tally(strikes, 0, false, 0, 0, counters)
  }

  // --- The amortised bound --------------------------------------------------------

  // Clean outcomes not yet paid for by a reset.
  function Unspent(t: Tally): nat {
    if t.streak < 3 then t.streak else 0
  }

  ghost predicate Amortised(t: Tally, c0: nat) {
    && Unspent(t) <= t.clean
    && t.bad + c0 <= t.strikes + 2 * ((t.clean - Unspent(t)) / 3)
    && (t.stopped <==> t.strikes == TRIP_AT) && t.strikes <= TRIP_AT
    && (t.streak >= 3 ==> t.strikes == 0)
  }

  lemma NextKeepsAmortised(t: Tally, c0: nat, o: Outcome)
    requires Amortised(t, c0) && !t.stopped
    ensures Amortised(Next(t, o), c0)
  {
  }

  lemma {:induction false} RunKeepsAmortised(t: Tally, c0: nat, outcomes: seq<Outcome>)
    requires Amortised(t, c0)
    ensures Amortised(Run(t, outcomes), c0)
    ensures Run(t, outcomes).clean + Run(t, outcomes).bad == t.clean + t.bad + Tried(t, outcomes)
    ensures Tried(t, outcomes) <= |outcomes|
    ensures Tried(t, outcomes) < |outcomes| ==> Run(t, outcomes).stopped
    decreases |outcomes|
  {
    if outcomes != [] && !t.stopped {
      NextKeepsAmortised(t, c0, outcomes[0]);
      RunKeepsAmortised(Next(t, outcomes[0]), c0, outcomes[1..]);
    }
  }

  /** A workspace that enters with c0 < 3 strikes and sees S clean outcomes in the
      tick sees at most 3 - c0 + 2 * floor(S / 3) failures, and the tick ends early
      only with three strikes. */
  lemma FailureBound(c0: nat, outcomes: seq<Outcome>)
    requires c0 < TRIP_AT
    ensures var t := Run(Entering(c0, Counters(0, 0, 0, 0, 0)), outcomes);
            && t.bad <= 3 - c0 + 2 * (t.clean / 3)
            && t.strikes <= TRIP_AT && (t.stopped <==> t.strikes == TRIP_AT)
            && (Tried(Entering(c0, Counters(0, 0, 0, 0, 0)), outcomes) < |outcomes| ==> t.strikes == TRIP_AT)
  {
    RunKeepsAmortised(Entering(c0, Counters(0, 0, 0, 0, 0)), c0, outcomes);
  }

  /** Below three strikes as long as the loop goes on, and nothing is tried after the
      third. */
  lemma {:induction false} StrikesBelowThree(t: Tally, outcomes: seq<Outcome>, k: nat)
    requires !t.stopped && t.strikes < TRIP_AT && k < Tried(t, outcomes)
    ensures k <= |outcomes| && !Run(t, outcomes[..k]).stopped && Run(t, outcomes[..k]).strikes < TRIP_AT
    ensures Tried(t, outcomes[..k]) == k
    decreases k
  {
    if k > 0 {
      var n := Next(t, outcomes[0]);
      StrikesBelowThree(n, outcomes[1..], k - 1);
      assert outcomes[..k][1..] == outcomes[1..][..k - 1];
    }
  }

  lemma {:induction false} RunJoin(t: Tally, a: seq<Outcome>, b: seq<Outcome>)
    ensures Run(t, a + b) == Run(Run(t, a), b)
    decreases |a|
  {
    if a == [] {
      assert a + b == b;
    } else if !t.stopped {
      RunJoin(Next(t, a[0]), a[1..], b);
      assert (a + b)[1..] == a[1..] + b;
    }
  }

  // Three clean outcomes clear the strikes; two failures follow.
  const ROUND := [Done(Accepted), Done(Accepted), Done(Accepted), Crashed, Crashed]

  lemma OneRound(t: Tally)
    requires !t.stopped && t.streak == 0 && t.strikes <= 2
    ensures var n := Run(t, ROUND);
            !n.stopped && n.streak == 0 && n.strikes == 2 && n.clean == t.clean + 3 && n.bad == t.bad + 2
  {
    var a := Next(t, Done(Accepted));
    var b := Next(a, Done(Accepted));
    var c := Next(b, Done(Accepted));
    var d := Next(c, Crashed);
    assert ROUND[1..] == [Done(Accepted), Done(Accepted), Crashed, Crashed];
    assert ROUND[1..][1..] == [Done(Accepted), Crashed, Crashed];
    assert ROUND[1..][1..][1..] == [Crashed, Crashed];
    assert ROUND[1..][1..][1..][1..] == [Crashed];
    assert Run(d, [Crashed]) == Next(d, Crashed);
    assert Run(c, [Crashed, Crashed]) == Run(d, [Crashed]);
    assert Run(b, [Done(Accepted), Crashed, Crashed]) == Run(c, [Crashed, Crashed]);
    assert Run(a, ROUND[1..]) == Run(b, ROUND[1..][1..]);
  }

  lemma {:induction false} Rounds(t: Tally, m: nat) returns (outcomes: seq<Outcome>)
    requires !t.stopped && t.streak == 0 && t.strikes == 2
    ensures var n := Run(t, outcomes);
            !n.stopped && n.streak == 0 && n.strikes == 2 && n.clean == t.clean + 3 * m && n.bad == t.bad + 2 * m
    decreases m
  {
    if m == 0 {
      outcomes := [];
    } else {
      OneRound(t);
      var rest := Rounds(Run(t, ROUND), m - 1);
      RunJoin(t, ROUND, rest);
      outcomes := ROUND + rest;
    }
  }

  /** The bound is reached for every number of resets. */
  lemma FailureBoundIsReached(c0: nat, m: nat) returns (outcomes: seq<Outcome>)
    requires c0 < TRIP_AT
    ensures var t := Run(Entering(c0, Counters(0, 0, 0, 0, 0)), outcomes);
            t.clean == 3 * m && t.bad == 3 - c0 + 2 * m && t.strikes == TRIP_AT
  {
    var start := Entering(c0, Counters(0, 0, 0, 0, 0));
    var first := if c0 == 2 then [] else if c0 == 1 then [Crashed] else [Crashed, Crashed];
    assert [Crashed, Crashed][1..] == [Crashed];
    var t := Run(start, first);
    assert t.strikes == 2 && t.streak == 0 && !t.stopped && t.bad == 2 - c0 && t.clean == 0 by {
      assert Run(Next(start, Crashed), [Crashed]) == if Next(start, Crashed).stopped then Next(start, Crashed) else Next(Next(start, Crashed), Crashed);
    }
    var middle := Rounds(t, m);
    RunJoin(start, first, middle);
    var u := Run(start, first + middle);
    RunJoin(start, first + middle, [Crashed]);
    assert Run(u, [Crashed]) == Next(u, Crashed);
    outcomes := first + middle + [Crashed];
  }

  // --- When strikes are cleared, and when they trip -------------------------------------

  // The clean outcomes at the end.
  function Streak(s: seq<Outcome>): (n: nat)
    ensures n <= |s|
  {
    if s == [] || !Clean(s[|s| - 1]) then 0 else 1 + Streak(s[..|s| - 1])
  }

  function Failures(s: seq<Outcome>): nat {
    if s == [] then 0 else Failures(s[..|s| - 1]) + if Clean(s[|s| - 1]) then 0 else 1
  }

  predicate TripleAt(s: seq<Outcome>, i: int) {
    0 <= i && i + 2 < |s| && Clean(s[i]) && Clean(s[i + 1]) && Clean(s[i + 2])
  }

  ghost predicate HasTriple(s: seq<Outcome>) {
    exists i :: TripleAt(s, i)
  }

  // The strikes after these outcomes, the short-circuit aside.
  function StrikesAfter(c0: nat, s: seq<Outcome>): nat {
    if s == [] then c0
    else if !Clean(s[|s| - 1]) then StrikesAfter(c0, s[..|s| - 1]) + 1
    else if Streak(s) >= TRIP_AT then 0
    else StrikesAfter(c0, s[..|s| - 1])
  }

  ghost predicate Trips(c0: nat, s: seq<Outcome>) {
    exists j :: 0 <= j <= |s| && StrikesAfter(c0, s[..j]) >= TRIP_AT
  }

  lemma TripsNext(c0: nat, front: seq<Outcome>, last: Outcome)
    ensures Trips(c0, front + [last]) <==> Trips(c0, front) || StrikesAfter(c0, front + [last]) >= TRIP_AT
  {
    var s := front + [last];
    assert s[..|s|] == s;
    assert forall j :: 0 <= j <= |front| ==> s[..j] == front[..j];
  }

  // The workspace is stopped iff some prefix trips; until then the tally is the history.
  lemma {:induction false} TallyIs(c0: nat, s: seq<Outcome>)
    requires c0 < TRIP_AT
    ensures var t := Run(Entering(c0, Counters(0, 0, 0, 0, 0)), s);
            && (t.stopped <==> Trips(c0, s))
            && (!t.stopped ==> t.strikes == StrikesAfter(c0, s) && t.streak == Streak(s))
  {
    var start := Entering(c0, Counters(0, 0, 0, 0, 0));
    if s != [] {
      var front, last := s[..|s| - 1], s[|s| - 1];
      assert s == front + [last];
      TallyIs(c0, front);
      RunJoin(start, front, [last]);
      TripsNext(c0, front, last);
      RunKeepsAmortised(start, c0, front);
      var t := Run(start, front);
      assert !t.stopped ==> Run(t, [last]) == Next(t, last);
    } else {
      assert s[..0] == [];
    }
  }

  /** A clean outcome leaves no strikes exactly if there were none or the two outcomes
      before it were clean as well. */
  lemma ClearedIff(c0: nat, s: seq<Outcome>, o: Outcome)
    requires c0 < TRIP_AT && Clean(o) && !Run(Entering(c0, Counters(0, 0, 0, 0, 0)), s).stopped
    ensures var start := Entering(c0, Counters(0, 0, 0, 0, 0));
            Run(start, s + [o]).strikes == 0 <==>
            Run(start, s).strikes == 0 || (|s| >= 2 && Clean(s[|s| - 1]) && Clean(s[|s| - 2]))
  {
    var start := Entering(c0, Counters(0, 0, 0, 0, 0));
    TallyIs(c0, s);
    RunJoin(start, s, [o]);
    assert Run(Run(start, s), [o]) == Next(Run(start, s), o);
    assert |s| >= 1 ==> s[..|s| - 1] == [] || s[..|s| - 1][|s| - 2] == s[|s| - 2];
  }

  // What a stretch from `i` to the end weighs; one from the start counts the entry strikes.
  function Weight(c0: nat, s: seq<Outcome>, i: nat): nat
    requires i <= |s|
  {
    Failures(s[i..]) + if i == 0 then c0 else 0
  }

  lemma {:induction false} CleanEnd(s: seq<Outcome>, n: nat)
    requires n <= |s| && forall k :: |s| - n <= k < |s| ==> Clean(s[k])
    ensures Streak(s) >= n
  {
    if n > 0 {
      CleanEnd(s[..|s| - 1], n - 1);
    }
  }

  lemma WeightNext(c0: nat, front: seq<Outcome>, last: Outcome, i: nat)
    requires i <= |front|
    ensures Weight(c0, front + [last], i) == Weight(c0, front, i) + if Clean(last) then 0 else 1
  {
    var a, b := front[i..], (front + [last])[i..];
    assert b == a + [last] && b[..|b| - 1] == a;
  }

  lemma TripleAppend(a: seq<Outcome>, last: Outcome)
    ensures HasTriple(a + [last]) <==> HasTriple(a) || (|a| >= 2 && Clean(a[|a| - 2]) && Clean(a[|a| - 1]) && Clean(last))
  {
    var b, n := a + [last], |a|;
    assert b[n] == last && forall k :: 0 <= k < n ==> b[k] == a[k];
    if HasTriple(a) {
      var k :| TripleAt(a, k);
      assert TripleAt(b, k);
    } else if n >= 2 && Clean(a[n - 2]) && Clean(a[n - 1]) && Clean(last) {
      assert TripleAt(b, n - 2);
    } else if k :| TripleAt(b, k) {
      assert k < n - 2 ==> TripleAt(a, k);
    }
  }

  predicate EndsInTriple(s: seq<Outcome>) {
    TripleAt(s, |s| - 3)
  }

  lemma TripleNext(front: seq<Outcome>, last: Outcome, i: nat)
    requires i <= |front|
    ensures HasTriple(front[i..]) ==> HasTriple((front + [last])[i..])
    ensures HasTriple((front + [last])[i..]) ==> HasTriple(front[i..]) || EndsInTriple(front + [last])
  {
    var a := front[i..];
    assert (front + [last])[i..] == a + [last];
    TripleAppend(a, last);
  }

  lemma {:induction false} CleanTail(s: seq<Outcome>, i: nat)
    requires |s| - Streak(s) <= i <= |s|
    ensures Failures(s[i..]) == 0 && forall k :: i <= k < |s| ==> Clean(s[k])
  {
    if i < |s| {
      CleanTail(s[..|s| - 1], i);
      assert s[i..][..|s[i..]| - 1] == s[..|s| - 1][i..];
    }
  }

  lemma StreakOfThree(s: seq<Outcome>)
    ensures Streak(s) >= TRIP_AT <==> EndsInTriple(s)
  {
    if Streak(s) >= TRIP_AT {
      CleanTail(s, |s| - 3);
    } else if EndsInTriple(s) {
      CleanEnd(s, 3);
    }
  }

  // A stretch that holds the whole of three clean outcomes at the end has a triple.
  lemma LongHasTriple(s: seq<Outcome>, i: nat)
    requires EndsInTriple(s) && i <= |s|
    ensures i <= |s| - 3 ==> HasTriple(s[i..])
  {
    if i <= |s| - 3 {
      assert TripleAt(s[i..], |s| - 3 - i);
    }
  }

  /** The strikes are the weight of the heaviest stretch, reaching to the end, that holds
      no three clean outcomes in a row. */
  lemma {:induction false} StrikesAreHeaviest(c0: nat, s: seq<Outcome>) returns (best: nat)
    ensures best <= |s| && !HasTriple(s[best..]) && Weight(c0, s, best) == StrikesAfter(c0, s)
    ensures forall i :: 0 <= i <= |s| && !HasTriple(s[i..]) ==> Weight(c0, s, i) <= StrikesAfter(c0, s)
  {
    if s == [] {
      best := 0;
    } else {
      var front, last := s[..|s| - 1], s[|s| - 1];
      assert s == front + [last];
      best := StrikesAreHeaviest(c0, front);
      StreakOfThree(s);
      forall i | 0 <= i <= |s| && !HasTriple(s[i..])
        ensures Weight(c0, s, i) <= StrikesAfter(c0, s)
      {
        if Streak(s) >= TRIP_AT {
          LongHasTriple(s, i);
          CleanTail(s, i);
        } else if i < |s| {
          WeightNext(c0, front, last, i);
          TripleNext(front, last, i);
        }
      }
      WeightNext(c0, front, last, best);
      TripleNext(front, last, best);
      if Streak(s) >= TRIP_AT {
        best := |s|;
      }
    }
  }

  /** A workspace is stopped exactly if some stretch of its outcomes, the entry strikes
      counted if it starts with the tick, holds three failures and no three clean outcomes
      in a row. */
  lemma StoppedIff(c0: nat, outcomes: seq<Outcome>)
    requires c0 < TRIP_AT
    ensures Run(Entering(c0, Counters(0, 0, 0, 0, 0)), outcomes).stopped <==>
            exists i: nat, j: nat :: i <= j <= |outcomes| && !HasTriple(outcomes[i..j]) && Weight(c0, outcomes[..j], i) >= TRIP_AT
  {
    TallyIs(c0, outcomes);
    if Trips(c0, outcomes) {
      var j :| 0 <= j <= |outcomes| && StrikesAfter(c0, outcomes[..j]) >= TRIP_AT;
      var i := StrikesAreHeaviest(c0, outcomes[..j]);
      assert outcomes[..j][i..] == outcomes[i..j];
    }
    if i: nat, j: nat :| i <= j <= |outcomes| && !HasTriple(outcomes[i..j]) && Weight(c0, outcomes[..j], i) >= TRIP_AT {
      var _ := StrikesAreHeaviest(c0, outcomes[..j]);
      assert outcomes[..j][i..] == outcomes[i..j];
    }
  }

  predicate NoTwoFailuresInARow(outcomes: seq<Outcome>)
    decreases |outcomes|
  {
    |outcomes| < 2 || ((Clean(outcomes[0]) || Clean(outcomes[1])) && NoTwoFailuresInARow(outcomes[1..]))
  }

  lemma SpacedOut(rest: seq<Outcome>)
    requires NoTwoFailuresInARow(rest)
    ensures NoTwoFailuresInARow([Crashed] + ([Done(Accepted)] + rest))
  {
    var tail := [Done(Accepted)] + rest;
    assert tail[1..] == rest && ([Crashed] + tail)[1..] == tail;
    assert Clean(tail[0]);
  }

  lemma RunStep(t: Tally, o: Outcome, rest: seq<Outcome>)
    requires !t.stopped
    ensures Run(t, [o] + rest) == Run(Next(t, o), rest)
  {
    assert ([o] + rest)[1..] == rest;
  }

  lemma FailThenPass(t: Tally, rest: seq<Outcome>) returns (n: Tally)
    requires !t.stopped && t.strikes <= 1 && t.streak <= 1
    ensures Run(t, [Crashed] + ([Done(Accepted)] + rest)) == Run(n, rest)
    ensures !n.stopped && n.strikes == t.strikes + 1 && n.streak == 1
  {
    var failed := Next(t, Crashed);
    n := Next(failed, Done(Accepted));
    RunStep(failed, Done(Accepted), rest);
    RunStep(t, Crashed, [Done(Accepted)] + rest);
  }

  /** One clean result does not clear the counter, unlike what the module text says:
      a workspace trips although no two failures follow each other. */
  lemma AlternatingOutcomesTrip() returns (outcomes: seq<Outcome>)
    ensures NoTwoFailuresInARow(outcomes)
    ensures Run(Entering(0, Counters(0, 0, 0, 0, 0)), outcomes).stopped
  {
    var start := Entering(0, Counters(0, 0, 0, 0, 0));
    var last := [Crashed] + [];
    var one := FailThenPass(start, [Crashed] + ([Done(Accepted)] + last));
    var two := FailThenPass(one, last);
    RunStep(two, Crashed, []);
    assert Next(two, Crashed).stopped;
    SpacedOut(last);
    SpacedOut([Crashed] + ([Done(Accepted)] + last));
    outcomes := [Crashed] + ([Done(Accepted)] + ([Crashed] + ([Done(Accepted)] + last)));
  }

  // --- The sweep ----------------------------------------------------------------------

  datatype Config = Enabled | Disabled | ReadFails

  datatype Workspace = Workspace(id: nat, config: Config, outcomes: seq<Outcome>)

  type Strikes = map<nat, nat>

  function StrikesOf(s: Strikes, id: nat): nat {
    if id in s then s[id] else 0
  }

  datatype Summary = Summary(swept: nat, skippedBreaker: nat, skippedDisabled: nat, counters: Counters)

  predicate IsVerified(s: Strikes, w: Workspace) {
    w.config.Enabled? && StrikesOf(s, w.id) < TRIP_AT
  }

  // What one workspace does to the counters.
  function SweepOne(s: Strikes, sum: Summary, w: Workspace): (Strikes, Summary) {
    match w.config
    case ReadFails => (s, sum)
    case Disabled => (s, sum.(skippedDisabled := sum.skippedDisabled + 1))
    case Enabled =>
      if StrikesOf(s, w.id) >= TRIP_AT then (s, sum.(skippedBreaker := sum.skippedBreaker + 1))
      else
        var t := Run(Entering(StrikesOf(s, w.id), sum.counters), w.outcomes);
        (s[w.id := t.strikes], sum.(swept := sum.swept + 1, counters := t.counters))
  }

  function SweepAll(s: Strikes, sum: Summary, ws: seq<Workspace>): (Strikes, Summary) {
    if ws == [] then (s, sum)
    else
      var (s', sum') := SweepAll(s, sum, ws[..|ws| - 1]);
      SweepOne(s', sum', ws[|ws| - 1])
  }

  // --- What the counters count ---

  // How many of the first `n` outcomes are of the given kinds.
  ghost function Occur(outcomes: seq<Outcome>, n: nat, kinds: set<Outcome>): int
    requires n <= |outcomes|
  {
    |set k | 0 <= k < n && outcomes[k] in kinds|
  }

  lemma OccurNext(outcomes: seq<Outcome>, n: nat, kinds: set<Outcome>)
    requires n < |outcomes|
    ensures Occur(outcomes, n + 1, kinds) == Occur(outcomes, n, kinds) + if outcomes[n] in kinds then 1 else 0
  {
    assert (set k | 0 <= k < n + 1 && outcomes[k] in kinds)
        == (set k | 0 <= k < n && outcomes[k] in kinds) + if outcomes[n] in kinds then {n} else {};
  }

  /** The counters grew by the first `n` outcomes. A skipped version counts as accepted too, a
      crash as errored but not as verified. */
  ghost predicate Tallied(before: Counters, now: Counters, outcomes: seq<Outcome>, n: nat)
    requires n <= |outcomes|
  {
    && now.verified == before.verified
         + Occur(outcomes, n, {Done(Accepted), Done(Rejected), Done(SkippedInsufficient), Done(Errored), Done(Other)})
    && now.accepted == before.accepted + Occur(outcomes, n, {Done(Accepted), Done(SkippedInsufficient)})
    && now.rejected == before.rejected + Occur(outcomes, n, {Done(Rejected)})
    && now.skipped == before.skipped + Occur(outcomes, n, {Done(SkippedInsufficient)})
    && now.errored == before.errored + Occur(outcomes, n, {Crashed, Done(Errored)})
  }

  lemma NothingTallied(before: Counters, outcomes: seq<Outcome>)
    ensures Tallied(before, before, outcomes, 0)
  {
    forall kinds
      ensures Occur(outcomes, 0, kinds) == 0
    {
    }
  }

  lemma TalliedNext(before: Counters, now: Counters, outcomes: seq<Outcome>, n: nat)
    requires n < |outcomes| && Tallied(before, now, outcomes, n)
    ensures Tallied(before, Count(now, outcomes[n]), outcomes, n + 1)
  {
    OccurNext(outcomes, n, {Done(Accepted), Done(Rejected), Done(SkippedInsufficient), Done(Errored), Done(Other)});
    OccurNext(outcomes, n, {Done(Accepted), Done(SkippedInsufficient)});
    OccurNext(outcomes, n, {Done(Rejected)});
    OccurNext(outcomes, n, {Done(SkippedInsufficient)});
    OccurNext(outcomes, n, {Crashed, Done(Errored)});
    match outcomes[n] case Crashed => case Done(s) => match s case Accepted => case Rejected => case SkippedInsufficient => case Errored => case Other =>
  }

  lemma {:induction false} OnlyTriedCount(t: Tally, outcomes: seq<Outcome>)
    ensures Tried(t, outcomes) <= |outcomes| && Run(t, outcomes[..Tried(t, outcomes)]) == Run(t, outcomes)
    decreases |outcomes|
  {
    if outcomes != [] && !t.stopped {
      OnlyTriedCount(Next(t, outcomes[0]), outcomes[1..]);
      var k := Tried(t, outcomes);
      assert outcomes[..k][1..] == outcomes[1..][..k - 1];
    }
  }

  lemma {:induction false} PrefixTallied(t: Tally, outcomes: seq<Outcome>, k: nat)
    requires !t.stopped && t.strikes < TRIP_AT && k <= Tried(t, outcomes) <= |outcomes|
    ensures Tallied(t.counters, Run(t, outcomes[..k]).counters, outcomes, k)
  {
    if k == 0 {
      NothingTallied(t.counters, outcomes);
    } else {
      PrefixTallied(t, outcomes, k - 1);
      StrikesBelowThree(t, outcomes, k - 1);
      var before := Run(t, outcomes[..k - 1]);
      RunJoin(t, outcomes[..k - 1], [outcomes[k - 1]]);
      assert outcomes[..k] == outcomes[..k - 1] + [outcomes[k - 1]];
      assert Run(before, [outcomes[k - 1]]) == Next(before, outcomes[k - 1]);
      TalliedNext(t.counters, before.counters, outcomes, k - 1);
    }
  }

  /** The five counters of one workspace count the outcomes tried, each by its status. */
  lemma RunIsTallied(t: Tally, outcomes: seq<Outcome>)
    requires !t.stopped && t.strikes < TRIP_AT
    ensures Tried(t, outcomes) <= |outcomes| && Tallied(t.counters, Run(t, outcomes).counters, outcomes, Tried(t, outcomes))
  {
    OnlyTriedCount(t, outcomes);
    PrefixTallied(t, outcomes, Tried(t, outcomes));
  }

  lemma {:induction false} CountersDoNotSteer(a: Tally, b: Tally, outcomes: seq<Outcome>)
    requires a.strikes == b.strikes && a.streak == b.streak && a.stopped == b.stopped
    ensures Run(a, outcomes).strikes == Run(b, outcomes).strikes && Tried(a, outcomes) == Tried(b, outcomes)
    decreases |outcomes|
  {
    if outcomes != [] && !a.stopped {
      CountersDoNotSteer(Next(a, outcomes[0]), Next(b, outcomes[0]), outcomes[1..]);
    }
  }

  /** Workspaces do not affect each other: after a sweep over distinct workspaces the
      strikes of each depend on its own entry only, and a workspace that is disabled
      or already at three strikes keeps its count. */
  lemma {:induction false} WorkspacesAreIsolated(s: Strikes, sum: Summary, ws: seq<Workspace>, id: nat)
    requires forall i, j :: 0 <= i < j < |ws| ==> ws[i].id != ws[j].id
    ensures (forall i :: 0 <= i < |ws| ==> ws[i].id != id) ==> StrikesOf(SweepAll(s, sum, ws).0, id) == StrikesOf(s, id)
    ensures forall i :: 0 <= i < |ws| && ws[i].id == id ==>
              StrikesOf(SweepAll(s, sum, ws).0, id) ==
              if IsVerified(s, ws[i]) then Run(Entering(StrikesOf(s, id), Counters(0, 0, 0, 0, 0)), ws[i].outcomes).strikes
              else StrikesOf(s, id)
  {
    if ws != [] {
      var front, w := ws[..|ws| - 1], ws[|ws| - 1];
      WorkspacesAreIsolated(s, sum, front, id);
      assert forall i :: 0 <= i < |front| ==> front[i] == ws[i];
      var counters := SweepAll(s, sum, front).1.counters;
      CountersDoNotSteer(Entering(StrikesOf(s, id), counters), Entering(StrikesOf(s, id), Counters(0, 0, 0, 0, 0)), w.outcomes);
    }
  }

  const EMPTY_SUMMARY := Summary(0, 0, 0, Counters(0, 0, 0, 0, 0))

  ghost predicate DistinctIds(ws: seq<Workspace>) {
    forall i, j :: 0 <= i < j < |ws| ==> ws[i].id != ws[j].id
  }

  function TriedOf(s: Strikes, w: Workspace): nat {
    if IsVerified(s, w) then Tried(Entering(StrikesOf(s, w.id), Counters(0, 0, 0, 0, 0)), w.outcomes) else 0
  }

  // How many of the outcomes tried anywhere are of the given kinds.
  ghost function OccurIn(s: Strikes, ws: seq<Workspace>, kinds: set<Outcome>): int {
    Sum(seq(|ws|, i requires 0 <= i < |ws| => |set k | 0 <= k < TriedOf(s, ws[i]) && k < |ws[i].outcomes| && ws[i].outcomes[k] in kinds|))
  }

  lemma OccurInNext(s: Strikes, front: seq<Workspace>, w: Workspace, kinds: set<Outcome>)
    requires TriedOf(s, w) <= |w.outcomes|
    ensures OccurIn(s, front + [w], kinds) == OccurIn(s, front, kinds) + Occur(w.outcomes, TriedOf(s, w), kinds)
  {
    var ws, n := front + [w], |front|;
    var all := seq(n + 1, i requires 0 <= i < n + 1 => |set k | 0 <= k < TriedOf(s, ws[i]) && k < |ws[i].outcomes| && ws[i].outcomes[k] in kinds|);
    assert all[..n] == seq(n, i requires 0 <= i < n => |set k | 0 <= k < TriedOf(s, front[i]) && k < |front[i].outcomes| && front[i].outcomes[k] in kinds|);
    assert (set k | 0 <= k < TriedOf(s, w) && k < |w.outcomes| && w.outcomes[k] in kinds) == set k | 0 <= k < TriedOf(s, w) && w.outcomes[k] in kinds;
  }

  ghost predicate CountsAll(s: Strikes, ws: seq<Workspace>, c: Counters) {
    && c.verified == OccurIn(s, ws, {Done(Accepted), Done(Rejected), Done(SkippedInsufficient), Done(Errored), Done(Other)})
    && c.accepted == OccurIn(s, ws, {Done(Accepted), Done(SkippedInsufficient)})
    && c.rejected == OccurIn(s, ws, {Done(Rejected)})
    && c.skipped == OccurIn(s, ws, {Done(SkippedInsufficient)})
    && c.errored == OccurIn(s, ws, {Crashed, Done(Errored)})
  }

  lemma CountsNext(s: Strikes, front: seq<Workspace>, w: Workspace, before: Counters, now: Counters)
    requires CountsAll(s, front, before) && TriedOf(s, w) <= |w.outcomes| && Tallied(before, now, w.outcomes, TriedOf(s, w))
    ensures CountsAll(s, front + [w], now)
  {
    OccurInNext(s, front, w, {Done(Accepted), Done(Rejected), Done(SkippedInsufficient), Done(Errored), Done(Other)});
    OccurInNext(s, front, w, {Done(Accepted), Done(SkippedInsufficient)});
    OccurInNext(s, front, w, {Done(Rejected)});
    OccurInNext(s, front, w, {Done(SkippedInsufficient)});
    OccurInNext(s, front, w, {Crashed, Done(Errored)});
  }

  // One workspace's part of the counters.
  lemma OneCounts(s: Strikes, strikes: Strikes, front: seq<Workspace>, sum: Summary, w: Workspace)
    requires StrikesOf(strikes, w.id) == StrikesOf(s, w.id) && CountsAll(s, front, sum.counters)
    ensures CountsAll(s, front + [w], SweepOne(strikes, sum, w).1.counters)
  {
    if IsVerified(s, w) {
      var t := Entering(StrikesOf(s, w.id), sum.counters);
      RunIsTallied(t, w.outcomes);
      CountersDoNotSteer(t, Entering(StrikesOf(s, w.id), Counters(0, 0, 0, 0, 0)), w.outcomes);
    } else {
      NothingTallied(sum.counters, w.outcomes);
    }
    CountsNext(s, front, w, sum.counters, SweepOne(strikes, sum, w).1.counters);
  }

  /** Which workspaces the three workspace counters count. */
  ghost predicate CountsWorkspaces(s: Strikes, ws: seq<Workspace>, sum: Summary) {
    && sum.swept == |set i | 0 <= i < |ws| && ws[i].config.Enabled? && StrikesOf(s, ws[i].id) < 3|
    && sum.skippedBreaker == |set i | 0 <= i < |ws| && ws[i].config.Enabled? && StrikesOf(s, ws[i].id) >= 3|
    && sum.skippedDisabled == |set i | 0 <= i < |ws| && ws[i].config.Disabled?|
  }

  lemma SweptNext(s: Strikes, front: seq<Workspace>, w: Workspace)
    ensures var ws := front + [w];
            |set i | 0 <= i < |ws| && ws[i].config.Enabled? && StrikesOf(s, ws[i].id) < 3| ==
            |set i | 0 <= i < |front| && front[i].config.Enabled? && StrikesOf(s, front[i].id) < 3| + if IsVerified(s, w) then 1 else 0
  {
    var ws, n := front + [w], |front|;
    assert (set i | 0 <= i < |ws| && ws[i].config.Enabled? && StrikesOf(s, ws[i].id) < 3)
        == (set i | 0 <= i < n && front[i].config.Enabled? && StrikesOf(s, front[i].id) < 3) + if IsVerified(s, w) then {n} else {};
  }

  lemma BreakerNext(s: Strikes, front: seq<Workspace>, w: Workspace)
    ensures var ws := front + [w];
            |set i | 0 <= i < |ws| && ws[i].config.Enabled? && StrikesOf(s, ws[i].id) >= 3| ==
            |set i | 0 <= i < |front| && front[i].config.Enabled? && StrikesOf(s, front[i].id) >= 3|
            + if w.config.Enabled? && !IsVerified(s, w) then 1 else 0
  {
    var ws, n := front + [w], |front|;
    assert (set i | 0 <= i < |ws| && ws[i].config.Enabled? && StrikesOf(s, ws[i].id) >= 3)
        == (set i | 0 <= i < n && front[i].config.Enabled? && StrikesOf(s, front[i].id) >= 3)
           + if w.config.Enabled? && !IsVerified(s, w) then {n} else {};
  }

  lemma DisabledNext(front: seq<Workspace>, w: Workspace)
    ensures var ws := front + [w];
            |set i | 0 <= i < |ws| && ws[i].config.Disabled?| ==
            |set i | 0 <= i < |front| && front[i].config.Disabled?| + if w.config.Disabled? then 1 else 0
  {
    var ws, n := front + [w], |front|;
    assert (set i | 0 <= i < |ws| && ws[i].config.Disabled?)
        == (set i | 0 <= i < n && front[i].config.Disabled?) + if w.config.Disabled? then {n} else {};
  }

  lemma WorkspacesNext(s: Strikes, strikes: Strikes, front: seq<Workspace>, sum: Summary, w: Workspace)
    requires StrikesOf(strikes, w.id) == StrikesOf(s, w.id) && CountsWorkspaces(s, front, sum)
    ensures CountsWorkspaces(s, front + [w], SweepOne(strikes, sum, w).1)
  {
    SweptNext(s, front, w);
    BreakerNext(s, front, w);
    DisabledNext(front, w);
  }

  lemma NothingSwept(s: Strikes)
    ensures CountsAll(s, [], EMPTY_SUMMARY.counters) && CountsWorkspaces(s, [], EMPTY_SUMMARY)
  {
    forall kinds
      ensures OccurIn(s, [], kinds) == 0
    {
    }
  }

  /** What the whole summary counts, from the strikes at the start of the tick. */
  lemma {:induction false} SummaryCounts(s: Strikes, ws: seq<Workspace>)
    requires DistinctIds(ws)
    ensures var sum := SweepAll(s, EMPTY_SUMMARY, ws).1; CountsWorkspaces(s, ws, sum) && CountsAll(s, ws, sum.counters)
  {
    if ws == [] {
      NothingSwept(s);
    } else {
      var front, w := ws[..|ws| - 1], ws[|ws| - 1];
      assert forall i :: 0 <= i < |front| ==> front[i] == ws[i];
      SummaryCounts(s, front);
      var (strikes, sum) := SweepAll(s, EMPTY_SUMMARY, front);
      WorkspacesAreIsolated(s, EMPTY_SUMMARY, front, w.id);
      WorkspacesNext(s, strikes, front, sum, w);
      OneCounts(s, strikes, front, sum, w);
      assert front + [w] == ws;
    }
  }

  lemma OthersKeep(was: Strikes, now: Strikes, id: nat)
    requires now - {id} == was - {id}
    ensures forall other :: other != id ==> StrikesOf(now, other) == StrikesOf(was, other)
  {
    forall other | other != id
      ensures StrikesOf(now, other) == StrikesOf(was, other)
    {
      assert other in now <==> other in now - {id};
      assert other in was <==> other in was - {id};
      if other in now {
        assert (now - {id})[other] == now[other] && (was - {id})[other] == was[other];
      }
    }
  }

  class VerifierSweep {
    var strikes: Strikes

    constructor ()
      ensures strikes == map[]
    {
      strikes := map[];
    }

    method BumpFailure(id: nat) returns (count: nat)
      modifies this
      ensures count == StrikesOf(old(strikes), id) + 1 && strikes == old(strikes)[id := count]
    {
      count := if id in strikes then strikes[id] + 1 else 1;
      strikes := strikes[id := count];
    }

    method ResetFailure(id: nat)
      modifies this
      ensures strikes == old(strikes) - {id}
    {
      strikes := strikes - {id};
    }

    /** The loop over the versions of one workspace. */
    method SweepWorkspace(id: nat, outcomes: seq<Outcome>, before: Counters) returns (counters: Counters, tried: nat)
      modifies this
      ensures var t := Run(Entering(StrikesOf(old(strikes), id), before), outcomes);
              && StrikesOf(strikes, id) == t.strikes && counters == t.counters
              && strikes - {id} == old(strikes) - {id}
      ensures tried == Tried(Entering(StrikesOf(old(strikes), id), before), outcomes)
      ensures tried <= |outcomes| && Tallied(before, counters, outcomes, tried)
    {
      NothingTallied(before, outcomes);
      counters := before;
      tried := 0;
      var streak := 0;
      var shortCircuit := false;
      ghost var start := Entering(StrikesOf(strikes, id), before);
      ghost var now := start;
      assert outcomes[0..] == outcomes;
      for i := 0 to |outcomes|
        invariant now.strikes == StrikesOf(strikes, id) && now.streak == streak && now.stopped == shortCircuit && now.counters == counters
        invariant strikes - {id} == old(strikes) - {id}
        invariant Run(now, outcomes[i..]) == Run(start, outcomes)
        invariant tried + Tried(now, outcomes[i..]) == Tried(start, outcomes)
        invariant tried <= i && (!shortCircuit ==> tried == i) && Tallied(before, counters, outcomes, tried)
      {
        if shortCircuit {
          break;
        }
        var o := outcomes[i];
        assert outcomes[i..][0] == o && outcomes[i..][1..] == outcomes[i + 1..];
        TalliedNext(before, counters, outcomes, i);
        now, tried := Next(now, o), tried + 1;
        counters := Count(counters, o);
        if o.Crashed? {
          var count := BumpFailure(id);
          if count >= TRIP_AT {
            shortCircuit := true;
          }
          streak := 0;
        } else if o.status.Accepted? || o.status.Rejected? || o.status.SkippedInsufficient? {
          streak := streak + 1;
          if streak >= TRIP_AT {
            ResetFailure(id);
          }
        } else {
          var count := BumpFailure(id);
          if count >= TRIP_AT {
            shortCircuit := true;
          }
          streak := 0;
        }
      }
    }

    /** The whole tick. */
    method Sweep(ws: seq<Workspace>) returns (sum: Summary)
      modifies this
      ensures forall id :: StrikesOf(strikes, id) == StrikesOf(SweepAll(old(strikes), EMPTY_SUMMARY, ws).0, id)
      ensures sum == SweepAll(old(strikes), EMPTY_SUMMARY, ws).1
      ensures DistinctIds(ws) ==> CountsWorkspaces(old(strikes), ws, sum) && CountsAll(old(strikes), ws, sum.counters)
    {
      if DistinctIds(ws) {
        SummaryCounts(strikes, ws);
      }
      sum := EMPTY_SUMMARY;
      for i := 0 to |ws|
        invariant forall id :: StrikesOf(strikes, id) == StrikesOf(SweepAll(old(strikes), EMPTY_SUMMARY, ws[..i]).0, id)
        invariant sum == SweepAll(old(strikes), EMPTY_SUMMARY, ws[..i]).1
      {
        var w := ws[i];
        assert ws[..i + 1][..i] == ws[..i] && ws[..i + 1][i] == w;
        ghost var was := strikes;
        match w.config {
          case ReadFails =>
          case Disabled =>
            sum := sum.(skippedDisabled := sum.skippedDisabled + 1);
          case Enabled =>
            if StrikesOf(strikes, w.id) >= TRIP_AT {
              sum := sum.(skippedBreaker := sum.skippedBreaker + 1);
            } else {
              var counters, _ := SweepWorkspace(w.id, w.outcomes, sum.counters);
              sum := sum.(swept := sum.swept + 1, counters := counters);
              OthersKeep(was, strikes, w.id);
            }
        }
      }
      assert ws[..|ws|] == ws;
    }
  }
}
