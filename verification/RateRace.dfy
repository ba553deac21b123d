/** The sliding-window budget under concurrent callers: reading the clock, evicting and
    counting, and adding the member are three separate moments of a call. */
module RateRace {
  import opened Seqs

  /** What is assumed of the callers. `Prompt`: the key never expires under a call that is
      still running a whole period after its reading. `Ordered`: besides, the checks run
      in the order of their readings. */
  datatype Rule = Any | Prompt | Ordered

  // At most `k` calls are under way at any time.
  datatype Setting = Setting(limit: int, period: nat, k: nat, rule: Rule)

  /** Calls are named by their readings, which never repeat. `reading` have read the clock
      and not yet checked, `waiting` have passed the check and not yet added. */
  datatype Race = Race(scores: set<int>, reading: set<int>, waiting: set<int>, granted: set<int>, clock: int, checked: int)

  datatype Step = Read(now: int) | Check(r: int) | Add(r: int) | Vanish(r: int) | KeyExpires(now: int)

  ghost predicate Enabled(c: Setting, s: Race, step: Step) {
    match step
    case Read(now) => now > s.clock
    case Check(r) => r in s.reading && (c.rule.Ordered? ==> r > s.checked)
    case Add(r) => r in s.waiting
    case Vanish(r) => r in s.reading || r in s.waiting
    // Every add sets the expiry to two periods from then.
    case KeyExpires(now) =>
      && now >= s.clock && (forall g :: g in s.scores ==> g + 2 * c.period <= now)
      && (!c.rule.Any? ==> forall r :: r in s.reading || r in s.waiting ==> now < r + c.period)
  }

  function Kept(scores: set<int>, r: int, period: nat): set<int> {
    set g | g in scores && !(0 <= g <= r - period)
  }

  ghost function Apply(c: Setting, s: Race, step: Step): Race {
    match step
    case Read(now) => s.(reading := s.reading + {now}, clock := now)
    case Check(r) =>
      var kept := Kept(s.scores, r, c.period);
      s.(scores := kept, reading := s.reading - {r}, waiting := if |kept| >= c.limit then s.waiting else s.waiting + {r},
         checked := if r > s.checked then r else s.checked)
    case Add(r) => s.(scores := s.scores + {r}, waiting := s.waiting - {r}, granted := s.granted + {r})
    case Vanish(r) => s.(reading := s.reading - {r}, waiting := s.waiting - {r})
    case KeyExpires(now) => s.(scores := {}, clock := now)
  }

  ghost predicate ValidRun(c: Setting, s: Race, steps: seq<Step>)
    decreases |steps|
  {
    && |s.reading| + |s.waiting| <= c.k
    && (steps == [] || (Enabled(c, s, steps[0]) && ValidRun(c, Apply(c, s, steps[0]), steps[1..])))
  }

  ghost function Final(c: Setting, s: Race, steps: seq<Step>): Race
    decreases |steps|
  {
    if steps == [] then s else Final(c, Apply(c, s, steps[0]), steps[1..])
  }

  const START := Race({}, {}, {}, {}, -1, -1)

  // --- Windows ----------------------------------------------------------------------------

  ghost function In(s: set<int>, lo: int, period: nat): set<int> {
    set g | g in s && lo < g <= lo + period
  }

  ghost predicate Basic(s: Race) {
    && s.reading !! s.waiting && s.reading !! s.granted && s.waiting !! s.granted
    && s.scores <= s.granted && -1 <= s.checked <= s.clock
    && (forall g :: g in s.reading || g in s.waiting || g in s.granted ==> 0 <= g <= s.clock)
  }

  lemma StepKeepsBasic(c: Setting, s: Race, step: Step)
    requires Basic(s) && Enabled(c, s, step)
    ensures Basic(Apply(c, s, step)) && s.clock <= Apply(c, s, step).clock
  {
  }

  /** As long as the set holds all grants of the window, they and the calls about to join
      them stay below the bound of the set. Afterwards only calls that have read the clock
      by then can still be granted in the window. */
  ghost predicate Whole(c: Setting, s: Race, lo: int) {
    && In(s.granted, lo, c.period) <= s.scores
    && |In(s.granted, lo, c.period)| + |In(s.waiting, lo, c.period)| <= c.limit + c.k - 1
  }

  ghost predicate Late(c: Setting, s: Race, lo: int) {
    var in_, wait, read := |In(s.granted, lo, c.period)|, |In(s.waiting, lo, c.period)|, |In(s.reading, lo, c.period)|;
    && s.clock > lo + c.period
    && match c.rule
       case Any => in_ + wait + read <= c.limit + 2 * c.k - 1
       case Prompt => in_ + wait + read <= c.limit + 2 * (c.k - 1)
       case Ordered => in_ + wait <= c.limit + c.k - 1 && (s.checked > lo + c.period || read == 0)
  }

  lemma InOneMore(s: set<int>, r: int, lo: int, period: nat)
    requires r !in s
    ensures |In(s + {r}, lo, period)| == |In(s, lo, period)| + if lo < r <= lo + period then 1 else 0
  {
    assert In(s + {r}, lo, period) == In(s, lo, period) + if lo < r <= lo + period then {r} else {};
  }

  lemma InOneLess(s: set<int>, r: int, lo: int, period: nat)
    ensures |In(s - {r}, lo, period)| == |In(s, lo, period)| - if r in s && lo < r <= lo + period then 1 else 0
  {
    if r in s {
      assert s == (s - {r}) + {r};
      InOneMore(s - {r}, r, lo, period);
    } else {
      assert s - {r} == s;
    }
  }

  lemma InIsPart(s: set<int>, lo: int, period: nat)
    ensures |In(s, lo, period)| <= |s|
  {
    SubsetSize(In(s, lo, period), s);
  }

  lemma AddKeeps(c: Setting, s: Race, r: int, lo: int)
    requires Basic(s) && Enabled(c, s, Add(r))
    ensures Whole(c, s, lo) ==> Whole(c, Apply(c, s, Add(r)), lo)
    ensures Late(c, s, lo) ==> Late(c, Apply(c, s, Add(r)), lo)
  {
    InOneMore(s.granted, r, lo, c.period);
    InOneLess(s.waiting, r, lo, c.period);
  }

  lemma VanishKeeps(c: Setting, s: Race, r: int, lo: int)
    requires Basic(s) && Enabled(c, s, Vanish(r))
    ensures Whole(c, s, lo) ==> Whole(c, Apply(c, s, Vanish(r)), lo)
    ensures Late(c, s, lo) ==> Late(c, Apply(c, s, Vanish(r)), lo)
  {
    InOneLess(s.reading, r, lo, c.period);
    InOneLess(s.waiting, r, lo, c.period);
  }

  lemma ReadKeeps(c: Setting, s: Race, now: int, lo: int)
    requires Basic(s) && Enabled(c, s, Read(now))
    ensures Whole(c, s, lo) ==> Whole(c, Apply(c, s, Read(now)), lo)
    ensures Late(c, s, lo) ==> Late(c, Apply(c, s, Read(now)), lo)
  {
    InOneMore(s.reading, now, lo, c.period);
  }

  // Once late, a check can only move a call of the window on or turn it away.
  lemma CheckKeepsLate(c: Setting, s: Race, r: int, lo: int)
    requires Basic(s) && Enabled(c, s, Check(r)) && Late(c, s, lo)
    ensures Late(c, Apply(c, s, Check(r)), lo)
  {
    InOneLess(s.reading, r, lo, c.period);
    InOneMore(s.waiting, r, lo, c.period);
    assert lo < r <= lo + c.period ==> r in In(s.reading, lo, c.period);
  }

  // A check with a reading of the window or before it evicts nothing of the window.
  lemma EarlyCheck(c: Setting, s: Race, r: int, lo: int)
    requires Basic(s) && Enabled(c, s, Check(r)) && Whole(c, s, lo) && r <= lo + c.period
    requires var t := Apply(c, s, Check(r)); |t.reading| + |t.waiting| <= c.k
    ensures Whole(c, Apply(c, s, Check(r)), lo)
  {
    var t := Apply(c, s, Check(r));
    assert In(t.granted, lo, c.period) <= t.scores;
    if |t.scores| < c.limit {
      SubsetSize(In(t.granted, lo, c.period), t.scores);
      InIsPart(t.waiting, lo, c.period);
    }
  }

  // With a later reading the caller is itself none of those still to come.
  lemma LateCheck(c: Setting, s: Race, r: int, lo: int)
    requires c.k >= 1 && Basic(s) && Enabled(c, s, Check(r)) && Whole(c, s, lo) && r > lo + c.period
    requires |s.reading| + |s.waiting| <= c.k
    ensures Late(c, Apply(c, s, Check(r)), lo)
  {
    var t := Apply(c, s, Check(r));
    InOneLess(s.reading, r, lo, c.period);
    InOneMore(s.waiting, r, lo, c.period);
    InIsPart(t.reading, lo, c.period);
    assert |t.reading| == |s.reading| - 1;
    assert In(t.waiting, lo, c.period) == In(s.waiting, lo, c.period);
  }

  lemma ExpiryKeeps(c: Setting, s: Race, now: int, lo: int)
    requires c.k >= 1 && Basic(s) && Enabled(c, s, KeyExpires(now)) && |s.reading| + |s.waiting| <= c.k
    ensures Late(c, s, lo) ==> Late(c, Apply(c, s, KeyExpires(now)), lo)
    ensures Whole(c, s, lo) ==> Whole(c, Apply(c, s, KeyExpires(now)), lo) || Late(c, Apply(c, s, KeyExpires(now)), lo)
  {
    var t := Apply(c, s, KeyExpires(now));
    if Whole(c, s, lo) && In(s.granted, lo, c.period) != {} {
      var g := Member(In(s.granted, lo, c.period));
      InIsPart(s.reading, lo, c.period);
      if !c.rule.Any? {
        assert In(t.reading, lo, c.period) == {} && In(t.waiting, lo, c.period) == {};
      }
    }
  }

  lemma StepKeepsWindow(c: Setting, s: Race, step: Step, lo: int)
    requires c.k >= 1 && Basic(s) && Enabled(c, s, step) && (Whole(c, s, lo) || Late(c, s, lo))
    requires |s.reading| + |s.waiting| <= c.k && |Apply(c, s, step).reading| + |Apply(c, s, step).waiting| <= c.k
    ensures Whole(c, Apply(c, s, step), lo) || Late(c, Apply(c, s, step), lo)
  {
    match step
    case Read(now) => ReadKeeps(c, s, now, lo);
    case Add(r) => AddKeeps(c, s, r, lo);
    case Vanish(r) => VanishKeeps(c, s, r, lo);
    case KeyExpires(now) => ExpiryKeeps(c, s, now, lo);
    case Check(r) =>
      if Late(c, s, lo) {
        CheckKeepsLate(c, s, r, lo);
      } else if r <= lo + c.period {
        EarlyCheck(c, s, r, lo);
      } else {
        LateCheck(c, s, r, lo);
      }
  }

  function Bound(c: Setting): int {
    match c.rule
    case Any => c.limit + 2 * c.k - 1
    case Prompt => c.limit + 2 * (c.k - 1)
    case Ordered => c.limit + c.k - 1
  }

  /** However the calls interleave, no window of one period ever holds more grants than
      the bound of the rule they keep. */
  lemma {:induction false} WindowUnderRace(c: Setting, s: Race, steps: seq<Step>, lo: int)
    requires c.k >= 1 && Basic(s) && ValidRun(c, s, steps) && (Whole(c, s, lo) || Late(c, s, lo))
    ensures |In(Final(c, s, steps).granted, lo, c.period)| <= Bound(c)
    decreases |steps|
  {
    if steps != [] {
      StepKeepsBasic(c, s, steps[0]);
      StepKeepsWindow(c, s, steps[0], lo);
      WindowUnderRace(c, Apply(c, s, steps[0]), steps[1..], lo);
    }
  }

  // --- Runs that reach the bounds -------------------------------------------------------------

  ghost predicate Reaches(c: Setting, s: Race, t: Race) {
    exists steps :: ValidRun(c, s, steps) && Final(c, s, steps) == t
  }

  lemma {:induction false} RunsJoin(c: Setting, s: Race, one: seq<Step>, two: seq<Step>)
    requires ValidRun(c, s, one) && ValidRun(c, Final(c, s, one), two)
    ensures ValidRun(c, s, one + two) && Final(c, s, one + two) == Final(c, Final(c, s, one), two)
    decreases |one|
  {
    if one == [] {
      assert one + two == two;
    } else {
      RunsJoin(c, Apply(c, s, one[0]), one[1..], two);
      assert (one + two)[1..] == one[1..] + two;
    }
  }

  lemma Onwards(c: Setting, s: Race, t: Race, u: Race)
    requires Reaches(c, s, t) && Reaches(c, t, u)
    ensures Reaches(c, s, u)
  {
    var one :| ValidRun(c, s, one) && Final(c, s, one) == t;
    var two :| ValidRun(c, t, two) && Final(c, t, two) == u;
    RunsJoin(c, s, one, two);
  }

  lemma Stay(c: Setting, s: Race)
    requires |s.reading| + |s.waiting| <= c.k
    ensures Reaches(c, s, s)
  {
    assert ValidRun(c, s, []) && Final(c, s, []) == s;
  }

  lemma Take(c: Setting, s: Race, step: Step)
    requires Enabled(c, s, step) && |s.reading| + |s.waiting| <= c.k
    requires |Apply(c, s, step).reading| + |Apply(c, s, step).waiting| <= c.k
    ensures Reaches(c, s, Apply(c, s, step))
  {
    var steps := [step];
    assert steps[0] == step && steps[1..] == [];
    var t := Apply(c, s, step);
    assert ValidRun(c, t, []) && Final(c, t, []) == t;
    assert ValidRun(c, s, steps) && Final(c, s, steps) == Final(c, t, []);
  }

  // The numbers from `lo` up to below `hi`.
  ghost function Range(lo: int, hi: int): (r: set<int>)
    ensures forall n :: n in r <==> lo <= n < hi
    ensures lo <= hi ==> |r| == hi - lo
    decreases hi - lo
  {
    if lo >= hi then {} else Range(lo, hi - 1) + {hi - 1}
  }

  lemma SameSets<T>(a: set<T>, b: set<T>)
    requires forall x :: x in a <==> x in b
    ensures a == b
  {
  }

  lemma SplitFirst(s: set<int>, lo: int, hi: int)
    requires lo < hi
    ensures s + Range(lo, hi) == (s + {lo}) + Range(lo + 1, hi)
  {
    SameSets(s + Range(lo, hi), (s + {lo}) + Range(lo + 1, hi));
  }

  // All readings up to below `hi` have been taken.
  ghost function AfterReads(s: Race, hi: int): Race {
    s.(reading := s.reading + Range(s.clock + 1, hi), clock := hi - 1)
  }

  ghost function AfterRead(s: Race): Race {
    s.(reading := s.reading + {s.clock + 1}, clock := s.clock + 1)
  }

  lemma ReadOne(c: Setting, s: Race)
    requires Basic(s) && |s.reading| + |s.waiting| + 1 <= c.k
    ensures Reaches(c, s, AfterRead(s)) && Basic(AfterRead(s)) && |AfterRead(s).reading| == |s.reading| + 1
  {
    StepKeepsBasic(c, s, Read(s.clock + 1));
    Take(c, s, Read(s.clock + 1));
  }

  lemma NoReads(s: Race)
    ensures AfterReads(s, s.clock + 1) == s
  {
    SameSets(s.reading + Range(s.clock + 1, s.clock + 1), s.reading);
  }

  lemma FirstRead(s: Race, t: Race, hi: int)
    requires s.clock + 1 < hi && t == AfterRead(s)
    ensures AfterReads(t, hi) == AfterReads(s, hi)
  {
    SplitFirst(s.reading, s.clock + 1, hi);
    assert t.reading == s.reading + {s.clock + 1} && t.clock + 1 == (s.clock + 1) + 1;
    assert AfterReads(t, hi).reading == t.reading + Range((s.clock + 1) + 1, hi);
  }

  // Calls one after the other read the clock.
  lemma {:induction false} ReadMany(c: Setting, s: Race, hi: int)
    requires Basic(s) && s.clock < hi && |s.reading| + |s.waiting| + (hi - 1 - s.clock) <= c.k
    ensures Reaches(c, s, AfterReads(s, hi)) && Basic(AfterReads(s, hi)) && |AfterReads(s, hi).reading| == |s.reading| + (hi - 1 - s.clock)
    decreases hi - s.clock
  {
    if s.clock + 1 == hi {
      NoReads(s);
      Stay(c, s);
    } else {
      ReadOne(c, s);
      FirstRead(s, AfterRead(s), hi);
      ReadMany(c, AfterRead(s), hi);
      Onwards(c, s, AfterRead(s), AfterReads(s, hi));
    }
  }

  // Nothing in the set is old enough for these readings to evict it.
  ghost predicate NothingToEvict(c: Setting, s: Race) {
    forall g, r :: g in s.scores && r in s.reading ==> r - c.period < g
  }

  lemma {:induction false} Lowest(s: set<int>) returns (low: int)
    requires s != {}
    ensures low in s && forall n :: n in s ==> low <= n
  {
    var one := Member(s);
    low := one;
    var rest := s - {one};
    if rest != {} {
      var other := Lowest(rest);
      low := if other < one then other else one;
    }
    forall n | n in s
      ensures low <= n
    {
      assert n == one || n in rest;
    }
  }

  // One call passes its check.
  lemma CheckOne(c: Setting, s: Race, r: int)
    requires Basic(s) && |s.reading| + |s.waiting| <= c.k && |s.scores| < c.limit && NothingToEvict(c, s) && r in s.reading
    requires c.rule.Ordered? ==> r > s.checked
    ensures var t := s.(reading := s.reading - {r}, waiting := s.waiting + {r}, checked := if r > s.checked then r else s.checked);
            && Reaches(c, s, t) && Basic(t) && |t.reading| == |s.reading| - 1 && |t.waiting| == |s.waiting| + 1
  {
    assert Kept(s.scores, r, c.period) == s.scores;
    StepKeepsBasic(c, s, Check(r));
    Take(c, s, Check(r));
  }

  // All calls that have read check in the order of their readings and pass.
  lemma {:induction false} CheckAll(c: Setting, s: Race) returns (t: Race)
    requires Basic(s) && |s.reading| + |s.waiting| <= c.k && |s.scores| < c.limit && NothingToEvict(c, s)
    requires c.rule.Ordered? ==> forall r :: r in s.reading ==> r > s.checked
    ensures Reaches(c, s, t) && Basic(t) && t == s.(reading := {}, waiting := s.waiting + s.reading, checked := t.checked)
    decreases |s.reading|
  {
    if s.reading == {} {
      Stay(c, s);
      t := s;
      SameSets(s.waiting + s.reading, s.waiting);
    } else {
      var r := Lowest(s.reading);
      CheckOne(c, s, r);
      var u := s.(reading := s.reading - {r}, waiting := s.waiting + {r}, checked := if r > s.checked then r else s.checked);
      t := CheckAll(c, u);
      SameSets(u.waiting + u.reading, s.waiting + s.reading);
      Onwards(c, s, u, t);
    }
  }

  // All calls that wait add their members.
  lemma {:induction false} AddAll(c: Setting, s: Race)
    requires |s.reading| + |s.waiting| <= c.k
    ensures Reaches(c, s, s.(scores := s.scores + s.waiting, waiting := {}, granted := s.granted + s.waiting))
    decreases |s.waiting|
  {
    if s.waiting == {} {
      assert s.scores + {} == s.scores && s.granted + {} == s.granted;
      Stay(c, s);
    } else {
      var r := Member(s.waiting);
      var t := Apply(c, s, Add(r));
      assert |t.waiting| == |s.waiting| - 1;
      Take(c, s, Add(r));
      AddAll(c, t);
      assert t.scores + t.waiting == s.scores + s.waiting && t.granted + t.waiting == s.granted + s.waiting;
      Onwards(c, s, t, s.(scores := s.scores + s.waiting, waiting := {}, granted := s.granted + s.waiting));
    }
  }

  // The calls under way all check, pass and add.
  lemma FinishAll(c: Setting, s: Race) returns (t: Race)
    requires Basic(s) && |s.reading| + |s.waiting| <= c.k && |s.scores| < c.limit && NothingToEvict(c, s)
    requires c.rule.Ordered? ==> forall r :: r in s.reading ==> r > s.checked
    ensures Reaches(c, s, t) && Basic(t)
    ensures var came := s.waiting + s.reading;
            t == Race(s.scores + came, {}, {}, s.granted + came, s.clock, t.checked)
  {
    var u := CheckAll(c, s);
    AddAll(c, u);
    t := u.(scores := u.scores + u.waiting, waiting := {}, granted := u.granted + u.waiting);
    Onwards(c, s, u, t);
  }

  // The first `n` readings have been granted and nobody is under way.
  ghost predicate Settled(s: Race, n: nat) {
    && Basic(s) && s.clock == n - 1 && s.reading == {} && s.waiting == {}
    && s.scores == Range(0, n) && s.granted == Range(0, n)
  }

  // `n` more calls run side by side and are all granted.
  lemma SideBySide(c: Setting, s: Race, m: nat, n: nat) returns (t: Race)
    requires Settled(s, m) && m < c.limit && n <= c.k && m + n <= c.period
    ensures Reaches(c, s, t) && Settled(t, m + n)
  {
    var u := AfterReads(s, m + n);
    ReadMany(c, s, m + n);
    t := FinishAll(c, u);
    SameSets(Range(0, m + n), Range(0, m) + Range(m, m + n));
    Onwards(c, s, u, t);
  }

  // One call after the other up to one below the limit, then `k` side by side.
  lemma {:induction false} FillUp(c: Setting, n: nat) returns (t: Race)
    requires n < c.limit && c.k >= 1 && c.limit <= c.period
    ensures Reaches(c, START, t) && Settled(t, n)
  {
    if n == 0 {
      t := START;
      assert Range(0, 0) == {};
      Stay(c, START);
    } else {
      var s := FillUp(c, n - 1);
      t := SideBySide(c, s, n - 1, 1);
      Onwards(c, START, s, t);
    }
  }

  lemma FullSet(c: Setting) returns (t: Race)
    requires c.limit >= 1 && c.k >= 1 && c.limit + c.k <= c.period
    ensures Reaches(c, START, t) && Settled(t, c.limit + c.k - 1)
  {
    var s := FillUp(c, c.limit - 1);
    t := SideBySide(c, s, c.limit - 1, c.k);
    Onwards(c, START, s, t);
  }

  // A call with a reading far ahead evicts everything.
  lemma LateCaller(c: Setting, s: Race) returns (t: Race)
    requires c.rule.Prompt? && Basic(s) && c.limit >= 1 && |s.reading| + |s.waiting| + 1 <= c.k
    ensures Reaches(c, s, t) && Basic(t) && t.scores == {} && t.reading == s.reading && t.granted == s.granted
    ensures |t.reading| + |t.waiting| <= c.k
  {
    var far := s.clock + 1 + c.period;
    var u := Apply(c, s, Read(far));
    Take(c, s, Read(far));
    StepKeepsBasic(c, s, Read(far));
    t := Apply(c, u, Check(far));
    assert Kept(u.scores, far, c.period) == {};
    assert t.reading == s.reading;
    Take(c, u, Check(far));
    StepKeepsBasic(c, u, Check(far));
    Onwards(c, s, u, t);
  }

  /** Calls that have read the clock by the time a later one evicts the window are let
      through once more. */
  lemma Overtaken(c: Setting) returns (t: Race)
    requires c.rule.Prompt? && c.limit >= 1 && c.k >= 1 && c.limit + 2 * c.k <= c.period
    ensures Reaches(c, START, t) && Range(0, Bound(c)) <= t.granted
  {
    var s := FullSet(c);
    var u := AfterReads(s, Bound(c));
    ReadMany(c, s, Bound(c));
    var w := LateCaller(c, u);
    t := FinishAll(c, w);
    Onwards(c, START, s, u);
    Onwards(c, START, u, w);
    Onwards(c, START, w, t);
  }

  // The key goes two periods after its last add, whoever is still under way.
  lemma KeyGone(c: Setting, s: Race) returns (t: Race)
    requires c.rule.Any? && Basic(s) && |s.reading| + |s.waiting| <= c.k
    ensures Reaches(c, s, t) && Basic(t) && t.scores == {} && t.reading == s.reading && t.waiting == s.waiting && t.granted == s.granted
  {
    var expiry := KeyExpires(s.clock + 2 * c.period);
    t := Apply(c, s, expiry);
    Take(c, s, expiry);
    StepKeepsBasic(c, s, expiry);
  }

  // Calls that outlast the key are let through by an empty set.
  lemma Outlasted(c: Setting) returns (t: Race)
    requires c.rule.Any? && c.limit >= 1 && c.k >= 1 && c.limit + 2 * c.k <= c.period
    ensures Reaches(c, START, t) && Range(0, Bound(c)) <= t.granted
  {
    var s := FullSet(c);
    var u := AfterReads(s, Bound(c));
    ReadMany(c, s, Bound(c));
    var w := KeyGone(c, u);
    t := FinishAll(c, w);
    Onwards(c, START, s, u);
    Onwards(c, START, u, w);
    Onwards(c, START, w, t);
  }

  /** Some run and some window of one period have `n` grants. */
  ghost predicate Granted(c: Setting, n: int) {
    exists t, lo :: Reaches(c, START, t) && |In(t.granted, lo, c.period)| == n
  }

  lemma FirstWindow(c: Setting, t: Race)
    requires Reaches(c, START, t) && 0 <= Bound(c) <= c.period && Range(0, Bound(c)) <= t.granted
    ensures |In(t.granted, -1, c.period)| >= Bound(c)
  {
    assert Range(0, Bound(c)) <= In(t.granted, -1, c.period);
    SubsetSize(Range(0, Bound(c)), In(t.granted, -1, c.period));
  }

  /** With at most k calls under way, no window of one period ever holds more grants than
      limit + 2k - 1; no more than limit + 2(k - 1) if the key never expires under a call
      a period old; and no more than limit + k - 1 if besides the checks run in the order
      of their readings. For a period that fits the calls each bound is reached. */
  lemma GrantsUnderRace(c: Setting)
    requires c.limit >= 1 && c.k >= 1
    ensures forall n :: Granted(c, n) ==> n <= Bound(c)
    ensures c.limit + 2 * c.k <= c.period ==> Granted(c, Bound(c))
  {
    forall t, lo | Reaches(c, START, t)
      ensures |In(t.granted, lo, c.period)| <= Bound(c)
    {
      var steps :| ValidRun(c, START, steps) && Final(c, START, steps) == t;
      assert In({}, lo, c.period) == {};
      WindowUnderRace(c, START, steps, lo);
    }
    if c.limit + 2 * c.k <= c.period {
      var t;
      if c.rule.Any? {
        t := Outlasted(c);
      } else if c.rule.Prompt? {
        t := Overtaken(c);
      } else {
        t := FullSet(c);
      }
      FirstWindow(c, t);
      assert |In(t.granted, -1, c.period)| == Bound(c);
    }
  }
}
