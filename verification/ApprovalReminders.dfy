/** The pre-expiry reminder of an approval: the notification leaves before the transaction
    that records it commits. Times are in seconds. */
module ApprovalReminders {
  import opened Seqs
  import opened Approvals

  const REMINDER_LEAD := 24 * 3600
  const COOLDOWN := 3600

  predicate InWindow(a: Approval, now: int) {
    a.expiresAt.Some? && now < a.expiresAt.value <= now + REMINDER_LEAD
  }

  predicate DueSoon(a: Approval, now: int) {
    a.status.Pending? && !a.reminderSent && InWindow(a, now)
  }

  function DueSoonRows(t: Table, now: int): set<Id> {
    set id | id in t && DueSoon(t[id], now)
  }

  // --- The machine ---------------------------------------------------------------------

  // An attempt has loaded its row and found it PENDING and not flagged.
  datatype Attempt = Attempt(id: Id, emitted: bool)

  /** `mails` holds the times at which notifications about a row went out to one recipient;
      the last one is what the cooldown key remembers. */
  datatype World = World(rows: Table, mails: map<Id, seq<int>>, open: map<nat, Attempt>)

  // Others create rows and decide them; they touch neither flag nor expiry.
  ghost predicate KeepsFlags(before: Table, after: Table) {
    forall id :: id in before ==> id in after && after[id].reminderSent == before[id].reminderSent && after[id].expiresAt == before[id].expiresAt
  }

  /** `works` is false when the emission fails inside and the failure is swallowed. A
      `Fail` is an error between the emission and the end of the commit, or a crash. */
  datatype Step =
    | Begin(k: nat, id: Id, now: int)
    | Emit(k: nat, at: int, works: bool)
    | Flag(k: nat)
    | Fail(k: nat)
    | Change(rows: Table)

  function MailsOf(w: World, id: Id): seq<int> {
    if id in w.mails then w.mails[id] else []
  }

  // The cooldown key of the last notification has expired.
  predicate Cooled(mails: seq<int>, at: int) {
    mails == [] || at >= mails[|mails| - 1] + COOLDOWN
  }

  function Notify(mails: seq<int>, at: int): seq<int> {
    if Cooled(mails, at) then mails + [at] else mails
  }

  ghost predicate Enabled(w: World, step: Step) {
    match step
    case Begin(k, id, now) => k !in w.open && id in w.rows && DueSoon(w.rows[id], now)
    case Emit(k, _, _) => k in w.open && !w.open[k].emitted
    case Flag(k) => k in w.open && w.open[k].emitted
    case Fail(k) => k in w.open
    case Change(rows) => KeepsFlags(w.rows, rows)
  }

  ghost function Apply(w: World, step: Step): World
    requires Enabled(w, step)
  {
    match step
    case Begin(k, id, _) => w.(open := w.open[k := Attempt(id, false)])
    case Emit(k, at, works) =>
      var id := w.open[k].id;
      w.(open := w.open[k := Attempt(id, true)],
         mails := if works then w.mails[id := Notify(MailsOf(w, id), at)] else w.mails)
    case Flag(k) =>
      var id := w.open[k].id;
      w.(open := w.open - {k}, rows := if id in w.rows then w.rows[id := w.rows[id].(reminderSent := true)] else w.rows)
    case Fail(k) => w.(open := w.open - {k})
    case Change(rows) => w.(rows := rows)
  }

  ghost predicate ValidRun(w: World, steps: seq<Step>)
    decreases |steps|
  {
    steps == [] || (Enabled(w, steps[0]) && ValidRun(Apply(w, steps[0]), steps[1..]))
  }

  ghost function Final(w: World, steps: seq<Step>): World
    requires ValidRun(w, steps)
    decreases |steps|
  {
    if steps == [] then w else Final(Apply(w, steps[0]), steps[1..])
  }

  ghost predicate Reached(w: World, steps: seq<Step>, to: World) {
    ValidRun(w, steps) && Final(w, steps) == to
  }

  // --- How often a notification goes out ----------------------------------------------------

  // The emission times of attempts on the row.
  ghost function EmitTimes(w: World, steps: seq<Step>, id: Id): seq<int>
    requires ValidRun(w, steps)
    decreases |steps|
  {
    if steps == [] then []
    else
      (if steps[0].Emit? && steps[0].works && w.open[steps[0].k].id == id then [steps[0].at] else [])
      + EmitTimes(Apply(w, steps[0]), steps[1..], id)
  }

  // What the cooldown lets through.
  function Thin(mails: seq<int>, times: seq<int>): seq<int>
    decreases |times|
  {
    if times == [] then mails else Thin(Notify(mails, times[0]), times[1..])
  }

  lemma {:induction false} MailsAreThinned(w: World, steps: seq<Step>, id: Id)
    requires ValidRun(w, steps)
    ensures MailsOf(Final(w, steps), id) == Thin(MailsOf(w, id), EmitTimes(w, steps, id))
    decreases |steps|
  {
    if steps != [] {
      var t := Apply(w, steps[0]);
      MailsAreThinned(t, steps[1..], id);
      var later := EmitTimes(t, steps[1..], id);
      if steps[0].Emit? && steps[0].works && w.open[steps[0].k].id == id {
        assert EmitTimes(w, steps, id) == [steps[0].at] + later;
        assert ([steps[0].at] + later)[1..] == later;
      } else {
        assert EmitTimes(w, steps, id) == [] + later == later;
      }
    }
  }

  lemma {:induction false} ThinGrows(mails: seq<int>, times: seq<int>)
    ensures mails <= Thin(mails, times)
    decreases |times|
  {
    if times != [] {
      ThinGrows(Notify(mails, times[0]), times[1..]);
    }
  }

  lemma {:induction false} ThinKeepsOneIff(first: int, times: seq<int>)
    ensures |Thin([first], times)| <= 1 <==> forall i :: 0 <= i < |times| ==> times[i] < first + COOLDOWN
    decreases |times|
  {
    if times != [] {
      assert (forall i :: 0 <= i < |times| ==> times[i] < first + COOLDOWN)
             <==> times[0] < first + COOLDOWN && forall i :: 0 <= i < |times[1..]| ==> times[1..][i] < first + COOLDOWN by {
        assert forall i :: 1 <= i < |times| ==> times[i] == times[1..][i - 1];
      }
      if times[0] < first + COOLDOWN {
        ThinKeepsOneIff(first, times[1..]);
      } else {
        ThinGrows([first, times[0]], times[1..]);
        assert Notify([first], times[0]) == [first, times[0]];
      }
    }
  }

  /** A row's notification goes out at most once exactly if every emission comes within
      one cooldown of the first; it goes out at all exactly if there is an emission. */
  lemma MailedAtMostOnceIff(w: World, steps: seq<Step>, id: Id)
    requires ValidRun(w, steps) && MailsOf(w, id) == []
    ensures var times := EmitTimes(w, steps, id);
            && (|MailsOf(Final(w, steps), id)| <= 1 <==> forall i :: 0 <= i < |times| ==> times[i] < times[0] + 3600)
            && (MailsOf(Final(w, steps), id) == [] <==> times == [])
  {
    var times := EmitTimes(w, steps, id);
    MailsAreThinned(w, steps, id);
    if times != [] {
      assert Notify([], times[0]) == [times[0]];
      ThinKeepsOneIff(times[0], times[1..]);
      ThinGrows([times[0]], times[1..]);
      assert forall i :: 1 <= i < |times| ==> times[i] == times[1..][i - 1];
    }
  }

  // --- Failed commits are what repeats it -------------------------------------------------------

  // Attempts on one row do not overlap, and none is open on a flagged row.
  ghost predicate Solo(w: World, id: Id) {
    && (forall j, k :: j in w.open && k in w.open && w.open[j].id == id && w.open[k].id == id ==> j == k)
    && (forall k :: k in w.open && w.open[k].id == id ==> id in w.rows && !w.rows[id].reminderSent)
  }

  ghost predicate SoloRun(w: World, steps: seq<Step>, id: Id)
    requires ValidRun(w, steps)
    decreases |steps|
  {
    steps == [] ||
    (&& (steps[0].Begin? && steps[0].id == id ==> forall k :: k in w.open ==> w.open[k].id != id)
     && SoloRun(Apply(w, steps[0]), steps[1..], id))
  }

  // No attempt on the row fails once it has emitted.
  ghost predicate NoneFails(w: World, steps: seq<Step>, id: Id)
    requires ValidRun(w, steps)
    decreases |steps|
  {
    steps == [] ||
    (&& (steps[0].Fail? && w.open[steps[0].k].id == id ==> !w.open[steps[0].k].emitted)
     && NoneFails(Apply(w, steps[0]), steps[1..], id))
  }

  // The row has been flagged, or an attempt has emitted and will flag it.
  ghost predicate Spent(w: World, id: Id) {
    (id in w.rows && w.rows[id].reminderSent) || exists k :: k in w.open && w.open[k].id == id && w.open[k].emitted
  }

  lemma StepKeepsSolo(w: World, step: Step, id: Id)
    requires Solo(w, id) && Enabled(w, step)
    requires step.Begin? && step.id == id ==> forall k :: k in w.open ==> w.open[k].id != id
    requires step.Fail? && w.open[step.k].id == id ==> !w.open[step.k].emitted
    ensures Solo(Apply(w, step), id) && (Spent(w, id) ==> Spent(Apply(w, step), id))
    ensures step.Emit? && w.open[step.k].id == id ==> Spent(Apply(w, step), id) && !Spent(w, id)
  {
    var t := Apply(w, step);
    if Spent(w, id) && !(id in w.rows && w.rows[id].reminderSent) {
      var k :| k in w.open && w.open[k].id == id && w.open[k].emitted;
      assert step.Flag? && step.k == k ==> t.rows[id].reminderSent;
      assert !(step.Flag? && step.k == k) ==> k in t.open && t.open[k] == w.open[k];
    }
    if step.Emit? && w.open[step.k].id == id {
      assert t.open[step.k].emitted;
    }
  }

  /** With attempts that do not overlap and whose commits succeed, a row's notification
      goes out at most once, whatever the clock does. */
  lemma {:induction false} CommittedAttemptsMailOnce(w: World, steps: seq<Step>, id: Id)
    requires ValidRun(w, steps) && Solo(w, id) && SoloRun(w, steps, id) && NoneFails(w, steps, id)
    ensures |EmitTimes(w, steps, id)| <= if Spent(w, id) then 0 else 1
    ensures |MailsOf(Final(w, steps), id)| <= |MailsOf(w, id)| + if Spent(w, id) then 0 else 1
    decreases |steps|
  {
    if steps != [] {
      StepKeepsSolo(w, steps[0], id);
      CommittedAttemptsMailOnce(Apply(w, steps[0]), steps[1..], id);
    }
  }

  /** Read along the run: the first emission on the row so far, if any, and whether an
      attempt on it has failed after emitting. Some attempt that has emitted and failed is
      followed by an emission at least one cooldown after the first. */
  ghost predicate LateRetry(w: World, steps: seq<Step>, id: Id, first: Option<int>, failed: bool)
    requires ValidRun(w, steps)
    decreases |steps|
  {
    steps != [] &&
    var step, t, rest := steps[0], Apply(w, steps[0]), steps[1..];
    if step.Emit? && step.works && w.open[step.k].id == id then
      if first.None? then LateRetry(t, rest, id, Some(step.at), failed)
      else (failed && step.at >= first.value + COOLDOWN) || LateRetry(t, rest, id, first, failed)
    else
      LateRetry(t, rest, id, first, failed || (step.Fail? && w.open[step.k].id == id && w.open[step.k].emitted))
  }

  lemma StepKeepsSoloOrFails(w: World, step: Step, id: Id)
    requires Solo(w, id) && Enabled(w, step)
    requires step.Begin? && step.id == id ==> forall k :: k in w.open ==> w.open[k].id != id
    ensures Solo(Apply(w, step), id)
    ensures Spent(w, id) && !(step.Fail? && w.open[step.k].id == id && w.open[step.k].emitted) ==> Spent(Apply(w, step), id)
    ensures step.Emit? && w.open[step.k].id == id ==> Spent(Apply(w, step), id) && !Spent(w, id)
  {
    if !(step.Fail? && w.open[step.k].id == id && w.open[step.k].emitted) {
      StepKeepsSolo(w, step, id);
    }
  }

  ghost predicate OneLate(times: seq<int>, first: int) {
    exists i :: 0 <= i < |times| && times[i] >= first + COOLDOWN
  }

  lemma OneLateNext(time: int, times: seq<int>, first: int)
    ensures OneLate([time] + times, first) <==> time >= first + COOLDOWN || OneLate(times, first)
  {
    var all := [time] + times;
    assert all[0] == time && forall i :: 0 <= i < |times| ==> all[i + 1] == times[i];
  }

  // Between attempts that do not overlap, an emission after the first follows a failure.
  lemma {:induction false} LateRetryIs(w: World, steps: seq<Step>, id: Id, first: Option<int>, failed: bool)
    requires ValidRun(w, steps) && Solo(w, id) && SoloRun(w, steps, id) && (first.Some? && !failed ==> Spent(w, id))
    ensures var times := EmitTimes(w, steps, id);
            LateRetry(w, steps, id, first, failed) <==>
            times != [] && OneLate(times, if first.Some? then first.value else times[0])
    decreases |steps|
  {
    if steps != [] {
      var step, t, rest := steps[0], Apply(w, steps[0]), steps[1..];
      var later := EmitTimes(t, rest, id);
      StepKeepsSoloOrFails(w, step, id);
      if step.Emit? && step.works && w.open[step.k].id == id {
        assert EmitTimes(w, steps, id) == [step.at] + later;
        OneLateNext(step.at, later, if first.Some? then first.value else step.at);
        LateRetryIs(t, rest, id, if first.Some? then first else Some(step.at), failed);
      } else {
        assert EmitTimes(w, steps, id) == [] + later == later;
        LateRetryIs(t, rest, id, first, failed || (step.Fail? && w.open[step.k].id == id && w.open[step.k].emitted));
      }
    }
  }

  /** With attempts that do not overlap, a row is notified about at most once exactly if no
      attempt that has emitted and failed is followed by an emission at least one cooldown
      after the first. */
  lemma MailedOnceIffNoLateRetry(w: World, steps: seq<Step>, id: Id)
    requires ValidRun(w, steps) && Solo(w, id) && SoloRun(w, steps, id) && MailsOf(w, id) == []
    ensures |MailsOf(Final(w, steps), id)| <= 1 <==> !LateRetry(w, steps, id, None, false)
  {
    MailedAtMostOnceIff(w, steps, id);
    LateRetryIs(w, steps, id, None, false);
  }

  lemma Prepend(w: World, step: Step, rest: seq<Step>)
    requires Enabled(w, step) && ValidRun(Apply(w, step), rest)
    ensures ValidRun(w, [step] + rest) && Final(w, [step] + rest) == Final(Apply(w, step), rest)
  {
    assert ([step] + rest)[1..] == rest;
  }

  // One attempt from load to end.
  ghost function AttemptSteps(id: Id, now: int, at: int, works: bool, commits: bool): seq<Step> {
    [Begin(0, id, now)] + ([Emit(0, at, works)] + ([if commits then Flag(0) else Fail(0)] + []))
  }

  lemma AttemptIs(w: World, id: Id, now: int, at: int, works: bool, commits: bool)
    requires w.open == map[] && id in w.rows && DueSoon(w.rows[id], now)
    ensures ValidRun(w, AttemptSteps(id, now, at, works, commits))
    ensures Final(w, AttemptSteps(id, now, at, works, commits)) ==
            World(if commits then w.rows[id := w.rows[id].(reminderSent := true)] else w.rows,
                  if works then w.mails[id := Notify(MailsOf(w, id), at)] else w.mails, map[])
  {
    var begin, emit, end := Begin(0, id, now), Emit(0, at, works), if commits then Flag(0) else Fail(0);
    var w1 := Apply(w, begin);
    var w2 := Apply(w1, emit);
    var w3 := Apply(w2, end);
    Prepend(w2, end, []);
    Prepend(w1, emit, [end] + []);
    Prepend(w, begin, [emit] + ([end] + []));
    assert w3.open == map[];
  }

  lemma {:induction false} RunsJoin(w: World, one: seq<Step>, two: seq<Step>)
    requires ValidRun(w, one) && ValidRun(Final(w, one), two)
    ensures ValidRun(w, one + two) && Final(w, one + two) == Final(Final(w, one), two)
    decreases |one|
  {
    if one == [] {
      assert one + two == two;
    } else {
      RunsJoin(Apply(w, one[0]), one[1..], two);
      assert (one + two)[1..] == one[1..] + two;
    }
  }

  /** A commit that fails after the emission leaves the row unflagged, and the next hourly
      tick notifies again: for every row with more than an hour to go. */
  lemma FailedCommitMailsTwice(w: World, id: Id, now: int) returns (steps: seq<Step>)
    requires w.open == map[] && id in w.rows && MailsOf(w, id) == []
    requires DueSoon(w.rows[id], now) && DueSoon(w.rows[id], now + COOLDOWN)
    ensures ValidRun(w, steps) && MailsOf(Final(w, steps), id) == [now, now + COOLDOWN]
  {
    var one, two := AttemptSteps(id, now, now, true, false), AttemptSteps(id, now + COOLDOWN, now + COOLDOWN, true, true);
    AttemptIs(w, id, now, now, true, false);
    var t := Final(w, one);
    AttemptIs(t, id, now + COOLDOWN, now + COOLDOWN, true, true);
    RunsJoin(w, one, two);
    steps := one + two;
  }

  // Once flagged and with no attempt open, a row is never notified about again.
  lemma {:induction false} FlaggedIsSilent(w: World, steps: seq<Step>, id: Id)
    requires ValidRun(w, steps) && id in w.rows && w.rows[id].reminderSent
    requires forall k :: k in w.open ==> w.open[k].id != id
    ensures MailsOf(Final(w, steps), id) == MailsOf(w, id)
    decreases |steps|
  {
    if steps != [] {
      FlaggedIsSilent(Apply(w, steps[0]), steps[1..], id);
    }
  }

  /** A swallowed failure of the emission still flags the row, which is then never
      notified about. */
  lemma SwallowedEmissionSilences(w: World, id: Id, now: int, rest: seq<Step>)
    requires w.open == map[] && id in w.rows && MailsOf(w, id) == [] && DueSoon(w.rows[id], now)
    requires ValidRun(World(w.rows[id := w.rows[id].(reminderSent := true)], w.mails, map[]), rest)
    ensures ValidRun(w, AttemptSteps(id, now, now, false, true) + rest)
    ensures MailsOf(Final(w, AttemptSteps(id, now, now, false, true) + rest), id) == []
  {
    var one := AttemptSteps(id, now, now, false, true);
    AttemptIs(w, id, now, now, false, true);
    FlaggedIsSilent(Final(w, one), rest, id);
    RunsJoin(w, one, rest);
  }

  /** A reminder needs a tick in the day before the expiry: a row with none is never
      notified about. */
  lemma {:induction false} NoTickNoReminder(w: World, steps: seq<Step>, id: Id)
    requires ValidRun(w, steps) && id in w.rows && (forall k :: k in w.open ==> w.open[k].id != id)
    requires w.rows[id].expiresAt.Some? ==>
               forall i :: 0 <= i < |steps| && steps[i].Begin? ==>
                 !(steps[i].now < w.rows[id].expiresAt.value <= steps[i].now + 24 * 3600)
    ensures MailsOf(Final(w, steps), id) == MailsOf(w, id)
    decreases |steps|
  {
    if steps != [] {
      var t := Apply(w, steps[0]);
      assert steps[0].Begin? ==> !InWindow(w.rows[id], steps[0].now);
      assert t.rows[id].expiresAt == w.rows[id].expiresAt;
      assert forall i :: 0 <= i < |steps[1..]| ==> steps[1..][i] == steps[i + 1];
      NoTickNoReminder(t, steps[1..], id);
    }
  }

  // Others change rows, then one attempt runs from load to end.
  lemma ChangeAndAttempt(w: World, rows: Table, id: Id, now: int, at: int, works: bool, commits: bool)
    requires w.open == map[] && KeepsFlags(w.rows, rows) && id in rows && DueSoon(rows[id], now)
    ensures Reached(w, [Change(rows)] + AttemptSteps(id, now, at, works, commits),
              World(if commits then rows[id := rows[id].(reminderSent := true)] else rows,
                    if works then w.mails[id := Notify(MailsOf(w, id), at)] else w.mails, map[]))
  {
    var t := Apply(w, Change(rows));
    AttemptIs(t, id, now, at, works, commits);
    Prepend(w, Change(rows), AttemptSteps(id, now, at, works, commits));
  }

  lemma OnlyChange(w: World, rows: Table)
    requires KeepsFlags(w.rows, rows)
    ensures Reached(w, [Change(rows)] + [], w.(rows := rows))
  {
    Prepend(w, Change(rows), []);
  }

  lemma ReachedJoin(w: World, one: seq<Step>, v: World, two: seq<Step>, u: World)
    requires Reached(w, one, v) && Reached(v, two, u)
    ensures Reached(w, one + two, u)
  {
    RunsJoin(w, one, two);
  }
}
