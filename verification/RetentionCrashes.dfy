/** The retention sweep with crashes, while deletions keep committing at any moment and
    with any stamp. */
module RetentionCrashes {
  import opened Seqs
  import opened Retention

  // --- Selections -------------------------------------------------------------------

  // The selector's order: by deletion time, then by id.
  predicate Less(a: Row, b: Row) {
    a.deletedAt < b.deletedAt || (a.deletedAt == b.deletedAt && a.id < b.id)
  }

  ghost predicate Ascending(rows: seq<Row>) {
    forall i, j :: 0 <= i < j < |rows| ==> Less(rows[i], rows[j])
  }

  lemma {:induction false} FilterAscending(p: Row -> bool, rows: seq<Row>)
    requires Ascending(rows)
    ensures Ascending(Filter(p, rows))
  {
    if rows != [] {
      var rest := Filter(p, rows[1..]);
      FilterAscending(p, rows[1..]);
      forall r | r in rest
        ensures Less(rows[0], r)
      {
        FilterElement(p, rows[1..], r);
      }
      assert forall i :: 0 <= i < |rest| ==> rest[i] in rest;
    }
  }

  /** A selection is the ascending start of what lies after the cursor. */
  lemma SelectionIs(rows: seq<Row>, after: int, limit: nat)
    requires Ascending(rows)
    ensures var pending := SelectPending(rows, after, limit);
            && Ascending(pending) && |pending| <= limit
            && (forall r :: r in pending ==> r in rows && r.deletedAt > after)
            && (forall r :: r in rows && r.deletedAt > after && r !in pending ==>
                  |pending| == limit && forall q :: q in pending ==> Less(q, r))
  {
    var p := (r: Row) => r.deletedAt > after;
    var all, pending := Filter(p, rows), SelectPending(rows, after, limit);
    FilterAscending(p, rows);
    forall r
      ensures r in all <==> r in rows && r.deletedAt > after
    {
      FilterElement(p, rows, r);
    }
    forall r | r in all && r !in pending
      ensures |pending| == limit && forall q :: q in pending ==> Less(q, r)
    {
      var k :| 0 <= k < |all| && all[k] == r;
      assert forall i :: 0 <= i < |pending| ==> all[i] == pending[i] && pending[i] in pending;
    }
  }

  // A row takes its place in the table.
  function Insert(rows: seq<Row>, row: Row): (r: seq<Row>)
    ensures forall x :: x in r <==> x == row || x in rows
  {
    if rows == [] || Less(row, rows[0]) then [row] + rows
    else
      assert rows == [rows[0]] + rows[1..];
      [rows[0]] + Insert(rows[1..], row)
  }

  lemma {:induction false} InsertAscending(rows: seq<Row>, row: Row)
    requires Ascending(rows) && forall r :: r in rows ==> r.id != row.id
    ensures Ascending(Insert(rows, row))
  {
    if rows != [] && !Less(row, rows[0]) {
      var rest := Insert(rows[1..], row);
      InsertAscending(rows[1..], row);
      assert forall i :: 0 <= i < |rest| ==> rest[i] in rest;
    }
  }

  // --- The machine ---------------------------------------------------------------------

  datatype Entry = Entry(id: nat, ok: bool)

  /** `Handled` is the point between the commit that cascades (or gives up on) the
      first row of the batch and the commit that moves the watermark. */
  datatype Phase = Idle | Looping(cursor: int) | Batch(cursor: int, todo: seq<Row>, short: bool)
    | Handled(cursor: int, todo: seq<Row>, short: bool)

  datatype State = State(rows: seq<Row>, watermark: int, phase: Phase, log: seq<Entry>, crashes: nat)

  /** A deletion becomes visible when its transaction commits; its stamp is the time
      the transaction began, which may lie before rows long since handled. */
  datatype Step = Start | Fetch | Handle(ok: bool) | Advance | Crash | SoftDelete(row: Row)

  ghost predicate Enabled(s: State, step: Step) {
    match step
    case Start => s.phase.Idle?
    case Fetch => s.phase.Looping?
    case Handle(_) => s.phase.Batch? && s.phase.todo != []
    case Advance => s.phase.Handled? && s.phase.todo != []
    case Crash => true
    case SoftDelete(row) => forall r :: r in s.rows ==> r.id != row.id
  }

  ghost function Apply(s: State, b: nat, step: Step): State
    requires Enabled(s, step)
  {
    match step
    case Start => s.(phase := Looping(s.watermark))
    case Fetch =>
      var pending := SelectPending(s.rows, s.phase.cursor, b);
      s.(phase := if pending == [] then Idle else Batch(s.phase.cursor, pending, |pending| < b))
    case Handle(ok) =>
      s.(phase := Handled(s.phase.cursor, s.phase.todo, s.phase.short), log := s.log + [Entry(s.phase.todo[0].id, ok)])
    case Advance =>
      var at, rest := s.phase.todo[0].deletedAt, s.phase.todo[1..];
      s.(watermark := at,
         phase := if rest != [] then Batch(at, rest, s.phase.short) else if s.phase.short then Idle else Looping(at))
    case Crash => s.(phase := Idle, crashes := s.crashes + 1)
    case SoftDelete(row) => s.(rows := Insert(s.rows, row))
  }

  ghost predicate ValidRun(s: State, b: nat, steps: seq<Step>)
    decreases |steps|
  {
    steps == [] || (Enabled(s, steps[0]) && ValidRun(Apply(s, b, steps[0]), b, steps[1..]))
  }

  ghost function Final(s: State, b: nat, steps: seq<Step>): State
    requires ValidRun(s, b, steps)
    decreases |steps|
  {
    if steps == [] then s else Final(Apply(s, b, steps[0]), b, steps[1..])
  }

  ghost function Init(rows: seq<Row>, wm: int): State {
    State(rows, wm, Idle, [], 0)
  }

  ghost function InHand(s: State): seq<Row> {
    if s.phase.Batch? || s.phase.Handled? then s.phase.todo else []
  }

  ghost function LoggedIds(s: State): set<nat> {
    set e | e in s.log :: e.id
  }

  // --- What always holds ------------------------------------------------------------------

  ghost predicate UniqueIds(rows: seq<Row>) {
    forall a, b :: a in rows && b in rows && a.id == b.id ==> a == b
  }

  /** `prior` are the rows at or below the watermark before the first sweep, which no
      sweep is meant to handle. */
  ghost predicate Wellformed(s: State, prior: set<nat>) {
    && Ascending(s.rows) && UniqueIds(s.rows)
    && (forall e :: e in s.log ==> exists r :: r in s.rows && r.id == e.id)
    && (forall id :: id in prior ==> exists r :: r in s.rows && r.id == id && r.deletedAt <= s.watermark)
    && (s.phase.Looping? || s.phase.Batch? || s.phase.Handled? ==> s.phase.cursor == s.watermark)
    && (s.phase.Batch? || s.phase.Handled? ==> s.phase.todo != [])
    && Ascending(InHand(s)) && (forall r :: r in InHand(s) ==> r in s.rows && r.deletedAt >= s.watermark)
    && (s.phase.Handled? ==> s.phase.todo[0].id in LoggedIds(s))
  }

  ghost function OldRows(rows: seq<Row>, wm: int): set<nat> {
    set r | r in rows && r.deletedAt <= wm :: r.id
  }

  lemma LogGrows(s: State, b: nat, ok: bool)
    requires Enabled(s, Handle(ok))
    ensures LoggedIds(Apply(s, b, Handle(ok))) == LoggedIds(s) + {s.phase.todo[0].id}
  {
    var t := Apply(s, b, Handle(ok));
    var last := Entry(s.phase.todo[0].id, ok);
    assert last in t.log;
    assert forall e :: e in t.log <==> e in s.log || e == last;
  }

  lemma HandleKeepsWellformed(s: State, b: nat, prior: set<nat>, ok: bool)
    requires Wellformed(s, prior) && Enabled(s, Handle(ok))
    ensures Wellformed(Apply(s, b, Handle(ok)), prior) && LoggedIds(s) <= LoggedIds(Apply(s, b, Handle(ok)))
  {
    var t, row := Apply(s, b, Handle(ok)), s.phase.todo[0];
    assert row in InHand(s) && InHand(t) == InHand(s);
    LogGrows(s, b, ok);
    forall e | e in t.log
      ensures exists r :: r in t.rows && r.id == e.id
    {
      assert e in s.log || e.id == row.id;
    }
  }

  lemma AdvanceKeepsWellformed(s: State, b: nat, prior: set<nat>)
    requires Wellformed(s, prior) && Enabled(s, Advance)
    ensures Wellformed(Apply(s, b, Advance), prior) && s.watermark <= Apply(s, b, Advance).watermark
    ensures LoggedIds(Apply(s, b, Advance)) == LoggedIds(s)
  {
    var t, todo := Apply(s, b, Advance), s.phase.todo;
    assert todo[0] in InHand(s) && InHand(t) == todo[1..];
    assert forall r :: r in todo[1..] ==> r in InHand(s) && Less(todo[0], r);
  }

  lemma StepKeepsWellformed(s: State, b: nat, prior: set<nat>, step: Step)
    requires Wellformed(s, prior) && Enabled(s, step)
    ensures Wellformed(Apply(s, b, step), prior) && s.watermark <= Apply(s, b, step).watermark
    ensures LoggedIds(s) <= LoggedIds(Apply(s, b, step))
  {
    match step
    case Fetch => SelectionIs(s.rows, s.phase.cursor, b);
    case Handle(ok) => HandleKeepsWellformed(s, b, prior, ok);
    case Advance => AdvanceKeepsWellformed(s, b, prior);
    case SoftDelete(row) => InsertAscending(s.rows, row);
    case _ =>
  }

  // --- Coverage --------------------------------------------------------------------------------

  /** Every row at or below the watermark has been cascaded or given up on. */
  ghost predicate Covered(s: State, prior: set<nat>) {
    forall r :: r in s.rows && r.deletedAt <= s.watermark && r.id !in prior ==> r.id in LoggedIds(s)
  }

  // Of rows above the watermark with one deletion time, all but the first are handled.
  ghost predicate TieFree(s: State) {
    forall a, b :: a in s.rows && b in s.rows && a.deletedAt == b.deletedAt > s.watermark && a.id < b.id ==> b.id in LoggedIds(s)
  }

  // The last deletion time the sweep will reach without selecting again.
  ghost function Horizon(s: State): int {
    if InHand(s) != [] then InHand(s)[|InHand(s)| - 1].deletedAt else s.watermark
  }

  // No row has slipped below the last row of the batch in hand.
  ghost predicate NothingUnder(s: State) {
    forall r :: r in s.rows && s.watermark < r.deletedAt <= Horizon(s) && r !in InHand(s) ==> r.id in LoggedIds(s)
  }

  ghost predicate Safe(s: State, prior: set<nat>) {
    Covered(s, prior) && TieFree(s) && NothingUnder(s)
  }

  ghost predicate OnlySweeps(steps: seq<Step>) {
    forall i :: 0 <= i < |steps| ==> !steps[i].SoftDelete?
  }

  /** Whatever the sweep does from here, crashes included, no row is passed over. */
  ghost predicate AlwaysCovered(s: State, b: nat, prior: set<nat>) {
    forall steps :: ValidRun(s, b, steps) && OnlySweeps(steps) ==> Covered(Final(s, b, steps), prior)
  }

  lemma FetchKeepsSafe(s: State, b: nat, prior: set<nat>)
    requires Wellformed(s, prior) && Safe(s, prior) && s.phase.Looping?
    ensures Safe(Apply(s, b, Fetch), prior)
  {
    SelectionIs(s.rows, s.watermark, b);
    var t := Apply(s, b, Fetch);
    if InHand(t) != [] {
      var last := InHand(t)[|InHand(t)| - 1];
      assert last in InHand(t);
    }
  }

  lemma MoreLoggedIsSafe(s: State, t: State, prior: set<nat>)
    requires Safe(s, prior) && t.rows == s.rows && t.watermark == s.watermark && InHand(t) == InHand(s) && LoggedIds(s) <= LoggedIds(t)
    ensures Safe(t, prior)
  {
    assert Horizon(t) == Horizon(s);
  }

  lemma HandleKeepsSafe(s: State, b: nat, prior: set<nat>, ok: bool)
    requires Wellformed(s, prior) && Safe(s, prior) && Enabled(s, Handle(ok))
    ensures Safe(Apply(s, b, Handle(ok)), prior)
  {
    LogGrows(s, b, ok);
    MoreLoggedIsSafe(s, Apply(s, b, Handle(ok)), prior);
  }

  // Moving past the first row of the batch passes no other unhandled row.
  lemma AdvancePassesHandled(s: State, b: nat, prior: set<nat>, r: Row)
    requires Wellformed(s, prior) && Safe(s, prior) && Enabled(s, Advance)
    requires r in s.rows && r.deletedAt <= s.phase.todo[0].deletedAt && r.id !in prior
    ensures r.id in LoggedIds(s)
  {
    var todo := s.phase.todo;
    assert todo[0] in InHand(s) && todo[|todo| - 1] in InHand(s);
    if r in todo && r != todo[0] {
      assert Less(todo[0], r);
    } else if r !in todo && |todo| > 1 {
      assert Less(todo[0], todo[|todo| - 1]);
    }
  }

  lemma AdvanceKeepsSafe(s: State, b: nat, prior: set<nat>)
    requires Wellformed(s, prior) && Safe(s, prior) && Enabled(s, Advance)
    ensures Safe(Apply(s, b, Advance), prior)
  {
    var t, todo := Apply(s, b, Advance), s.phase.todo;
    StepKeepsWellformed(s, b, prior, Advance);
    assert LoggedIds(t) == LoggedIds(s) && InHand(t) == todo[1..];
    assert forall r :: r in todo <==> r == todo[0] || r in todo[1..];
    forall r | r in t.rows && r.deletedAt <= t.watermark && r.id !in prior
      ensures r.id in LoggedIds(t)
    {
      AdvancePassesHandled(s, b, prior, r);
    }
    assert Covered(t, prior);
    assert InHand(t) != [] ==> Horizon(t) == Horizon(s);
  }

  lemma StepKeepsSafe(s: State, b: nat, prior: set<nat>, step: Step)
    requires Wellformed(s, prior) && Safe(s, prior) && Enabled(s, step) && !step.SoftDelete?
    ensures Safe(Apply(s, b, step), prior)
  {
    if step.Fetch? {
      FetchKeepsSafe(s, b, prior);
    } else if step.Handle? {
      HandleKeepsSafe(s, b, prior, step.ok);
    } else if step.Advance? {
      AdvanceKeepsSafe(s, b, prior);
    } else {
      assert LoggedIds(Apply(s, b, step)) == LoggedIds(s);
    }
  }

  lemma {:induction false} SafeRunsAreCovered(s: State, b: nat, prior: set<nat>, steps: seq<Step>)
    requires Wellformed(s, prior) && Safe(s, prior) && ValidRun(s, b, steps) && OnlySweeps(steps)
    ensures Covered(Final(s, b, steps), prior)
    decreases |steps|
  {
    if steps != [] {
      StepKeepsWellformed(s, b, prior, steps[0]);
      StepKeepsSafe(s, b, prior, steps[0]);
      SafeRunsAreCovered(Apply(s, b, steps[0]), b, prior, steps[1..]);
    }
  }

  // --- An unsafe state loses a row -----------------------------------------------------------------

  lemma Prepend(s: State, b: nat, step: Step, rest: seq<Step>)
    requires Enabled(s, step) && ValidRun(Apply(s, b, step), b, rest) && OnlySweeps(rest) && !step.SoftDelete?
    ensures ValidRun(s, b, [step] + rest) && OnlySweeps([step] + rest)
    ensures Final(s, b, [step] + rest) == Final(Apply(s, b, step), b, rest)
  {
    assert ([step] + rest)[1..] == rest;
  }

  ghost predicate Passes(f: State, s: State, row: Row, upTo: int) {
    f.rows == s.rows && f.watermark >= upTo && row.id !in LoggedIds(f)
  }

  // Working off the batch in hand passes a row that has slipped below its end.
  lemma {:induction false} WorkOffBatch(s: State, b: nat, prior: set<nat>, row: Row) returns (steps: seq<Step>)
    requires Wellformed(s, prior) && InHand(s) != [] && row in s.rows && row !in InHand(s) && row.id !in LoggedIds(s)
    ensures ValidRun(s, b, steps) && OnlySweeps(steps) && Passes(Final(s, b, steps), s, row, Horizon(s))
    decreases |InHand(s)|, if s.phase.Batch? then 1 else 0
  {
    assert s.phase.todo[0] in InHand(s);
    if s.phase.Batch? {
      var t := Apply(s, b, Handle(true));
      StepKeepsWellformed(s, b, prior, Handle(true));
      LogGrows(s, b, true);
      var rest := WorkOffBatch(t, b, prior, row);
      Prepend(s, b, Handle(true), rest);
      steps := [Handle(true)] + rest;
    } else {
      var t := Apply(s, b, Advance);
      StepKeepsWellformed(s, b, prior, Advance);
      assert LoggedIds(t) == LoggedIds(s);
      var rest := [];
      if InHand(t) != [] {
        rest := WorkOffBatch(t, b, prior, row);
      }
      Prepend(s, b, Advance, rest);
      steps := [Advance] + rest;
    }
  }

  // One sweep that crashes right after moving the watermark past the first row above it.
  lemma OneRowThenCrash(s: State, b: nat, prior: set<nat>, above: Row) returns (steps: seq<Step>, row: Row)
    requires Wellformed(s, prior) && s.phase.Idle? && b >= 1 && above in s.rows && above.deletedAt > s.watermark
    ensures ValidRun(s, b, steps) && OnlySweeps(steps)
    ensures row in s.rows && row.deletedAt > s.watermark && (row == above || Less(row, above))
    ensures var f := Final(s, b, steps);
            && f.rows == s.rows && f.watermark == row.deletedAt && f.phase.Idle? && Wellformed(f, prior)
            && LoggedIds(f) == LoggedIds(s) + {row.id}
  {
    SelectionIs(s.rows, s.watermark, b);
    var s1 := Apply(s, b, Start);
    var s2 := Apply(s1, b, Fetch);
    row := SelectPending(s.rows, s.watermark, b)[0];
    assert row in SelectPending(s.rows, s.watermark, b);
    var s3 := Apply(s2, b, Handle(true));
    LogGrows(s2, b, true);
    var s4 := Apply(s3, b, Advance);
    var s5 := Apply(s4, b, Crash);
    StepKeepsWellformed(s, b, prior, Start);
    StepKeepsWellformed(s1, b, prior, Fetch);
    StepKeepsWellformed(s2, b, prior, Handle(true));
    StepKeepsWellformed(s3, b, prior, Advance);
    StepKeepsWellformed(s4, b, prior, Crash);
    assert LoggedIds(s5) == LoggedIds(s3) && LoggedIds(s2) == LoggedIds(s);
    Prepend(s4, b, Crash, []);
    Prepend(s3, b, Advance, [Crash] + []);
    Prepend(s2, b, Handle(true), [Advance] + ([Crash] + []));
    Prepend(s1, b, Fetch, [Handle(true)] + ([Advance] + ([Crash] + [])));
    Prepend(s, b, Start, [Fetch] + ([Handle(true)] + ([Advance] + ([Crash] + []))));
    steps := [Start] + ([Fetch] + ([Handle(true)] + ([Advance] + ([Crash] + []))));
  }

  lemma {:induction false} RunsJoin(s: State, b: nat, one: seq<Step>, two: seq<Step>)
    requires ValidRun(s, b, one) && ValidRun(Final(s, b, one), b, two)
    ensures ValidRun(s, b, one + two) && Final(s, b, one + two) == Final(Final(s, b, one), b, two)
    decreases |one|
  {
    if one == [] {
      assert one + two == two;
    } else {
      RunsJoin(Apply(s, b, one[0]), b, one[1..], two);
      assert (one + two)[1..] == one[1..] + two;
    }
  }

  // Row by row until the watermark reaches two rows with one deletion time.
  lemma {:induction false} SweepUpTo(s: State, b: nat, prior: set<nat>, first: Row, second: Row) returns (steps: seq<Step>)
    requires Wellformed(s, prior) && s.phase.Idle? && b >= 1 && first in s.rows && second in s.rows
    requires first.deletedAt == second.deletedAt > s.watermark && first.id < second.id && second.id !in LoggedIds(s)
    ensures ValidRun(s, b, steps) && OnlySweeps(steps) && Passes(Final(s, b, steps), s, second, second.deletedAt)
    decreases second.deletedAt - s.watermark
  {
    var row;
    steps, row := OneRowThenCrash(s, b, prior, first);
    var t := Final(s, b, steps);
    if t.watermark < first.deletedAt {
      var rest := SweepUpTo(t, b, prior, first, second);
      RunsJoin(s, b, steps, rest);
      steps := steps + rest;
    }
  }

  lemma NotPrior(s: State, prior: set<nat>, row: Row)
    requires Wellformed(s, prior) && row in s.rows && row.deletedAt > s.watermark
    ensures row.id !in prior
  {
  }

  lemma TieLosesARow(s: State, b: nat, prior: set<nat>) returns (steps: seq<Step>)
    requires Wellformed(s, prior) && b >= 1 && !TieFree(s)
    ensures ValidRun(s, b, steps) && OnlySweeps(steps) && !Covered(Final(s, b, steps), prior)
  {
    var first, second :| first in s.rows && second in s.rows && first.deletedAt == second.deletedAt > s.watermark
                         && first.id < second.id && second.id !in LoggedIds(s);
    var t := Apply(s, b, Crash);
    StepKeepsWellformed(s, b, prior, Crash);
    assert LoggedIds(t) == LoggedIds(s);
    var rest := SweepUpTo(t, b, prior, first, second);
    Prepend(s, b, Crash, rest);
    steps := [Crash] + rest;
    NotPrior(s, prior, second);
  }

  lemma UnsafeLosesARow(s: State, b: nat, prior: set<nat>) returns (steps: seq<Step>)
    requires Wellformed(s, prior) && b >= 1 && !Safe(s, prior)
    ensures ValidRun(s, b, steps) && OnlySweeps(steps) && !Covered(Final(s, b, steps), prior)
  {
    if !Covered(s, prior) {
      steps := [];
    } else if !NothingUnder(s) {
      var r :| r in s.rows && s.watermark < r.deletedAt <= Horizon(s) && r !in InHand(s) && r.id !in LoggedIds(s);
      NotPrior(s, prior, r);
      steps := WorkOffBatch(s, b, prior, r);
    } else {
      steps := TieLosesARow(s, b, prior);
    }
  }

  /** From any state no row can be passed over exactly if none has been, no tie lies
      ahead and no row has slipped below the end of the batch in hand. */
  lemma AlwaysCoveredIff(s: State, b: nat, prior: set<nat>)
    requires Wellformed(s, prior) && b >= 1
    ensures AlwaysCovered(s, b, prior) <==> Safe(s, prior)
  {
    if Safe(s, prior) {
      forall steps | ValidRun(s, b, steps) && OnlySweeps(steps)
        ensures Covered(Final(s, b, steps), prior)
      {
        SafeRunsAreCovered(s, b, prior, steps);
      }
    } else {
      var steps := UnsafeLosesARow(s, b, prior);
    }
  }

  // --- When a deletion is safe to commit --------------------------------------------------------------

  /** The stamp lies above the watermark and above the batch in hand, and no row has the
      same one, save rows handled before a crash that sort after the new one. */
  ghost predicate Timely(s: State, row: Row) {
    && row.deletedAt > Horizon(s)
    && (forall r :: r in s.rows && r.deletedAt == row.deletedAt ==> row.id < r.id && r.id in LoggedIds(s))
  }

  lemma HorizonIsAhead(s: State, prior: set<nat>)
    requires Wellformed(s, prior)
    ensures s.watermark <= Horizon(s)
  {
    if InHand(s) != [] {
      assert InHand(s)[|InHand(s)| - 1] in InHand(s);
    }
  }

  // What a deletion changes: one more row, not handled and not in hand.
  lemma AfterCommit(s: State, b: nat, prior: set<nat>, row: Row)
    requires Wellformed(s, prior) && Enabled(s, SoftDelete(row))
    ensures var t := Apply(s, b, SoftDelete(row));
            && LoggedIds(t) == LoggedIds(s) && InHand(t) == InHand(s) && t.watermark == s.watermark
            && (forall r :: r in t.rows <==> r == row || r in s.rows)
            && row !in InHand(s) && row.id !in LoggedIds(s) && row.id !in prior
  {
  }

  lemma CommitCoveredIff(s: State, b: nat, prior: set<nat>, row: Row)
    requires Wellformed(s, prior) && Covered(s, prior) && Enabled(s, SoftDelete(row))
    ensures Covered(Apply(s, b, SoftDelete(row)), prior) <==> row.deletedAt > s.watermark
  {
    AfterCommit(s, b, prior, row);
    assert row in Apply(s, b, SoftDelete(row)).rows;
  }

  lemma CommitUnderIff(s: State, b: nat, prior: set<nat>, row: Row)
    requires Wellformed(s, prior) && NothingUnder(s) && Enabled(s, SoftDelete(row))
    ensures NothingUnder(Apply(s, b, SoftDelete(row))) <==> !(s.watermark < row.deletedAt <= Horizon(s))
  {
    AfterCommit(s, b, prior, row);
    assert row in Apply(s, b, SoftDelete(row)).rows && Horizon(Apply(s, b, SoftDelete(row))) == Horizon(s);
  }

  lemma CommitTieFreeIff(s: State, b: nat, prior: set<nat>, row: Row)
    requires Wellformed(s, prior) && TieFree(s) && Enabled(s, SoftDelete(row)) && row.deletedAt > s.watermark
    ensures TieFree(Apply(s, b, SoftDelete(row))) <==>
            forall r :: r in s.rows && r.deletedAt == row.deletedAt ==> row.id < r.id && r.id in LoggedIds(s)
  {
    AfterCommit(s, b, prior, row);
    assert row in Apply(s, b, SoftDelete(row)).rows;
  }

  lemma CommitKeepsSafeIff(s: State, b: nat, prior: set<nat>, row: Row)
    requires Wellformed(s, prior) && Safe(s, prior) && Enabled(s, SoftDelete(row))
    ensures Safe(Apply(s, b, SoftDelete(row)), prior) <==> Timely(s, row)
  {
    HorizonIsAhead(s, prior);
    CommitCoveredIff(s, b, prior, row);
    CommitUnderIff(s, b, prior, row);
    if row.deletedAt > s.watermark {
      CommitTieFreeIff(s, b, prior, row);
    }
  }

  ghost predicate AllTimely(s: State, b: nat, steps: seq<Step>)
    requires ValidRun(s, b, steps)
    decreases |steps|
  {
    steps == [] || ((steps[0].SoftDelete? ==> Timely(s, steps[0].row)) && AllTimely(Apply(s, b, steps[0]), b, steps[1..]))
  }

  // At every point of the run, no row can be passed over by what the sweep may do next.
  ghost predicate CoveredThroughout(s: State, b: nat, prior: set<nat>, steps: seq<Step>)
    requires ValidRun(s, b, steps)
    decreases |steps|
  {
    AlwaysCovered(s, b, prior) && (steps == [] || CoveredThroughout(Apply(s, b, steps[0]), b, prior, steps[1..]))
  }

  lemma {:induction false} CoveredThroughoutIff(s: State, b: nat, prior: set<nat>, steps: seq<Step>)
    requires Wellformed(s, prior) && Safe(s, prior) && b >= 1 && ValidRun(s, b, steps)
    ensures CoveredThroughout(s, b, prior, steps) <==> AllTimely(s, b, steps)
    decreases |steps|
  {
    AlwaysCoveredIff(s, b, prior);
    if steps != [] {
      var t := Apply(s, b, steps[0]);
      StepKeepsWellformed(s, b, prior, steps[0]);
      AlwaysCoveredIff(t, b, prior);
      if steps[0].SoftDelete? {
        CommitKeepsSafeIff(s, b, prior, steps[0].row);
      } else {
        StepKeepsSafe(s, b, prior, steps[0]);
      }
      if Safe(t, prior) {
        CoveredThroughoutIff(t, b, prior, steps[1..]);
      }
    }
  }

  // No two rows above the watermark share a deletion time.
  ghost predicate TimesDiffer(rows: seq<Row>, wm: int) {
    forall a, b :: a in rows && b in rows && a.deletedAt == b.deletedAt > wm ==> a == b
  }

  lemma InitIsWellformed(rows: seq<Row>, wm0: int)
    requires Ascending(rows) && UniqueIds(rows)
    ensures Wellformed(Init(rows, wm0), OldRows(rows, wm0))
    ensures Safe(Init(rows, wm0), OldRows(rows, wm0)) <==> TimesDiffer(rows, wm0)
  {
  }

  /** No sweep can ever pass a row over exactly if the table starts without ties above the
      watermark and every later deletion is timely when it commits. */
  lemma CoveredIffTimely(rows: seq<Row>, wm0: int, b: nat, steps: seq<Step>)
    requires Ascending(rows) && UniqueIds(rows) && b >= 1 && ValidRun(Init(rows, wm0), b, steps)
    ensures CoveredThroughout(Init(rows, wm0), b, OldRows(rows, wm0), steps)
            <==> TimesDiffer(rows, wm0) && AllTimely(Init(rows, wm0), b, steps)
  {
    InitIsWellformed(rows, wm0);
    AlwaysCoveredIff(Init(rows, wm0), b, OldRows(rows, wm0));
    if TimesDiffer(rows, wm0) {
      CoveredThroughoutIff(Init(rows, wm0), b, OldRows(rows, wm0), steps);
    }
  }

  /** While nothing is deleted, the sweep is safe exactly for tables without such ties. */
  lemma CoveredIffDistinct(rows: seq<Row>, wm0: int, b: nat)
    requires Ascending(rows) && UniqueIds(rows) && b >= 1
    ensures AlwaysCovered(Init(rows, wm0), b, OldRows(rows, wm0)) <==> TimesDiffer(rows, wm0)
  {
    InitIsWellformed(rows, wm0);
    AlwaysCoveredIff(Init(rows, wm0), b, OldRows(rows, wm0));
  }

  // --- Repeated handling ------------------------------------------------------------------------------

  // The handled rows that may be handled again.
  ghost function Again(s: State): set<nat> {
    set r | r in s.rows && r.id in LoggedIds(s) && (r.deletedAt > s.watermark || r in InHand(s)) :: r.id
  }

  ghost predicate RepeatsPaid(s: State) {
    |s.log| + |Again(s)| <= |LoggedIds(s)| + s.crashes + if s.phase.Handled? then 1 else 0
  }

  lemma AgainGrows(s: State, t: State, row: Row)
    requires t.rows == s.rows && t.watermark == s.watermark && InHand(t) == InHand(s) && UniqueIds(s.rows)
    requires row in InHand(s) && row in s.rows && LoggedIds(t) == LoggedIds(s) + {row.id}
    ensures Again(t) == Again(s) + {row.id} && (row.id in Again(s) <==> row.id in LoggedIds(s))
  {
    forall id
      ensures id in Again(t) <==> id in Again(s) || id == row.id
    {
      if id in Again(t) && id != row.id {
        var r :| r in t.rows && r.id in LoggedIds(t) && (r.deletedAt > t.watermark || r in InHand(t)) && r.id == id;
        assert r.id in LoggedIds(s);
      }
    }
  }

  lemma OneMore(a: set<nat>, x: nat)
    ensures |a + {x}| == |a| + if x in a then 0 else 1
  {
    if x in a {
      assert a + {x} == a;
    }
  }

  lemma HandleKeepsPaid(s: State, b: nat, prior: set<nat>, ok: bool)
    requires Wellformed(s, prior) && RepeatsPaid(s) && Enabled(s, Handle(ok))
    ensures RepeatsPaid(Apply(s, b, Handle(ok)))
  {
    var t, row := Apply(s, b, Handle(ok)), s.phase.todo[0];
    assert row in InHand(s);
    LogGrows(s, b, ok);
    AgainGrows(s, t, row);
    OneMore(Again(s), row.id);
    OneMore(LoggedIds(s), row.id);
  }

  lemma AdvanceKeepsPaid(s: State, b: nat, prior: set<nat>)
    requires Wellformed(s, prior) && RepeatsPaid(s) && Enabled(s, Advance)
    ensures RepeatsPaid(Apply(s, b, Advance))
  {
    var t, row := Apply(s, b, Advance), s.phase.todo[0];
    assert row in InHand(s) && row.id in Again(s);
    assert LoggedIds(t) == LoggedIds(s) && InHand(t) == s.phase.todo[1..];
    assert forall r :: r in InHand(t) ==> r in InHand(s) && Less(row, r);
    assert Again(t) <= Again(s) - {row.id};
    SubsetSize(Again(t), Again(s) - {row.id});
  }

  lemma StepKeepsPaid(s: State, b: nat, prior: set<nat>, step: Step)
    requires Wellformed(s, prior) && RepeatsPaid(s) && Enabled(s, step)
    ensures RepeatsPaid(Apply(s, b, step))
  {
    match step
    case Handle(ok) => HandleKeepsPaid(s, b, prior, ok);
    case Advance => AdvanceKeepsPaid(s, b, prior);
    case _ =>
      var t := Apply(s, b, step);
      if step.Fetch? {
        SelectionIs(s.rows, s.watermark, b);
      }
      assert LoggedIds(t) == LoggedIds(s);
      assert Again(t) <= Again(s);
      SubsetSize(Again(t), Again(s));
  }

  lemma {:induction false} RunKeepsInv(s: State, b: nat, prior: set<nat>, steps: seq<Step>)
    requires Wellformed(s, prior) && RepeatsPaid(s) && ValidRun(s, b, steps)
    ensures var f := Final(s, b, steps);
            Wellformed(f, prior) && RepeatsPaid(f) && s.watermark <= f.watermark && LoggedIds(s) <= LoggedIds(f)
    decreases |steps|
  {
    if steps != [] {
      StepKeepsWellformed(s, b, prior, steps[0]);
      StepKeepsPaid(s, b, prior, steps[0]);
      RunKeepsInv(Apply(s, b, steps[0]), b, prior, steps[1..]);
    }
  }

  lemma {:induction false} TimelyRunIsCovered(s: State, b: nat, prior: set<nat>, steps: seq<Step>)
    requires Wellformed(s, prior) && Safe(s, prior) && ValidRun(s, b, steps) && AllTimely(s, b, steps)
    ensures Covered(Final(s, b, steps), prior)
    decreases |steps|
  {
    if steps != [] {
      StepKeepsWellformed(s, b, prior, steps[0]);
      if steps[0].SoftDelete? {
        CommitKeepsSafeIff(s, b, prior, steps[0].row);
      } else {
        StepKeepsSafe(s, b, prior, steps[0]);
      }
      TimelyRunIsCovered(Apply(s, b, steps[0]), b, prior, steps[1..]);
    }
  }

  /** At every point of every run, whatever crashes and whatever commits: the watermark
      has not gone back, and no more rows have been handled again than there were
      crashes. If commits are timely, every row up to the watermark is covered. */
  lemma CrashSafety(rows: seq<Row>, wm0: int, b: nat, steps: seq<Step>)
    requires Ascending(rows) && UniqueIds(rows) && ValidRun(Init(rows, wm0), b, steps)
    ensures var f := Final(Init(rows, wm0), b, steps);
            && wm0 <= f.watermark
            && |f.log| <= |LoggedIds(f)| + f.crashes
            && (TimesDiffer(rows, wm0) && AllTimely(Init(rows, wm0), b, steps) ==> Covered(f, OldRows(rows, wm0)))
  {
    var s, prior := Init(rows, wm0), OldRows(rows, wm0);
    InitIsWellformed(rows, wm0);
    assert Again(s) == {};
    RunKeepsInv(s, b, prior, steps);
    var f := Final(s, b, steps);
    if f.phase.Handled? {
      assert f.phase.todo[0] in InHand(f) && f.phase.todo[0].id in Again(f);
    }
    if TimesDiffer(rows, wm0) && AllTimely(s, b, steps) {
      TimelyRunIsCovered(s, b, prior, steps);
    }
  }

  // --- A row left behind stays behind --------------------------------------------------

  ghost predicate Behind(s: State, row: Row) {
    row in s.rows && row.deletedAt <= s.watermark && row !in InHand(s) && row.id !in LoggedIds(s)
  }

  /** A row at or below the watermark that has not been handled and is not in hand is
      never handled by any later sweep. */
  lemma {:induction false} NeverRevisited(s: State, b: nat, prior: set<nat>, row: Row, steps: seq<Step>)
    requires Wellformed(s, prior) && Behind(s, row) && ValidRun(s, b, steps)
    ensures row.id !in LoggedIds(Final(s, b, steps))
    decreases |steps|
  {
    if steps != [] {
      var step, t := steps[0], Apply(s, b, steps[0]);
      StepKeepsWellformed(s, b, prior, step);
      match step {
        case Fetch => SelectionIs(s.rows, s.watermark, b);
        case Handle(ok) =>
          assert s.phase.todo[0] in InHand(s);
          LogGrows(s, b, ok);
        case Advance => assert InHand(t) == s.phase.todo[1..];
        case _ =>
      }
      assert !step.Handle? ==> LoggedIds(t) == LoggedIds(s);
      NeverRevisited(t, b, prior, row, steps[1..]);
    }
  }

  /** A deletion that began before the watermark and commits after it is lost, although
      no two rows share a time. */
  lemma LateCommitIsLost(s: State, b: nat, prior: set<nat>, row: Row, rest: seq<Step>)
    requires Wellformed(s, prior) && Enabled(s, SoftDelete(row)) && row.deletedAt <= s.watermark
    requires ValidRun(Apply(s, b, SoftDelete(row)), b, rest)
    ensures row.id !in LoggedIds(Final(Apply(s, b, SoftDelete(row)), b, rest))
  {
    StepKeepsWellformed(s, b, prior, SoftDelete(row));
    var t := Apply(s, b, SoftDelete(row));
    assert LoggedIds(t) == LoggedIds(s) && InHand(t) == InHand(s);
    NeverRevisited(t, b, prior, row, rest);
  }
}
