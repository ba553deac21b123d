/** The hourly expiry processor of approvals, and the tick around it: a reminder pass, then
    an expiry pass, while other deciders step between any two of its transactions' own
    steps. */
module ApprovalTtl {
  import opened Seqs
  import opened Approvals
  import Reminders = ApprovalReminders

  const AUTO_EXECUTE := "skill_pack_archive"
  const EXPIRED_REASON := "ttl expired \U{2014} admin did not respond in time"
  const DISPATCH_FAILED_REASON := "ttl auto-execute failed \U{2014} see approval.dispatch_failed audit"
  const AUTO_REASON := "ttl auto-execute"

  // The processor works on one transaction at a time.
  const PROCESSOR: Tid := 0

  /** The texts as they are stored and compared. */
  lemma TextsAre()
    ensures AUTO_EXECUTE == "skill_pack_archive" && AUTO_REASON == "ttl auto-execute"
    ensures EXPIRED_REASON == "ttl expired \U{2014} admin did not respond in time"
    ensures DISPATCH_FAILED_REASON == "ttl auto-execute failed \U{2014} see approval.dispatch_failed audit"
  {
  }

  // --- The selection -----------------------------------------------------------------

  predicate Due(a: Approval, now: int) {
    a.status.Pending? && a.expiresAt.Some? && a.expiresAt.value <= now
  }

  function DueRows(t: Table, now: int): set<Id> {
    set id | id in t && Due(t[id], now)
  }

  // --- The machine ---------------------------------------------------------------------

  /** How the turn of a row ended. `dispatch` tells whether the automatic execution had
      failed before, `at` is the time that is stored. */
  datatype Ending =
    | Gone(dispatch: bool)
    | Executed(at: int)
    | Crashed
    | Expired(dispatch: bool, at: int)
    | Swallowed(dispatch: bool)
    | Raised

  datatype Outcome = AutoExecuted | Rejected | Errored

  // What the processor reports and counts.
  function Reported(e: Ending): Outcome {
    match e
    case Executed(_) => AutoExecuted
    case Crashed => Errored
    case Raised => Errored
    case Gone(dispatch) => if dispatch then Errored else Rejected
    case Expired(dispatch, _) => if dispatch then Errored else Rejected
    case Swallowed(dispatch) => if dispatch then Errored else Rejected
  }

  predicate Failed(e: Ending) {
    e.Crashed? || e.Swallowed? || e.Raised?
  }

  predicate Closed(e: Ending) {
    e.Executed? || e.Expired?
  }

  // Where the processor stands: between rows, or in one of the row's two transactions.
  datatype Turn = NoTurn | Loaded(id: Id, at: int) | Again(id: Id, dispatch: bool) | Rejecting(id: Id, dispatch: bool, at: int)

  /** `others` are the rows on which somebody else has committed a decision. */
  datatype Tick = Tick(db: Approvals.State, due: set<Id>, turn: Turn, endings: map<Id, Ending>, others: set<Id>)

  datatype Step =
    | Other(step: Approvals.Step)
    | FindGone(id: Id)
    | LoadAuto(id: Id, at: int)
    | LoadPlain(id: Id)
    | LoadFails(id: Id)
    | Execute
    | DispatchFails
    | Crash
    | FindGoneAgain
    | LoadAgain(at: int)
    | Expire
    | Swallow
    | Raise

  predicate IsOther(step: Approvals.Step) {
    match step
    case Create(_, _) => true
    case Read(tid, _) => tid != PROCESSOR
    case Commit(tid) => tid != PROCESSOR
    case Rollback(tid) => tid != PROCESSOR
  }

  predicate IsPending(db: Approvals.State, id: Id) {
    id in db.rows && db.rows[id].status.Pending?
  }

  predicate IsAuto(db: Approvals.State, id: Id) {
    id in db.rows && db.rows[id].resourceType == Some(AUTO_EXECUTE)
  }

  function AutoApproval(at: int): Decision {
    Decision(Approved, at, Some(AUTO_REASON), None)
  }

  function Expiry(at: int, dispatch: bool): Decision {
    Decision(Status.Expired, at, Some(if dispatch then DISPATCH_FAILED_REASON else EXPIRED_REASON), None)
  }

  predicate Waiting(t: Tick, id: Id) {
    t.turn.NoTurn? && id in t.due && id !in t.endings
  }

  ghost predicate Enabled(t: Tick, step: Step) {
    match step
    case Other(s) => IsOther(s) && Approvals.Enabled(t.db, s)
    case FindGone(id) => Waiting(t, id) && !IsPending(t.db, id)
    case LoadAuto(id, _) => Waiting(t, id) && IsPending(t.db, id) && IsAuto(t.db, id) && PROCESSOR !in t.db.open
    case LoadPlain(id) => Waiting(t, id) && IsPending(t.db, id) && !IsAuto(t.db, id)
    case LoadFails(id) => Waiting(t, id)
    case Execute => t.turn.Loaded? && PROCESSOR in t.db.open
    case DispatchFails => t.turn.Loaded? && PROCESSOR in t.db.open
    case Crash => t.turn.Loaded? && PROCESSOR in t.db.open
    case FindGoneAgain => t.turn.Again? && !IsPending(t.db, t.turn.id)
    case LoadAgain(_) => t.turn.Again? && IsPending(t.db, t.turn.id) && PROCESSOR !in t.db.open
    case Expire => t.turn.Rejecting? && PROCESSOR in t.db.open
    case Swallow => t.turn.Rejecting? && PROCESSOR in t.db.open
    case Raise => t.turn.Again? || (t.turn.Rejecting? && PROCESSOR in t.db.open)
  }

  // What a step of the tick does as a decider.
  function DbStep(t: Tick, step: Step): seq<Approvals.Step> {
    match step
    case Other(s) => [s]
    case LoadAuto(id, at) => [Read(PROCESSOR, map[id := AutoApproval(at)])]
    case LoadAgain(at) => if t.turn.Again? then [Read(PROCESSOR, map[t.turn.id := Expiry(at, t.turn.dispatch)])] else []
    case Execute => [Commit(PROCESSOR)]
    case Expire => [Commit(PROCESSOR)]
    case DispatchFails => [Rollback(PROCESSOR)]
    case Crash => [Rollback(PROCESSOR)]
    case Swallow => [Rollback(PROCESSOR)]
    case Raise => if t.turn.Rejecting? then [Rollback(PROCESSOR)] else []
    case _ => []
  }

  function ApplyDb(db: Approvals.State, steps: seq<Approvals.Step>): Approvals.State
    requires |steps| <= 1 && (steps != [] ==> Approvals.Enabled(db, steps[0]))
  {
    if steps == [] then db else Approvals.Apply(db, steps[0])
  }

  function EndTurn(t: Tick, id: Id, e: Ending): Tick {
    t.(turn := NoTurn, endings := t.endings[id := e])
  }

  ghost function Apply(t: Tick, step: Step): Tick
    requires Enabled(t, step)
  {
    var u := t.(db := ApplyDb(t.db, DbStep(t, step)));
    match step
    case Other(s) => u.(others := if s.Commit? then t.others + t.db.open[s.tid].Keys else t.others)
    case FindGone(id) => EndTurn(u, id, Gone(false))
    case LoadAuto(id, at) => u.(turn := Loaded(id, at))
    case LoadPlain(id) => u.(turn := Again(id, false))
    case LoadFails(id) => EndTurn(u, id, Raised)
    case Execute => EndTurn(u, t.turn.id, Executed(t.turn.at))
    case DispatchFails => u.(turn := Again(t.turn.id, true))
    case Crash => EndTurn(u, t.turn.id, Crashed)
    case FindGoneAgain => EndTurn(u, t.turn.id, Gone(t.turn.dispatch))
    case LoadAgain(at) => u.(turn := Rejecting(t.turn.id, t.turn.dispatch, at))
    case Expire => EndTurn(u, t.turn.id, Ending.Expired(t.turn.dispatch, t.turn.at))
    case Swallow => EndTurn(u, t.turn.id, Swallowed(t.turn.dispatch))
    case Raise => EndTurn(u, t.turn.id, Raised)
  }

  ghost predicate ValidRun(t: Tick, steps: seq<Step>)
    decreases |steps|
  {
    steps == [] || (Enabled(t, steps[0]) && ValidRun(Apply(t, steps[0]), steps[1..]))
  }

  ghost function Final(t: Tick, steps: seq<Step>): Tick
    requires ValidRun(t, steps)
    decreases |steps|
  {
    if steps == [] then t else Final(Apply(t, steps[0]), steps[1..])
  }

  // --- The processor is a decider --------------------------------------------------------

  ghost function DbSteps(t: Tick, steps: seq<Step>): seq<Approvals.Step>
    requires ValidRun(t, steps)
    decreases |steps|
  {
    if steps == [] then [] else DbStep(t, steps[0]) + DbSteps(Apply(t, steps[0]), steps[1..])
  }

  /** Whatever happens in a tick is a run of reads, commits and rollbacks of the approval
      protocol, so what holds of every run of deciders holds with the processor among
      them. */
  lemma {:induction false} ProcessorIsDecider(t: Tick, steps: seq<Step>)
    requires ValidRun(t, steps)
    ensures Approvals.ValidRun(t.db, DbSteps(t, steps)) && Approvals.Final(t.db, DbSteps(t, steps)) == Final(t, steps).db
    decreases |steps|
  {
    if steps != [] {
      var u := Apply(t, steps[0]);
      ProcessorIsDecider(u, steps[1..]);
      var head, tail := DbStep(t, steps[0]), DbSteps(u, steps[1..]);
      if head == [] {
        assert head + tail == tail;
      } else {
        assert head == [head[0]];
        Approvals.Prepend(t.db, head[0], tail);
      }
    }
  }

  /** In a tick and with everybody else, each row is decided at most once exactly if nobody
      commits on a row on which another has committed since its own read. */
  lemma TickDecidesOnceIff(t: Tick, steps: seq<Step>)
    requires Wellformed(t.db) && t.db.open == map[] && ValidRun(t, steps)
    ensures Approvals.ValidRun(t.db, DbSteps(t, steps))
    ensures DecidedAtMostOnce(t.db, DbSteps(t, steps)) <==> NoLateCommit(t.db, DbSteps(t, steps), {})
  {
    ProcessorIsDecider(t, steps);
    DecidedOnceIffNoLateCommit(t.db, DbSteps(t, steps));
  }

  // --- What a tick leaves behind -----------------------------------------------------------

  // Where the processor stands tells what its transaction is about to write.
  ghost predicate TurnIsOpen(t: Tick) {
    match t.turn
    case NoTurn => PROCESSOR !in t.db.open
    case Again(id, dispatch) =>
      && PROCESSOR !in t.db.open && id in t.due && id !in t.endings
      && id in t.db.rows && (dispatch <==> t.db.rows[id].resourceType == Some(AUTO_EXECUTE))
    case Loaded(id, at) =>
      && PROCESSOR in t.db.open && id in t.due && id !in t.endings
      && t.db.open[PROCESSOR] == map[id := Decision(Approved, at, Some(AUTO_REASON), None)]
      && id in t.db.rows && t.db.rows[id].resourceType == Some(AUTO_EXECUTE)
    case Rejecting(id, dispatch, at) =>
      && PROCESSOR in t.db.open && id in t.due && id !in t.endings
      && t.db.open[PROCESSOR] == map[id := Decision(Status.Expired, at,
           Some(if dispatch then DISPATCH_FAILED_REASON else EXPIRED_REASON), None)]
      && id in t.db.rows && (dispatch <==> t.db.rows[id].resourceType == Some(AUTO_EXECUTE))
  }

  // What a closed turn has left in a row that nobody else has decided.
  ghost predicate EndingIsStored(t: Tick, id: Id) {
    id in t.endings && id !in t.others && id in t.db.rows ==>
      var row := t.db.rows[id];
      match t.endings[id]
      case Executed(at) =>
        && row.status == Approved && row.decidedAt == Some(at) && row.decidedReason == Some(AUTO_REASON)
        && row.decidedBy == None && row.resourceType == Some(AUTO_EXECUTE)
      case Expired(dispatch, at) =>
        && row.status == Status.Expired && row.decidedAt == Some(at) && row.decidedBy == None
        && row.decidedReason == Some(if dispatch then DISPATCH_FAILED_REASON else EXPIRED_REASON)
        && (dispatch <==> row.resourceType == Some(AUTO_EXECUTE))
      case Gone(_) => false
      case _ => row.status.Pending?
  }

  // A row of the tick is PENDING until the processor or somebody else has decided it.
  ghost predicate PendingIffOpen(t: Tick, id: Id) {
    && id in t.db.rows
    && (t.db.rows[id].status.Pending? <==> id !in t.others && !(id in t.endings && Closed(t.endings[id])))
    && (id in t.endings && t.endings[id].Gone? ==> id in t.others)
  }

  ghost predicate Inv(t: Tick) {
    Wellformed(t.db) && TurnIsOpen(t) && t.endings.Keys <= t.due && forall id :: id in t.due ==> PendingIffOpen(t, id) && EndingIsStored(t, id)
  }

  // One step of a decider: what it does to one row.
  lemma DbStepOnRow(db: Approvals.State, step: Approvals.Step, id: Id)
    requires Wellformed(db) && Approvals.Enabled(db, step) && id in db.rows
    ensures var u := Approvals.Apply(db, step);
            && Wellformed(u) && id in u.rows
            && (u.rows[id].status.Pending? <==> db.rows[id].status.Pending? && !(step.Commit? && id in db.open[step.tid]))
            && u.rows[id].resourceType == db.rows[id].resourceType
            && (!(step.Commit? && id in db.open[step.tid]) ==> u.rows[id] == db.rows[id])
  {
  }

  lemma OtherKeepsTurn(t: Tick, s: Approvals.Step)
    requires Inv(t) && Enabled(t, Other(s))
    ensures TurnIsOpen(Apply(t, Other(s)))
  {
    var u := Apply(t, Other(s));
    assert PROCESSOR in u.db.open <==> PROCESSOR in t.db.open;
    assert PROCESSOR in t.db.open ==> u.db.open[PROCESSOR] == t.db.open[PROCESSOR];
    if !t.turn.NoTurn? {
      assert PendingIffOpen(t, t.turn.id);
      DbStepOnRow(t.db, s, t.turn.id);
    }
  }

  lemma OtherKeepsRow(t: Tick, s: Approvals.Step, id: Id)
    requires Inv(t) && Enabled(t, Other(s)) && id in t.due
    ensures PendingIffOpen(Apply(t, Other(s)), id) && EndingIsStored(Apply(t, Other(s)), id)
  {
    DbStepOnRow(t.db, s, id);
  }

  lemma OtherKeepsInv(t: Tick, s: Approvals.Step)
    requires Inv(t) && Enabled(t, Other(s))
    ensures Inv(Apply(t, Other(s)))
  {
    OtherKeepsTurn(t, s);
    Approvals.StepKeepsWellformed(t.db, [s] + []);
    forall id | id in t.due
      ensures PendingIffOpen(Apply(t, Other(s)), id) && EndingIsStored(Apply(t, Other(s)), id)
    {
      OtherKeepsRow(t, s, id);
    }
  }

  lemma OwnKeepsTurn(t: Tick, step: Step)
    requires Inv(t) && Enabled(t, step) && !step.Other?
    ensures var u := Apply(t, step); TurnIsOpen(u) && u.endings.Keys <= u.due && Wellformed(u.db)
  {
    var u, own := Apply(t, step), DbStep(t, step);
    if own != [] {
      Approvals.StepKeepsWellformed(t.db, [own[0]] + []);
      if !u.turn.NoTurn? {
        assert PendingIffOpen(t, u.turn.id);
        DbStepOnRow(t.db, own[0], u.turn.id);
      }
    }
  }

  lemma OwnKeepsRow(t: Tick, step: Step, id: Id)
    requires Inv(t) && Enabled(t, step) && !step.Other? && id in t.due
    ensures PendingIffOpen(Apply(t, step), id)
  {
    var own := DbStep(t, step);
    if own != [] {
      DbStepOnRow(t.db, own[0], id);
    }
  }

  // A commit of the processor stores its decision in a row nobody else has decided.
  lemma OwnStores(t: Tick, step: Step, id: Id)
    requires Inv(t) && Enabled(t, step) && !step.Other? && id in t.due
    ensures EndingIsStored(Apply(t, step), id)
  {
    assert PendingIffOpen(t, id) && EndingIsStored(t, id);
    var own := DbStep(t, step);
    if own != [] {
      DbStepOnRow(t.db, own[0], id);
    }
    if (step.Execute? || step.Expire?) && id == t.turn.id && id !in t.others {
      assert Clean(t.db.rows[id]);
    }
  }

  lemma StepKeepsInv(t: Tick, step: Step)
    requires Inv(t) && Enabled(t, step)
    ensures Inv(Apply(t, step)) && Apply(t, step).due == t.due && t.others <= Apply(t, step).others
  {
    if step.Other? {
      OtherKeepsInv(t, step.step);
    } else {
      OwnKeepsTurn(t, step);
      forall id | id in t.due
        ensures PendingIffOpen(Apply(t, step), id) && EndingIsStored(Apply(t, step), id)
      {
        OwnKeepsRow(t, step, id);
        OwnStores(t, step, id);
      }
    }
  }

  lemma {:induction false} RunKeepsInv(t: Tick, steps: seq<Step>)
    requires Inv(t) && ValidRun(t, steps)
    ensures Inv(Final(t, steps)) && Final(t, steps).due == t.due && t.others <= Final(t, steps).others
    decreases |steps|
  {
    if steps != [] {
      StepKeepsInv(t, steps[0]);
      RunKeepsInv(Apply(t, steps[0]), steps[1..]);
    }
  }

  // Expiries never change.
  lemma RunKeepsExpiry(t: Tick, steps: seq<Step>, id: Id)
    requires ValidRun(t, steps) && id in t.db.rows
    ensures id in Final(t, steps).db.rows && Final(t, steps).db.rows[id].expiresAt == t.db.rows[id].expiresAt
  {
    ProcessorIsDecider(t, steps);
    FixedColumns(t.db, DbSteps(t, steps), id);
  }

  ghost function Start(db: Approvals.State, now: int): Tick {
    Tick(db, DueRows(db.rows, now), NoTurn, map[], {})
  }

  ghost predicate IsStart(db: Approvals.State) {
    Wellformed(db) && PROCESSOR !in db.open
  }

  /** When every due row has had its turn, a row is still PENDING exactly if its own turn
      failed and nobody else has committed a decision on it, at whatever moment. */
  lemma EndOfTickIff(db: Approvals.State, now: int, steps: seq<Step>, id: Id)
    requires IsStart(db) && ValidRun(Start(db, now), steps) && id in DueRows(db.rows, now)
    requires Final(Start(db, now), steps).endings.Keys == DueRows(db.rows, now)
    ensures var f := Final(Start(db, now), steps);
            IsPending(f.db, id) <==> Failed(f.endings[id]) && id !in f.others
  {
    RunKeepsInv(Start(db, now), steps);
  }

  /** So after a tick without failures no row of before the tick is PENDING past its
      expiry; in general those that are had a failed turn and no other decision. */
  lemma DueAfterTickIff(db: Approvals.State, now: int, steps: seq<Step>, id: Id)
    requires IsStart(db) && ValidRun(Start(db, now), steps) && id in db.rows
    requires Final(Start(db, now), steps).endings.Keys == DueRows(db.rows, now)
    ensures var f := Final(Start(db, now), steps);
            && id in f.db.rows
            && (Due(f.db.rows[id], now) <==> Due(db.rows[id], now) && Failed(f.endings[id]) && id !in f.others)
  {
    var t := Start(db, now);
    RunKeepsInv(t, steps);
    RunKeepsExpiry(t, steps, id);
    ProcessorIsDecider(t, steps);
    if Due(db.rows[id], now) {
      EndOfTickIff(db, now, steps, id);
    } else if !db.rows[id].status.Pending? {
      Approvals.StaysDecided(db, DbSteps(t, steps), id);
    }
  }

  /** What the report says about a row that is still PENDING: `rejected` exactly if the
      failure of its first and only rejection was swallowed, and `errored` otherwise. */
  lemma ReportOfPending(db: Approvals.State, now: int, steps: seq<Step>, id: Id)
    requires IsStart(db) && ValidRun(Start(db, now), steps) && id in DueRows(db.rows, now)
    requires Final(Start(db, now), steps).endings.Keys == DueRows(db.rows, now)
    requires IsPending(Final(Start(db, now), steps).db, id)
    ensures var e := Final(Start(db, now), steps).endings[id];
            (Reported(e) == Rejected <==> e == Swallowed(false)) && (Reported(e) == Errored <==> e != Swallowed(false))
  {
    EndOfTickIff(db, now, steps, id);
  }

  // --- Counting ---------------------------------------------------------------------------------

  datatype Counts = Counts(autoExecuted: nat, rejected: nat, errored: nat)

  function With(endings: map<Id, Ending>, o: Outcome): set<Id> {
    set id | id in endings && Reported(endings[id]) == o
  }

  function CountsOf(endings: map<Id, Ending>): Counts {
    Counts(|With(endings, AutoExecuted)|, |With(endings, Rejected)|, |With(endings, Errored)|)
  }

  function CountOne(c: Counts, o: Outcome): Counts {
    match o
    case AutoExecuted => c.(autoExecuted := c.autoExecuted + 1)
    case Rejected => c.(rejected := c.rejected + 1)
    case Errored => c.(errored := c.errored + 1)
  }

  lemma WithNext(endings: map<Id, Ending>, id: Id, e: Ending, o: Outcome)
    requires id !in endings
    ensures |With(endings[id := e], o)| == |With(endings, o)| + if Reported(e) == o then 1 else 0
  {
    assert With(endings[id := e], o) == With(endings, o) + if Reported(e) == o then {id} else {};
  }

  lemma CountsNext(endings: map<Id, Ending>, id: Id, e: Ending)
    requires id !in endings
    ensures CountsOf(endings[id := e]) == CountOne(CountsOf(endings), Reported(e))
  {
    WithNext(endings, id, e, AutoExecuted);
    WithNext(endings, id, e, Rejected);
    WithNext(endings, id, e, Errored);
  }

  lemma NoCounts()
    ensures CountsOf(map[]) == Counts(0, 0, 0)
  {
    assert forall o :: With(map[], o) == {};
  }

  lemma CountsAre(endings: map<Id, Ending>)
    ensures CountsOf(endings).autoExecuted == |set id | id in endings && endings[id].Executed?|
    ensures CountsOf(endings).rejected ==
            |set id | id in endings && (endings[id].Gone? || endings[id].Expired? || endings[id].Swallowed?) && !endings[id].dispatch|
  {
    assert With(endings, AutoExecuted) == set id | id in endings && endings[id].Executed?;
    assert With(endings, Rejected)
           == set id | id in endings && (endings[id].Gone? || endings[id].Expired? || endings[id].Swallowed?) && !endings[id].dispatch;
  }

  lemma ThreeParts<T>(all: set<T>, a: set<T>, b: set<T>, c: set<T>)
    requires (forall x :: x in all <==> x in a || x in b || x in c) && a !! b !! c
    ensures |all| == |a| + |b| + |c|
  {
    assert all == a + b + c;
    assert |a + b| == |a| + |b|;
  }

  /** The three counters add up to the rows that have had their turn. */
  lemma OutcomesAddUp(endings: map<Id, Ending>)
    ensures var c := CountsOf(endings); |endings| == c.autoExecuted + c.rejected + c.errored
  {
    var a, r, e := With(endings, AutoExecuted), With(endings, Rejected), With(endings, Errored);
    forall id
      ensures id in endings.Keys <==> id in a || id in r || id in e
    {
    }
    ThreeParts(endings.Keys, a, r, e);
    assert |endings.Keys| == |endings|;
  }

  // --- Runs of other deciders --------------------------------------------------------------------

  ghost predicate OthersOnly(done: seq<Approvals.Step>) {
    forall i :: 0 <= i < |done| ==> IsOther(done[i])
  }

  lemma {:induction false} RunsJoin(t: Tick, one: seq<Step>, two: seq<Step>)
    requires ValidRun(t, one) && ValidRun(Final(t, one), two)
    ensures ValidRun(t, one + two) && Final(t, one + two) == Final(Final(t, one), two)
    decreases |one|
  {
    if one == [] {
      assert one + two == two;
    } else {
      RunsJoin(Apply(t, one[0]), one[1..], two);
      assert (one + two)[1..] == one[1..] + two;
    }
  }

  /** A run of the tick machine so far: where it began, where it stands, its steps and the
      states between them. */
  datatype History = History(first: Tick, now: Tick, steps: seq<Step>, states: seq<Tick>)

  ghost predicate IsHistory(h: History) {
    && |h.states| == |h.steps| + 1 && h.states[0] == h.first && h.states[|h.steps|] == h.now
    && forall i :: 0 <= i < |h.steps| ==> Enabled(h.states[i], h.steps[i]) && h.states[i + 1] == Apply(h.states[i], h.steps[i])
  }

  lemma OneStep(t: Tick, step: Step)
    requires Enabled(t, step)
    ensures ValidRun(t, [step]) && Final(t, [step]) == Apply(t, step)
  {
    var steps := [step];
    assert steps[0] == step && steps[1..] == [];
    assert Final(Apply(t, step), []) == Apply(t, step);
  }

  lemma {:induction false} HistoryIsRun(h: History)
    requires IsHistory(h)
    ensures ValidRun(h.first, h.steps) && Final(h.first, h.steps) == h.now
    decreases |h.steps|
  {
    if h.steps != [] {
      var n := |h.steps| - 1;
      HistoryIsRun(History(h.first, h.states[n], h.steps[..n], h.states[..n + 1]));
      var last := [h.steps[n]];
      OneStep(h.states[n], h.steps[n]);
      RunsJoin(h.first, h.steps[..n], last);
      assert h.steps == h.steps[..n] + last;
    }
  }

  lemma HistoryIsWellformed(h: History)
    requires IsHistory(h) && Inv(h.first)
    ensures Inv(h.now) && Wellformed(h.now.db) && h.now.due == h.first.due
  {
    HistoryIsRun(h);
    RunKeepsInv(h.first, h.steps);
  }

  lemma HistoryStores(h: History, id: Id)
    requires IsHistory(h) && Inv(h.first) && id in h.now.due
    ensures PendingIffOpen(h.now, id) && EndingIsStored(h.now, id)
  {
    HistoryIsWellformed(h);
  }

  // Committing one decision on a PENDING row writes it and touches nothing else.
  lemma CommitOne(db: Approvals.State, id: Id, d: Decision)
    requires Wellformed(db) && PROCESSOR in db.open && db.open[PROCESSOR] == map[id := d] && IsPending(db, id)
    ensures Approvals.Apply(db, Commit(PROCESSOR)).rows == db.rows[id := db.rows[id].(
              status := d.status, decidedAt := Some(d.at), decidedReason := d.reason, decidedBy := d.actor)]
  {
    assert Clean(db.rows[id]);
  }

  // Where the processor stands tells whether its transaction is open.
  lemma OpenTurn(h: History)
    requires IsHistory(h) && Inv(h.first)
    ensures PROCESSOR in h.now.db.open <==> h.now.turn.Loaded? || h.now.turn.Rejecting?
  {
    HistoryIsWellformed(h);
  }

  lemma FirstHistory(db: Approvals.State, now: int) returns (h: History)
    requires IsStart(db)
    ensures IsHistory(h) && h.first == h.now == Start(db, now)
  {
    h := History(Start(db, now), Start(db, now), [], [Start(db, now)]);
  }

  lemma NextHistory(h: History, step: Step) returns (g: History)
    requires IsHistory(h) && Enabled(h.now, step)
    ensures IsHistory(g) && g.first == h.first && g.now == Apply(h.now, step)
  {
    g := History(h.first, Apply(h.now, step), h.steps + [step], h.states + [Apply(h.now, step)]);
  }

  // Steps of others between two steps of the processor.
  lemma {:induction false} OthersHistory(h: History, done: seq<Approvals.Step>) returns (g: History)
    requires IsHistory(h) && Inv(h.first) && Approvals.ValidRun(h.now.db, done) && OthersOnly(done)
    ensures IsHistory(g) && g.first == h.first && g.now.db == Approvals.Final(h.now.db, done)
    ensures g.now.turn == h.now.turn && g.now.endings == h.now.endings && g.now.due == h.now.due
    ensures done == [] ==> g == h
    decreases |done|
  {
    g := h;
    if done != [] {
      g := NextHistory(h, Other(done[0]));
      g := OthersHistory(g, done[1..]);
    }
  }

  lemma {:induction false} OthersKeep(db: Approvals.State, done: seq<Approvals.Step>)
    requires Wellformed(db) && Approvals.ValidRun(db, done) && OthersOnly(done)
    ensures var f := Approvals.Final(db, done);
            Wellformed(f) && Reminders.KeepsFlags(db.rows, f.rows) && (PROCESSOR in f.open <==> PROCESSOR in db.open)
    decreases |done|
  {
    if done != [] {
      assert IsOther(done[0]);
      Approvals.StepKeepsWellformed(db, done);
      OthersKeep(Approvals.Apply(db, done[0]), done[1..]);
    }
  }

  lemma {:induction false} DbExtend(db: Approvals.State, done: seq<Approvals.Step>, step: Approvals.Step)
    requires Approvals.ValidRun(db, done) && Approvals.Enabled(Approvals.Final(db, done), step)
    ensures Approvals.ValidRun(db, done + [step])
    ensures Approvals.Final(db, done + [step]) == Approvals.Apply(Approvals.Final(db, done), step)
    decreases |done|
  {
    if done == [] {
      Approvals.Prepend(db, step, []);
      assert [] + [step] == [step] + [];
    } else {
      DbExtend(Approvals.Apply(db, done[0]), done[1..], step);
      assert (done + [step])[1..] == done[1..] + [step];
    }
  }

  lemma AfterPass(db: Approvals.State, now: int, h: History)
    requires IsStart(db) && IsHistory(h) && h.first == Start(db, now) && h.now.endings.Keys == DueRows(db.rows, now)
    ensures forall id :: id in DueRows(db.rows, now) ==> (IsPending(h.now.db, id) <==> Failed(h.now.endings[id]) && id !in h.now.others)
    ensures forall id :: id in db.rows ==>
              id in h.now.db.rows && (Due(h.now.db.rows[id], now) ==> id in h.now.endings && Failed(h.now.endings[id]))
  {
    HistoryIsRun(h);
    forall id | id in db.rows
      ensures id in h.now.db.rows && (Due(h.now.db.rows[id], now) ==> id in h.now.endings && Failed(h.now.endings[id]))
    {
      DueAfterTickIff(db, now, h.steps, id);
    }
    forall id | id in DueRows(db.rows, now)
      ensures IsPending(h.now.db, id) <==> Failed(h.now.endings[id]) && id !in h.now.others
    {
      EndOfTickIff(db, now, h.steps, id);
    }
  }

  // --- The processor ---------------------------------------------------------------------------------

  // The dispatch of the automatic execution, or what follows it up to the commit, may fail.
  datatype Dispatch = Applied | DispatchError | DispatchCrash

  datatype Reject = Recorded | RejectError | AuditError

  /** What befalls the turn of a row: steps of others before and between its own steps,
      and the failures of its loads, its dispatch and its rejection. */
  datatype Fate = Fate(
    before: seq<Approvals.Step>, loads: bool, during: seq<Approvals.Step>, dispatch: Dispatch,
    between: seq<Approvals.Step>, loadsAgain: bool, duringAgain: seq<Approvals.Step>, reject: Reject, at: int)

  predicate NoFailure(fate: Fate) {
    fate.loads && fate.loadsAgain && !fate.dispatch.DispatchCrash? && fate.reject.Recorded?
  }

  // Without a failure the turn does not fail, and what is stored bears the time of the turn.
  predicate EndsAs(e: Ending, fate: Fate) {
    (NoFailure(fate) ==> !Failed(e)) && (e.Executed? || e.Expired? ==> e.at == fate.at)
  }

  type Fates = Id -> Fate

  ghost predicate AllEndAs(endings: map<Id, Ending>, fates: Fates) {
    forall id :: id in endings ==> EndsAs(endings[id], fates(id))
  }

  lemma AllEndNext(before: map<Id, Ending>, after: map<Id, Ending>, id: Id, fates: Fates)
    requires AllEndAs(before, fates) && id in after && after == before[id := after[id]] && EndsAs(after[id], fates(id))
    ensures AllEndAs(after, fates)
  {
  }

  lemma DoneGrows(todo: set<Id>, left: set<Id>, id: Id)
    requires left <= todo && id in left
    ensures todo - (left - {id}) == (todo - left) + {id} && id !in todo - left
  {
  }

  // What the pass reports and leaves, from its history.
  lemma PassReport(db: Approvals.State, now: int, g: History, fates: Fates)
    requires IsStart(db) && IsHistory(g) && g.first == Start(db, now) && g.now.endings.Keys == DueRows(db.rows, now)
    requires AllEndAs(g.now.endings, fates)
    ensures var c := CountsOf(g.now.endings);
            && |DueRows(db.rows, now)| == c.autoExecuted + c.rejected + c.errored
            && c.autoExecuted == |set id | id in g.now.endings && g.now.endings[id].Executed?|
            && c.rejected == |set id | id in g.now.endings && (g.now.endings[id].Gone? || g.now.endings[id].Expired? || g.now.endings[id].Swallowed?)
                                                         && !g.now.endings[id].dispatch|
    ensures forall id :: id in DueRows(db.rows, now) ==> (IsPending(g.now.db, id) <==> Failed(g.now.endings[id]) && id !in g.now.others)
    ensures forall id :: id in DueRows(db.rows, now) ==> EndingIsStored(g.now, id)
    ensures (forall id :: id in DueRows(db.rows, now) ==> NoFailure(fates(id))) ==>
              forall id :: id in db.rows ==> id in g.now.db.rows && !Due(g.now.db.rows[id], now)
  {
    OutcomesAddUp(g.now.endings);
    CountsAre(g.now.endings);
    assert |g.now.endings| == |g.now.endings.Keys|;
    AfterPass(db, now, g);
    HistoryIsWellformed(g);
    forall id | id in DueRows(db.rows, now)
      ensures EndingIsStored(g.now, id)
    {
      HistoryStores(g, id);
    }
  }

  /** What befalls a reminder: steps of others before its load, the emission at a given
      time, and the end of its transaction. */
  datatype ReminderFate = ReminderFate(before: seq<Approvals.Step>, at: int, works: bool, commits: bool)

  type ReminderFates = Id -> ReminderFate

  datatype Summary = Summary(expiringSeen: nat, expiringReminded: nat, expiredSeen: nat, counts: Counts)

  // Rows keep their expiry, and only the given ones may have been flagged.
  ghost predicate FlagsOnly(before: Table, after: Table, ids: set<Id>) {
    forall id :: id in before ==>
      && id in after && after[id].expiresAt == before[id].expiresAt
      && (id !in ids ==> after[id].reminderSent == before[id].reminderSent)
  }

  ghost function Flagged(t: Table, ids: set<Id>): set<Id> {
    set id | id in ids && id in t && t[id].reminderSent
  }

  lemma FlaggedNext(before: Table, after: Table, ids: set<Id>, id: Id)
    requires FlagsOnly(before, after, {id}) && id !in ids && ids <= before.Keys && id in before
    ensures |Flagged(after, ids + {id})| == |Flagged(before, ids)| + if after[id].reminderSent then 1 else 0
  {
    assert Flagged(after, ids + {id}) == Flagged(before, ids) + if after[id].reminderSent then {id} else {};
  }

  lemma FlagKeepsWellformed(db: Approvals.State, id: Id)
    requires Wellformed(db) && id in db.rows
    ensures Wellformed(db.(rows := db.rows[id := db.rows[id].(reminderSent := true)]))
  {
    var after := db.(rows := db.rows[id := db.rows[id].(reminderSent := true)]);
    forall tid, r | tid in after.open && r in after.open[tid]
      ensures r in after.rows && !after.open[tid][r].status.Pending?
    {
      assert tid in db.open && r in db.open[tid];
    }
    assert AllClean(after.rows) by {
      assert Clean(db.rows[id]);
    }
  }

  lemma FlagsOnlyJoin(a: Table, b: Table, c: Table, ids: set<Id>, id: Id)
    requires FlagsOnly(a, b, ids) && FlagsOnly(b, c, {id})
    ensures FlagsOnly(a, c, ids + {id})
  {
  }

  // A row due soon whose turn has not come is still unflagged and in its window.
  lemma StillDueSoon(before: Table, current: Table, ids: set<Id>, id: Id, now: int)
    requires FlagsOnly(before, current, ids) && id in Reminders.DueSoonRows(before, now) && id !in ids
    ensures id in current && Reminders.InWindow(current[id], now) && !current[id].reminderSent
  {
  }

  /** Within one tick a row is in at most one of the two passes: one whose expiry has
      passed gets no reminder, unlike what the module text announces. */
  lemma PassesAreDisjoint(before: Table, after: Table, now: int)
    requires FlagsOnly(before, after, Reminders.DueSoonRows(before, now))
    ensures Reminders.DueSoonRows(before, now) !! DueRows(after, now)
  {
    forall id | id in Reminders.DueSoonRows(before, now)
      ensures id !in DueRows(after, now)
    {
      assert id in before && after[id].expiresAt == before[id].expiresAt;
    }
  }

  class TtlProcessor {
    var db: Approvals.State
    var mails: map<Id, seq<int>>

    constructor (db: Approvals.State)
      ensures this.db == db && mails == map[]
    {
      this.db, mails := db, map[];
    }

    // Steps of others that are possible when their time comes.
    method RunOthers(w: seq<Approvals.Step>) returns (ghost done: seq<Approvals.Step>)
      requires Wellformed(db)
      modifies this`db
      ensures Approvals.ValidRun(old(db), done) && Approvals.Final(old(db), done) == db && OthersOnly(done)
      ensures Wellformed(db) && Reminders.KeepsFlags(old(db).rows, db.rows) && (PROCESSOR in db.open <==> PROCESSOR in old(db).open)
      ensures w == [] ==> db == old(db) && done == []
    {
      done := [];
      for i := 0 to |w|
        invariant Approvals.ValidRun(old(db), done) && Approvals.Final(old(db), done) == db && OthersOnly(done)
        invariant w == [] ==> done == []
      {
        if IsOther(w[i]) && Approvals.Enabled(db, w[i]) {
          DbExtend(old(db), done, w[i]);
          db, done := Approvals.Apply(db, w[i]), done + [w[i]];
        }
      }
      OthersKeep(old(db), done);
    }

    // Others step in between two steps of the processor.
    method Interleave(w: seq<Approvals.Step>, ghost h: History) returns (ghost g: History)
      requires IsHistory(h) && Inv(h.first) && h.now.db == db
      modifies this`db
      ensures IsHistory(g) && g.now.db == db && g.first == h.first
      ensures g.now.turn == h.now.turn && g.now.endings == h.now.endings && g.now.due == h.now.due
      ensures w == [] ==> g == h && db == old(db)
    {
      HistoryIsWellformed(h);
      ghost var done := RunOthers(w);
      g := OthersHistory(h, done);
    }

    // The load of the second transaction.
    method LoadForReject(id: Id, dispatch: bool, at: int, ghost h: History) returns (ghost g: History)
      requires IsHistory(h) && Inv(h.first) && h.now.db == db && h.now.turn == Again(id, dispatch) && IsPending(db, id)
      modifies this`db
      ensures IsHistory(g) && g.now.db == db && g.first == h.first
      ensures g.now.turn == Rejecting(id, dispatch, at) && g.now.due == h.now.due && g.now.endings == h.now.endings
      ensures db.rows == old(db).rows && g.now.others == h.now.others
    {
      OpenTurn(h);
      g := NextHistory(h, LoadAgain(at));
      db := Approvals.Apply(db, Read(PROCESSOR, map[id := Expiry(at, dispatch)]));
    }

    // The rejection itself, its audit record and the commit.
    method FinishReject(id: Id, dispatch: bool, fate: Fate, ghost h: History) returns (returned: bool, ghost g: History)
      requires IsHistory(h) && Inv(h.first) && h.now.db == db && h.now.turn == Rejecting(id, dispatch, fate.at)
      modifies this`db
      ensures IsHistory(g) && g.now.db == db && g.first == h.first
      ensures g.now.turn == NoTurn && g.now.due == h.now.due
      ensures id in g.now.endings && g.now.endings == h.now.endings[id := g.now.endings[id]]
      ensures g.now.endings[id] == match fate.reject
                                   case Recorded => Ending.Expired(dispatch, fate.at)
                                   case RejectError => Swallowed(dispatch)
                                   case AuditError => Raised
      ensures returned <==> g.now.endings[id] != Raised
      ensures fate.duringAgain == [] && IsPending(old(db), id) ==>
                g.now.others == h.now.others && db.rows == if !fate.reject.Recorded? then old(db).rows else old(db).rows[id := old(db).rows[id].(
                  status := Status.Expired, decidedAt := Some(fate.at), decidedBy := None, decidedReason := Some(
                    if dispatch then DISPATCH_FAILED_REASON else EXPIRED_REASON))]
    {
      g := Interleave(fate.duringAgain, h);
      OpenTurn(g);
      HistoryIsWellformed(g);
      if IsPending(db, id) {
        CommitOne(db, id, db.open[PROCESSOR][id]);
      }
      if fate.reject.Recorded? {
        g := NextHistory(g, Expire);
        db := Approvals.Apply(db, Commit(PROCESSOR));
      } else {
        g := NextHistory(g, if fate.reject.AuditError? then Raise else Swallow);
        db := Approvals.Apply(db, Rollback(PROCESSOR));
      }
      returned := !fate.reject.AuditError?;
    }

    /** The second transaction of a turn; false when an error escapes from it. */
    method RejectWithAudit(id: Id, dispatch: bool, fate: Fate, ghost h: History) returns (returned: bool, ghost g: History)
      requires IsHistory(h) && Inv(h.first) && h.now.db == db && h.now.turn == Again(id, dispatch)
      modifies this`db
      ensures IsHistory(g) && g.now.db == db && g.first == h.first
      ensures g.now.turn == NoTurn && g.now.due == h.now.due
      ensures id in g.now.endings && g.now.endings == h.now.endings[id := g.now.endings[id]]
      ensures returned <==> g.now.endings[id] != Raised
      ensures returned ==> g.now.endings[id] in {Gone(dispatch), Ending.Expired(dispatch, fate.at), Swallowed(dispatch)}
      ensures NoFailure(fate) ==> !Failed(g.now.endings[id])
      ensures fate.between == [] && fate.duringAgain == [] && IsPending(old(db), id) ==>
                && g.now.others == h.now.others && (returned <==> fate.loadsAgain && !fate.reject.AuditError?)
                && db.rows == if !fate.loadsAgain || !fate.reject.Recorded? then old(db).rows else old(db).rows[id := old(db).rows[id].(
                     status := Status.Expired, decidedAt := Some(fate.at), decidedBy := None, decidedReason := Some(
                       if dispatch then DISPATCH_FAILED_REASON else EXPIRED_REASON))]
    {
      g := Interleave(fate.between, h);
      if !fate.loadsAgain {
        g := NextHistory(g, Raise);
        return false, g;
      }
      if !IsPending(db, id) {
        g := NextHistory(g, FindGoneAgain);
        return true, g;
      }
      g := LoadForReject(id, dispatch, fate.at, g);
      returned, g := FinishReject(id, dispatch, fate, g);
    }

    // The dispatch of an automatic execution and the commit of its approval; a dispatch
    // error leads on to the second transaction.
    method FinishExecution(id: Id, fate: Fate, ghost h: History) returns (ghost g: History)
      requires IsHistory(h) && Inv(h.first) && h.now.db == db && h.now.turn == Loaded(id, fate.at)
      modifies this`db
      ensures IsHistory(g) && g.now.db == db && g.first == h.first && g.now.due == h.now.due
      ensures match fate.dispatch
              case Applied => g.now.turn == NoTurn && g.now.endings == h.now.endings[id := Executed(fate.at)]
              case DispatchCrash => g.now.turn == NoTurn && g.now.endings == h.now.endings[id := Crashed]
              case DispatchError => g.now.turn == Again(id, true) && g.now.endings == h.now.endings
      ensures fate.during == [] && IsPending(old(db), id) ==>
                g.now.others == h.now.others && db.rows == if !fate.dispatch.Applied? then old(db).rows else old(db).rows[id := old(db).rows[id].(
                  status := Approved, decidedAt := Some(fate.at), decidedReason := Some(AUTO_REASON), decidedBy := None)]
    {
      g := Interleave(fate.during, h);
      OpenTurn(g);
      HistoryIsWellformed(g);
      if IsPending(db, id) {
        CommitOne(db, id, db.open[PROCESSOR][id]);
      }
      if fate.dispatch.Applied? {
        g := NextHistory(g, Execute);
        db := Approvals.Apply(db, Commit(PROCESSOR));
      } else {
        g := NextHistory(g, if fate.dispatch.DispatchCrash? then Crash else DispatchFails);
        db := Approvals.Apply(db, Rollback(PROCESSOR));
      }
    }

    // The turn of a PENDING row that is to be executed automatically.
    method ProcessAuto(id: Id, fate: Fate, ghost h: History) returns (outcome: Outcome, ghost g: History)
      requires IsHistory(h) && Inv(h.first) && h.now.db == db && Waiting(h.now, id) && IsPending(db, id) && IsAuto(db, id)
      modifies this`db
      ensures IsHistory(g) && g.now.db == db && g.first == h.first
      ensures g.now.turn == NoTurn && g.now.due == h.now.due
      ensures id in g.now.endings && g.now.endings == h.now.endings[id := g.now.endings[id]]
      ensures outcome == Reported(g.now.endings[id])
      ensures NoFailure(fate) ==> !Failed(g.now.endings[id])
      ensures g.now.endings[id].Executed? || g.now.endings[id].Expired? ==> g.now.endings[id].at == fate.at
      ensures fate.during == [] && fate.between == [] && fate.duringAgain == [] ==>
                && g.now.others == h.now.others
                && outcome == (if fate.dispatch.Applied? then AutoExecuted else Errored)
                && db.rows == match fate.dispatch
                              case Applied => old(db).rows[id := old(db).rows[id].(
                                status := Approved, decidedAt := Some(fate.at), decidedReason := Some(AUTO_REASON), decidedBy := None)]
                              case DispatchCrash => old(db).rows
                              case DispatchError =>
                                if !fate.loadsAgain || !fate.reject.Recorded? then old(db).rows else old(db).rows[id := old(db).rows[id].(
                                  status := Status.Expired, decidedAt := Some(fate.at), decidedBy := None,
                                  decidedReason := Some(DISPATCH_FAILED_REASON))]
    {
      OpenTurn(h);
      g := NextHistory(h, LoadAuto(id, fate.at));
      db := Approvals.Apply(db, Read(PROCESSOR, map[id := AutoApproval(fate.at)]));
      g := FinishExecution(id, fate, g);
      match fate.dispatch {
        case Applied => outcome := AutoExecuted;
        case DispatchCrash => outcome := Errored;
        case DispatchError =>
          var returned;
          returned, g := RejectWithAudit(id, true, fate, g);
          outcome := Errored;
      }
    }

    // The turn of any other PENDING row: its first transaction ends without a write.
    method ProcessPlain(id: Id, fate: Fate, ghost h: History) returns (outcome: Outcome, ghost g: History)
      requires IsHistory(h) && Inv(h.first) && h.now.db == db && Waiting(h.now, id) && IsPending(db, id) && !IsAuto(db, id)
      modifies this`db
      ensures IsHistory(g) && g.now.db == db && g.first == h.first
      ensures g.now.turn == NoTurn && g.now.due == h.now.due
      ensures id in g.now.endings && g.now.endings == h.now.endings[id := g.now.endings[id]]
      ensures outcome == Reported(g.now.endings[id])
      ensures NoFailure(fate) ==> !Failed(g.now.endings[id])
      ensures g.now.endings[id].Executed? || g.now.endings[id].Expired? ==> g.now.endings[id].at == fate.at
      ensures fate.between == [] && fate.duringAgain == [] ==>
                && g.now.others == h.now.others
                && outcome == (if fate.loadsAgain && !fate.reject.AuditError? then Rejected else Errored)
                && db.rows == if !fate.loadsAgain || !fate.reject.Recorded? then old(db).rows else old(db).rows[id := old(db).rows[id].(
                     status := Status.Expired, decidedAt := Some(fate.at), decidedBy := None, decidedReason := Some(EXPIRED_REASON))]
    {
      g := NextHistory(h, LoadPlain(id));
      var returned;
      returned, g := RejectWithAudit(id, false, fate, g);
      outcome := if returned then Rejected else Errored;
    }

    // The turn itself; if nobody steps in, these are the rows and the outcome.
    method RunTurn(id: Id, fate: Fate, ghost h: History) returns (outcome: Outcome, ghost g: History)
      requires IsHistory(h) && Inv(h.first) && h.now.db == db && Waiting(h.now, id)
      modifies this`db
      ensures IsHistory(g) && g.now.db == db && g.first == h.first
      ensures g.now.turn == NoTurn && g.now.due == h.now.due
      ensures id in g.now.endings && g.now.endings == h.now.endings[id := g.now.endings[id]]
      ensures outcome == Reported(g.now.endings[id])
      ensures NoFailure(fate) ==> !Failed(g.now.endings[id])
      ensures g.now.endings[id].Executed? || g.now.endings[id].Expired? ==> g.now.endings[id].at == fate.at
      ensures fate.before == [] && fate.during == [] && fate.between == [] && fate.duringAgain == [] ==>
                if !fate.loads then outcome == Errored && db.rows == old(db).rows && g.now.others == h.now.others
                else if !(id in old(db).rows && old(db).rows[id].status.Pending?) then
                  outcome == Rejected && db.rows == old(db).rows && g.now.others == h.now.others
                else if old(db).rows[id].resourceType == Some(AUTO_EXECUTE) then
                && g.now.others == h.now.others
                && outcome == (if fate.dispatch.Applied? then AutoExecuted else Errored)
                && db.rows == match fate.dispatch
                              case Applied => old(db).rows[id := old(db).rows[id].(
                                status := Approved, decidedAt := Some(fate.at), decidedReason := Some(AUTO_REASON), decidedBy := None)]
                              case DispatchCrash => old(db).rows
                              case DispatchError =>
                                if !fate.loadsAgain || !fate.reject.Recorded? then old(db).rows else old(db).rows[id := old(db).rows[id].(
                                  status := Status.Expired, decidedAt := Some(fate.at), decidedBy := None,
                                  decidedReason := Some(DISPATCH_FAILED_REASON))]
                else
                  && g.now.others == h.now.others
                  && outcome == (if fate.loadsAgain && !fate.reject.AuditError? then Rejected else Errored)
                  && db.rows == if !fate.loadsAgain || !fate.reject.Recorded? then old(db).rows else old(db).rows[id := old(db).rows[id].(
                       status := Status.Expired, decidedAt := Some(fate.at), decidedBy := None,
                       decidedReason := Some(EXPIRED_REASON))]
    {
      HistoryIsWellformed(h);
      g := Interleave(fate.before, h);
      if !fate.loads {
        g := NextHistory(g, LoadFails(id));
        return Errored, g;
      }
      if !IsPending(db, id) {
        g := NextHistory(g, FindGone(id));
        return Rejected, g;
      }
      if IsAuto(db, id) {
        outcome, g := ProcessAuto(id, fate, g);
      } else {
        outcome, g := ProcessPlain(id, fate, g);
      }
    }

    /** The turn of one row, as a run of the tick machine. Unless somebody else decides the
        row, it stores what the ending says; and if nobody steps in at all, these are the
        rows and the outcome. */
    method ProcessExpired(id: Id, fate: Fate, ghost h: History) returns (outcome: Outcome, ghost g: History)
      requires IsHistory(h) && Inv(h.first) && h.now.db == db && Waiting(h.now, id)
      modifies this`db
      ensures IsHistory(g) && g.now.db == db && g.first == h.first
      ensures g.now.turn == NoTurn && g.now.due == h.now.due
      ensures id in g.now.endings && g.now.endings == h.now.endings[id := g.now.endings[id]]
      ensures outcome == Reported(g.now.endings[id])
      ensures NoFailure(fate) ==> !Failed(g.now.endings[id])
      ensures g.now.endings[id].Executed? || g.now.endings[id].Expired? ==> g.now.endings[id].at == fate.at
      ensures id in db.rows && (id !in g.now.others ==>
                match g.now.endings[id]
                case Executed(at) =>
                  && outcome == AutoExecuted && db.rows[id].resourceType == Some(AUTO_EXECUTE)
                  && db.rows[id].status == Approved && db.rows[id].decidedAt == Some(fate.at)
                  && db.rows[id].decidedReason == Some(AUTO_REASON) && db.rows[id].decidedBy == None
                case Expired(dispatch, at) =>
                  && outcome == (if dispatch then Errored else Rejected)
                  && (dispatch <==> db.rows[id].resourceType == Some(AUTO_EXECUTE))
                  && db.rows[id].status == Status.Expired && db.rows[id].decidedAt == Some(fate.at) && db.rows[id].decidedBy == None
                  && db.rows[id].decidedReason == Some(
                       if dispatch then DISPATCH_FAILED_REASON else EXPIRED_REASON)
                case Gone(_) => false
                case Swallowed(dispatch) => outcome == (if dispatch then Errored else Rejected) && db.rows[id].status.Pending?
                case _ => outcome == Errored && db.rows[id].status.Pending?)
      ensures fate.before == [] && fate.during == [] && fate.between == [] && fate.duringAgain == [] ==>
                if !fate.loads then outcome == Errored && db.rows == old(db).rows && g.now.others == h.now.others
                else if !(id in old(db).rows && old(db).rows[id].status.Pending?) then
                  outcome == Rejected && db.rows == old(db).rows && g.now.others == h.now.others
                else if old(db).rows[id].resourceType == Some(AUTO_EXECUTE) then
                && g.now.others == h.now.others
                && outcome == (if fate.dispatch.Applied? then AutoExecuted else Errored)
                && db.rows == match fate.dispatch
                              case Applied => old(db).rows[id := old(db).rows[id].(
                                status := Approved, decidedAt := Some(fate.at), decidedReason := Some(AUTO_REASON), decidedBy := None)]
                              case DispatchCrash => old(db).rows
                              case DispatchError =>
                                if !fate.loadsAgain || !fate.reject.Recorded? then old(db).rows else old(db).rows[id := old(db).rows[id].(
                                  status := Status.Expired, decidedAt := Some(fate.at), decidedBy := None,
                                  decidedReason := Some(DISPATCH_FAILED_REASON))]
                else
                  && g.now.others == h.now.others
                  && outcome == (if fate.loadsAgain && !fate.reject.AuditError? then Rejected else Errored)
                  && db.rows == if !fate.loadsAgain || !fate.reject.Recorded? then old(db).rows else old(db).rows[id := old(db).rows[id].(
                       status := Status.Expired, decidedAt := Some(fate.at), decidedBy := None,
                       decidedReason := Some(EXPIRED_REASON))]
    {
      outcome, g := RunTurn(id, fate, h);
      HistoryStores(g, id);
    }

    // A turn counted.
    method TakeTurn(id: Id, fates: Fates, before: Counts, ghost h: History) returns (counts: Counts, ghost g: History)
      requires IsHistory(h) && Inv(h.first) && h.now.db == db && Waiting(h.now, id)
      requires before == CountsOf(h.now.endings) && AllEndAs(h.now.endings, fates)
      modifies this`db
      ensures IsHistory(g) && g.now.db == db && g.first == h.first
      ensures g.now.turn == NoTurn && g.now.due == h.now.due && g.now.endings.Keys == h.now.endings.Keys + {id}
      ensures counts == CountsOf(g.now.endings) && AllEndAs(g.now.endings, fates)
    {
      var outcome;
      outcome, g := ProcessExpired(id, fates(id), h);
      CountsNext(h.now.endings, id, g.now.endings[id]);
      AllEndNext(h.now.endings, g.now.endings, id, fates);
      counts := CountOne(before, outcome);
    }

    // One turn after the other.
    method TakeTurns(todo: set<Id>, fates: Fates, ghost h: History) returns (counts: Counts, ghost g: History)
      requires IsHistory(h) && Inv(h.first) && h.now.db == db && h.now.turn == NoTurn && h.now.due == todo && h.now.endings == map[]
      modifies this`db
      ensures IsHistory(g) && g.first == h.first && g.now.db == db && g.now.endings.Keys == todo
      ensures counts == CountsOf(g.now.endings)
      ensures AllEndAs(g.now.endings, fates)
    {
      counts, g := Counts(0, 0, 0), h;
      NoCounts();
      var left := todo;
      while left != {}
        invariant left <= todo && g.now.endings.Keys == todo - left
        invariant IsHistory(g) && g.first == h.first && g.now.db == db && g.now.turn == NoTurn && g.now.due == todo
        invariant counts == CountsOf(g.now.endings)
        invariant AllEndAs(g.now.endings, fates)
        decreases |left|
      {
        var id := Pick(left);
        DoneGrows(todo, left, id);
        counts, g := TakeTurn(id, fates, counts, g);
        left := left - {id};
      }
    }

    /** The pass over the due rows. What it reports adds up; a row is left PENDING exactly
        if its own turn failed and nobody else has decided it; without failures none is. */
    method ExpiryPass(now: int, fates: Fates) returns (seen: nat, counts: Counts, ghost g: History)
      requires IsStart(db)
      modifies this`db
      ensures IsHistory(g) && g.first == Start(old(db), now) && g.now.db == db && g.now.endings.Keys == DueRows(old(db).rows, now)
      ensures seen == |DueRows(old(db).rows, now)| == counts.autoExecuted + counts.rejected + counts.errored
      ensures counts == CountsOf(g.now.endings)
      ensures forall id :: id in DueRows(old(db).rows, now) ==> (IsPending(db, id) <==> Failed(g.now.endings[id]) && id !in g.now.others)
      ensures (forall id :: id in DueRows(old(db).rows, now) ==> NoFailure(fates(id))) ==>
                forall id :: id in old(db).rows ==> id in db.rows && !Due(db.rows[id], now)
      ensures AllEndAs(g.now.endings, fates) && forall id :: id in DueRows(old(db).rows, now) ==> EndingIsStored(g.now, id)
      ensures DueRows(old(db).rows, now) == set id | id in old(db).rows && old(db).rows[id].status.Pending?
                && old(db).rows[id].expiresAt.Some? && old(db).rows[id].expiresAt.value <= now
      ensures counts.autoExecuted == |set id | id in g.now.endings && g.now.endings[id].Executed?|
      ensures counts.rejected == |set id | id in g.now.endings && (g.now.endings[id].Gone? || g.now.endings[id].Expired? || g.now.endings[id].Swallowed?)
                                                               && !g.now.endings[id].dispatch|
    {
      var todo := DueRows(db.rows, now);
      seen := |todo|;
      g := FirstHistory(db, now);
      counts, g := TakeTurns(todo, fates, g);
      PassReport(old(db), now, g, fates);
    }

    /** One reminder: re-check, emit, flag. The emission is out before the flag commits. */
    method SendReminder(id: Id, now: int, fate: ReminderFate) returns (sentNow: bool, ghost steps: seq<Reminders.Step>)
      requires Wellformed(db) && id in db.rows && Reminders.InWindow(db.rows[id], now)
      modifies this
      ensures Reminders.Reached(Reminders.World(old(db).rows, old(mails), map[]), steps, Reminders.World(db.rows, mails, map[]))
      ensures Wellformed(db) && (PROCESSOR in db.open <==> PROCESSOR in old(db).open) && FlagsOnly(old(db).rows, db.rows, {id})
      ensures sentNow <==> db.rows[id].reminderSent && !old(db).rows[id].reminderSent
      ensures fate.before == [] ==>
                var row, was := old(db).rows[id], if id in old(mails) then old(mails)[id] else [];
                var due := row.status.Pending? && !row.reminderSent && row.expiresAt.Some?;
                && sentNow == (due && fate.commits)
                && db.rows == (if due && fate.commits then old(db).rows[id := row.(reminderSent := true)] else old(db).rows)
                && (if id in mails then mails[id] else [])
                   == (if due && fate.works && (was == [] || fate.at >= was[|was| - 1] + 3600) then was + [fate.at] else was)
                && forall other :: other != id ==> (other in mails <==> other in old(mails)) && (other in mails ==> mails[other] == old(mails)[other])
    {
      ghost var w := Reminders.World(db.rows, mails, map[]);
      ghost var done := RunOthers(fate.before);
      var row := db.rows[id];
      if !row.status.Pending? || row.reminderSent || row.expiresAt.None? {
        Reminders.OnlyChange(w, db.rows);
        return false, [Reminders.Change(db.rows)] + [];
      }
      Reminders.ChangeAndAttempt(w, db.rows, id, now, fate.at, fate.works, fate.commits);
      steps := [Reminders.Change(db.rows)] + Reminders.AttemptSteps(id, now, fate.at, fate.works, fate.commits);
      if fate.works {
        mails := mails[id := Reminders.Notify(if id in mails then mails[id] else [], fate.at)];
      }
      if fate.commits {
        FlagKeepsWellformed(db, id);
        db := db.(rows := db.rows[id := row.(reminderSent := true)]);
      }
      sentNow := fate.commits;
    }

    // One more reminder of the pass.
    method RemindNext(id: Id, now: int, fate: ReminderFate, ghost first: Table, ghost done: set<Id>, ghost w: Reminders.World, ghost before: seq<Reminders.Step>)
      returns (one: nat, ghost steps: seq<Reminders.Step>)
      requires Wellformed(db) && id in db.rows && Reminders.InWindow(db.rows[id], now) && !db.rows[id].reminderSent
      requires FlagsOnly(first, db.rows, done) && id !in done && done <= db.rows.Keys
      requires Reminders.Reached(w, before, Reminders.World(db.rows, mails, map[]))
      modifies this
      ensures Wellformed(db) && (PROCESSOR in db.open <==> PROCESSOR in old(db).open)
      ensures Reminders.Reached(w, steps, Reminders.World(db.rows, mails, map[]))
      ensures FlagsOnly(first, db.rows, done + {id})
      ensures |Flagged(db.rows, done + {id})| == |Flagged(old(db).rows, done)| + one
    {
      ghost var rows, v := db.rows, Reminders.World(db.rows, mails, map[]);
      ghost var more;
      var sentNow;
      sentNow, more := SendReminder(id, now, fate);
      Reminders.ReachedJoin(w, before, v, more, Reminders.World(db.rows, mails, map[]));
      FlaggedNext(rows, db.rows, done, id);
      FlagsOnlyJoin(first, rows, db.rows, done, id);
      one, steps := if sentNow then 1 else 0, before + more;
    }

    /** The pass over the rows due soon; it counts the rows it flags. */
    method ReminderPass(now: int, fates: ReminderFates) returns (seen: nat, reminded: nat, ghost steps: seq<Reminders.Step>)
      requires Wellformed(db)
      modifies this
      ensures Reminders.Reached(Reminders.World(old(db).rows, old(mails), map[]), steps, Reminders.World(db.rows, mails, map[]))
      ensures Wellformed(db) && (PROCESSOR in db.open <==> PROCESSOR in old(db).open)
      ensures FlagsOnly(old(db).rows, db.rows, Reminders.DueSoonRows(old(db).rows, now))
      ensures seen == |Reminders.DueSoonRows(old(db).rows, now)|
      ensures reminded == |Flagged(db.rows, Reminders.DueSoonRows(old(db).rows, now))|
      ensures seen == |set id | id in old(db).rows && old(db).rows[id].status.Pending? && !old(db).rows[id].reminderSent
                                && old(db).rows[id].expiresAt.Some? && now < old(db).rows[id].expiresAt.value <= now + 24 * 3600|
    {
      var todo := Reminders.DueSoonRows(db.rows, now);
      assert todo == set id | id in db.rows && db.rows[id].status.Pending? && !db.rows[id].reminderSent
                              && db.rows[id].expiresAt.Some? && now < db.rows[id].expiresAt.value <= now + 24 * 3600;
      seen, reminded, steps := |todo|, 0, [];
      ghost var first, w := db.rows, Reminders.World(db.rows, mails, map[]);
      var left := todo;
      while left != {}
        invariant left <= todo && Wellformed(db) && (PROCESSOR in db.open <==> PROCESSOR in old(db).open)
        invariant Reminders.Reached(w, steps, Reminders.World(db.rows, mails, map[]))
        invariant FlagsOnly(first, db.rows, todo - left)
        invariant reminded == |Flagged(db.rows, todo - left)|
        decreases |left|
      {
        var id := Pick(left);
        StillDueSoon(first, db.rows, todo - left, id, now);
        var one;
        one, steps := RemindNext(id, now, fates(id), first, todo - left, w, steps);
        reminded := reminded + one;
        assert todo - (left - {id}) == (todo - left) + {id};
        left := left - {id};
      }
      assert todo - {} == todo;
    }

    /** A whole tick: its counters add up, its reminders are a run of the reminder machine
        and its turns one of the tick machine, from the rows the reminders leave. */
    method ProcessExpiredApprovals(now: int, reminders: ReminderFates, fates: Fates)
      returns (s: Summary, ghost steps: seq<Reminders.Step>, ghost middle: Approvals.State, ghost g: History)
      requires IsStart(db)
      modifies this
      ensures Reminders.Reached(Reminders.World(old(db).rows, old(mails), map[]), steps, Reminders.World(middle.rows, mails, map[]))
      ensures IsHistory(g) && g.first == Start(middle, now) && g.now.db == db && g.now.endings.Keys == DueRows(middle.rows, now)
      ensures s.expiringSeen == |Reminders.DueSoonRows(old(db).rows, now)| >= s.expiringReminded
      ensures s.expiredSeen == |DueRows(middle.rows, now)| == s.counts.autoExecuted + s.counts.rejected + s.counts.errored
      ensures s.counts == CountsOf(g.now.endings)
      ensures Reminders.DueSoonRows(old(db).rows, now) !! DueRows(middle.rows, now)
      ensures (forall id :: id in DueRows(middle.rows, now) ==> NoFailure(fates(id))) ==>
                forall id :: id in old(db).rows ==> id in db.rows && !Due(db.rows[id], now)
    {
      var todo := Reminders.DueSoonRows(db.rows, now);
      ghost var rows := db.rows;
      var seen, reminded;
      seen, reminded, steps := ReminderPass(now, reminders);
      middle := db;
      PassesAreDisjoint(rows, middle.rows, now);
      SubsetSize(Flagged(middle.rows, todo), todo);
      var expired, counts;
      expired, counts, g := ExpiryPass(now, fates);
      s := Summary(seen, reminded, expired, counts);
    }
  }
}
