/** The request side of the gateway queue: pollers that claim rows under
    FOR UPDATE SKIP LOCKED race with inserts and with three bulk updates. */
module GatewayQueue {
  import opened Seqs

  type RowId = nat
  type Poller = nat
  type Txn = nat

  datatype Direction = Request | Event

  datatype Status = Pending | Delivered | Acked | Expired | Failed | Emitted

  datatype Row = Row(
    adapter: nat, run: nat, direction: Direction, kind: string, seqNo: int,
    status: Status, createdAt: int, claimedAt: Option<int>)

  type Table = map<RowId, Row>

  const CANCEL_KIND := "cancel"
  const RUN_KIND := "run"

  // --- Queries -----------------------------------------------------------

  predicate Claimable(r: Row, adapter: nat) {
    r.adapter == adapter && r.direction.Request? && r.status.Pending?
  }

  predicate NotAfter(a: Row, b: Row) {
    a.createdAt < b.createdAt || (a.createdAt == b.createdAt && a.seqNo <= b.seqNo)
  }

  /** `ids` is an answer the database may give to the locking select: the first
      `limit` claimable rows, oldest first, among those nobody has locked. */
  ghost predicate IsSelection(t: Table, locked: set<RowId>, adapter: nat, limit: nat, ids: seq<RowId>) {
    && NoDup(ids)
    && |ids| <= limit
    && (forall i :: 0 <= i < |ids| ==> ids[i] in t && ids[i] !in locked && Claimable(t[ids[i]], adapter))
    && (forall i, j :: 0 <= i < j < |ids| ==> NotAfter(t[ids[i]], t[ids[j]]))
    && (forall id :: id in t && id !in locked && Claimable(t[id], adapter) && id !in ids ==>
          |ids| == limit && forall i :: 0 <= i < |ids| ==> NotAfter(t[ids[i]], t[id]))
  }

  // The table constraint uq_gateway_messages_run_direction_seq.
  predicate SameKey(a: Row, b: Row) {
    a.run == b.run && a.direction == b.direction && a.seqNo == b.seqNo
  }

  ghost predicate UniqueKeys(t: Table) {
    forall a, b :: a in t && b in t && a != b ==> !SameKey(t[a], t[b])
  }

  ghost predicate CanInsert(t: Table, id: RowId, row: Row) {
    id !in t && forall a :: a in t ==> !SameKey(t[a], row)
  }

  // --- Updates -----------------------------------------------------------

  datatype Update = CancelPending(run: nat) | AckRun(run: nat) | MarkTerminal(run: nat, to: Status)

  predicate Matches(u: Update, r: Row) {
    && r.direction.Request?
    && r.run == u.run
    && match u
       case MarkTerminal(_, _) => r.status != Acked
       case _ => r.status == Pending || r.status == Delivered
  }

  function NewStatus(u: Update): Status {
    match u
    case CancelPending(_) => Failed
    case AckRun(_) => Acked
    case MarkTerminal(_, to) => to
  }

  function Matching(t: Table, u: Update): set<RowId> {
    set id | id in t && Matches(u, t[id])
  }

  function ApplyUpdate(t: Table, u: Update, ids: set<RowId>): Table {
    map id | id in t :: if id in ids then t[id].(status := NewStatus(u)) else t[id]
  }

  function MarkDelivered(t: Table, ids: seq<RowId>, now: int): Table {
    map id | id in t :: if id in ids then t[id].(status := Delivered, claimedAt := Some(now)) else t[id]
  }

  // --- The protocol ------------------------------------------------------

  // A cancel that has chosen its number and not yet inserted its notice.
  datatype Cancel = Cancel(run: nat, seqNo: int)

  /** `claims` holds the rows each poller has locked and not yet committed; `cancels`
      the cancels between their scan and their insert; `returned` lists every row id a
      committed claim has handed to a worker. */
  datatype State = State(table: Table, claims: map<Poller, seq<RowId>>, cancels: map<Txn, Cancel>, returned: seq<RowId>)

  // Sequence numbers used by request rows of the run.
  function UsedSeqs(t: Table, run: nat): set<int> {
    set id | id in t && t[id].run == run && t[id].direction.Request? :: t[id].seqNo
  }

  ghost predicate IsFirstFree(used: set<int>, start: int, n: int) {
    start <= n && n !in used && forall m :: start <= m < n ==> m in used
  }

  /** One visible event. `held` are rows locked by other open transactions. A bulk
      update takes any set of matching rows, which covers the rows a statement
      misses because they were committed after it started. */
  datatype Step =
    | Insert(id: RowId, row: Row)
    | Select(poller: Poller, adapter: nat, limit: nat, held: set<RowId>, ids: seq<RowId>)
    | Deliver(poller: Poller, now: int)
    | Abort(poller: Poller)
    | Write(update: Update, rows: set<RowId>)
    | ScanCancel(txn: Txn, run: nat, start: int, seqNo: int)
    | CommitCancel(txn: Txn, id: RowId, row: Row, rows: set<RowId>)
    | RefuseCancel(txn: Txn)
    | AbandonCancel(txn: Txn)

  ghost function Locked(s: State): set<RowId> {
    set p, i | p in s.claims && 0 <= i < |s.claims[p]| :: s.claims[p][i]
  }

  ghost predicate Enabled(s: State, step: Step) {
    match step
    case Insert(id, row) =>
      CanInsert(s.table, id, row) && row.status == (if row.direction.Request? then Pending else Emitted)
    case Select(p, adapter, limit, held, ids) =>
      p !in s.claims && ids != [] && IsSelection(s.table, Locked(s) + held, adapter, limit, ids)
    case Deliver(p, _) => p in s.claims
    case Abort(p) => p in s.claims
    case Write(u, ids) => ids <= Matching(s.table, u) && ids !! Locked(s)
    // The adapter's cancel reads the used numbers first. Its insert comes later, and
    // its bulk cancel sees that insert.
    case ScanCancel(txn, run, start, n) => txn !in s.cancels && IsFirstFree(UsedSeqs(s.table, run), start, n)
    case CommitCancel(txn, id, row, ids) =>
      && txn in s.cancels && s.cancels[txn] == Cancel(row.run, row.seqNo)
      && CanInsert(s.table, id, row) && row.direction.Request? && row.status == Pending
      && id in ids && ids <= Matching(s.table[id := row], CancelPending(row.run)) && ids !! Locked(s)
    // The unique key refuses the insert and the whole transaction is rolled back.
    case RefuseCancel(txn) => txn in s.cancels && s.cancels[txn].seqNo in UsedSeqs(s.table, s.cancels[txn].run)
    case AbandonCancel(txn) => txn in s.cancels
  }

  ghost function Apply(s: State, step: Step): State
    requires Enabled(s, step)
  {
    match step
    case Insert(id, row) => s.(table := s.table[id := row])
    case Select(p, _, _, _, ids) => s.(claims := s.claims[p := ids])
    case Deliver(p, now) =>
      State(MarkDelivered(s.table, s.claims[p], now), s.claims - {p}, s.cancels, s.returned + s.claims[p])
    case Abort(p) => s.(claims := s.claims - {p})
    case Write(u, ids) => s.(table := ApplyUpdate(s.table, u, ids))
    case ScanCancel(txn, run, _, n) => s.(cancels := s.cancels[txn := Cancel(run, n)])
    case CommitCancel(txn, id, row, ids) =>
      s.(table := ApplyUpdate(s.table[id := row], CancelPending(row.run), ids), cancels := s.cancels - {txn})
    case RefuseCancel(txn) => s.(cancels := s.cancels - {txn})
    case AbandonCancel(txn) => s.(cancels := s.cancels - {txn})
  }

  ghost predicate ValidRun(s: State, steps: seq<Step>)
    decreases |steps|
  {
    steps == [] || (Enabled(s, steps[0]) && ValidRun(Apply(s, steps[0]), steps[1..]))
  }

  ghost function Final(s: State, steps: seq<Step>): State
    requires ValidRun(s, steps)
    decreases |steps|
  {
    if steps == [] then s else Final(Apply(s, steps[0]), steps[1..])
  }

  // Nothing has been claimed yet; rows may have any status.
  ghost predicate Initial(s: State) {
    s.claims == map[] && s.cancels == map[] && s.returned == [] && UniqueKeys(s.table)
  }

  predicate KeepsOutOfPending(step: Step) {
    step.Write? && step.update.MarkTerminal? ==> step.update.to != Pending
  }

  ghost predicate AllSafe(steps: seq<Step>) {
    forall i :: 0 <= i < |steps| ==> KeepsOutOfPending(steps[i])
  }

  // --- Invariant ---------------------------------------------------------

  ghost predicate ClaimsPending(s: State) {
    forall p, i :: p in s.claims && 0 <= i < |s.claims[p]| ==>
      s.claims[p][i] in s.table && s.table[s.claims[p][i]].status == Pending
  }

  ghost predicate ClaimsDisjoint(s: State) {
    forall p, q, i, j ::
      (p in s.claims && q in s.claims && 0 <= i < |s.claims[p]| && 0 <= j < |s.claims[q]|
       && s.claims[p][i] == s.claims[q][j]) ==> p == q && i == j
  }

  ghost predicate ReturnedGone(s: State) {
    forall i :: 0 <= i < |s.returned| ==> s.returned[i] in s.table && s.table[s.returned[i]].status != Pending
  }

  ghost predicate Inv(s: State) {
    && UniqueKeys(s.table) && ClaimsPending(s) && ClaimsDisjoint(s)
    && ReturnedGone(s) && NoDup(s.returned)
  }

  // Row locks alone keep claimed rows PENDING, whatever terminal updates write.
  lemma StepKeepsClaims(s: State, step: Step)
    requires ClaimsPending(s) && ClaimsDisjoint(s) && Enabled(s, step)
    ensures ClaimsPending(Apply(s, step)) && ClaimsDisjoint(Apply(s, step))
  {
    forall p, i | p in s.claims && 0 <= i < |s.claims[p]|
      ensures s.claims[p][i] in Locked(s)
    {
    }
    if step.Deliver? {
      assert forall p :: p in Apply(s, step).claims ==> p in s.claims && p != step.poller;
    }
  }

  lemma StepKeepsInv(s: State, step: Step)
    requires Inv(s) && Enabled(s, step) && KeepsOutOfPending(step)
    ensures Inv(Apply(s, step))
  {
    StepKeepsClaims(s, step);
    if step.Deliver? {
      assert forall i :: 0 <= i < |s.claims[step.poller]| ==> s.claims[step.poller][i] !in s.returned;
    } else if step.CommitCancel? {
      assert UniqueKeys(s.table[step.id := step.row]);
    }
  }

  lemma {:induction false} RunKeepsInv(s: State, steps: seq<Step>)
    requires Inv(s) && ValidRun(s, steps) && AllSafe(steps)
    ensures Inv(Final(s, steps))
    decreases |steps|
  {
    if steps != [] {
      StepKeepsInv(s, steps[0]);
      RunKeepsInv(Apply(s, steps[0]), steps[1..]);
    }
  }

  /** In every interleaving no row is returned by two claims, the rows locked by
      open claims never overlap, and the unique key holds. */
  lemma ClaimsAreExclusive(s: State, steps: seq<Step>)
    requires Initial(s) && ValidRun(s, steps) && AllSafe(steps)
    ensures NoDup(Final(s, steps).returned)
    ensures ClaimsDisjoint(Final(s, steps))
    ensures UniqueKeys(Final(s, steps).table)
  {
    RunKeepsInv(s, steps);
  }

  /** A row that has left PENDING stays out of it, and no later claim returns it. */
  lemma {:induction false} NeverBackToPending(s: State, steps: seq<Step>, id: RowId)
    requires Inv(s) && ValidRun(s, steps) && AllSafe(steps)
    requires id in s.table && s.table[id].status != Pending
    ensures id in Final(s, steps).table && Final(s, steps).table[id].status != Pending
    ensures id in Final(s, steps).returned <==> id in s.returned
    decreases |steps|
  {
    if steps != [] {
      StepKeepsInv(s, steps[0]);
      NeverBackToPending(Apply(s, steps[0]), steps[1..], id);
    }
  }

  /** ACKED is absorbing whatever the terminal updates write: the row never
      changes again in any column. */
  lemma {:induction false} AckedIsAbsorbing(s: State, steps: seq<Step>, id: RowId)
    requires ClaimsPending(s) && ClaimsDisjoint(s) && ValidRun(s, steps)
    requires id in s.table && s.table[id].status == Acked
    ensures id in Final(s, steps).table && Final(s, steps).table[id] == s.table[id]
    decreases |steps|
  {
    if steps != [] {
      StepKeepsClaims(s, steps[0]);
      AckedIsAbsorbing(Apply(s, steps[0]), steps[1..], id);
    }
  }

  // --- The cancel notice -------------------------------------------------

  /** The row that the adapter's cancel inserts so that "the next poll" tells the
      worker is failed by the same transaction: no claim ever returns it. */
  lemma CancelNoticeIsNeverDelivered(s: State, step: Step, rest: seq<Step>)
    requires Inv(s) && step.CommitCancel? && Enabled(s, step)
    requires ValidRun(Apply(s, step), rest) && AllSafe(rest)
    ensures step.id !in Final(Apply(s, step), rest).returned
    ensures step.id in Final(Apply(s, step), rest).table
    ensures Final(Apply(s, step), rest).table[step.id].status != Pending
  {
    StepKeepsInv(s, step);
    NeverBackToPending(Apply(s, step), rest, step.id);
  }

  // --- Which terminal status is safe -------------------------------------

  ghost predicate WritesOnly(steps: seq<Step>, to: Status) {
    forall i :: 0 <= i < |steps| && steps[i].Write? && steps[i].update.MarkTerminal? ==> steps[i].update.to == to
  }

  ghost predicate SafeTerminalStatus(to: Status) {
    forall s, steps :: Initial(s) && ValidRun(s, steps) && WritesOnly(steps, to) ==> NoDup(Final(s, steps).returned)
  }

  // A table with one row, claimed by nobody.
  ghost function OneRow(row: Row, returned: seq<RowId>): State {
    State(map[1 := row], map[], map[], returned)
  }

  lemma Prepend(s: State, step: Step, rest: seq<Step>)
    requires Enabled(s, step) && ValidRun(Apply(s, step), rest)
    ensures ValidRun(s, [step] + rest) && Final(s, [step] + rest) == Final(Apply(s, step), rest)
  {
    assert ([step] + rest)[1..] == rest;
  }

  lemma ClaimOneRow(row: Row, returned: seq<RowId>, rest: seq<Step>) returns (steps: seq<Step>)
    requires Claimable(row, 0)
    requires ValidRun(OneRow(row.(status := Delivered, claimedAt := Some(0)), returned + [1]), rest)
    ensures ValidRun(OneRow(row, returned), steps)
    ensures Final(OneRow(row, returned), steps)
            == Final(OneRow(row.(status := Delivered, claimedAt := Some(0)), returned + [1]), rest)
    ensures WritesOnly(rest, Pending) ==> WritesOnly(steps, Pending)
  {
    var s := OneRow(row, returned);
    var select := Select(0, 0, 1, {}, [1]);
    assert Enabled(s, select);
    var locked := Apply(s, select);
    assert locked.claims[0] == [1];
    assert Apply(locked, Deliver(0, 0)) == OneRow(row.(status := Delivered, claimedAt := Some(0)), returned + [1]);
    Prepend(locked, Deliver(0, 0), rest);
    Prepend(s, select, [Deliver(0, 0)] + rest);
    steps := [select] + ([Deliver(0, 0)] + rest);
  }

  lemma DeliverTwice(row: Row) returns (steps: seq<Step>)
    requires Claimable(row, 0)
    ensures ValidRun(OneRow(row, []), steps) && WritesOnly(steps, Pending)
    ensures Final(OneRow(row, []), steps).returned == [1, 1]
  {
    var delivered := row.(status := Delivered, claimedAt := Some(0));
    var reopened := delivered.(status := Pending);
    var reopen := Write(MarkTerminal(row.run, Pending), {1});
    var again := ClaimOneRow(reopened, [1], []);
    assert Apply(OneRow(delivered, [1]), reopen) == OneRow(reopened, [1]);
    Prepend(OneRow(delivered, [1]), reopen, again);
    assert [] + [1] == [1];
    steps := ClaimOneRow(row, [], [reopen] + again);
  }

  lemma PendingTerminalDeliversTwice()
    ensures !SafeTerminalStatus(Pending)
  {
    var row := Row(0, 7, Request, "run", 0, Pending, 0, None);
    var steps := DeliverTwice(row);
    var returned := Final(OneRow(row, []), steps).returned;
    assert returned[0] == returned[1];
  }

  /** Marking a run terminal keeps single delivery exactly when the status the
      caller passes is not PENDING. */
  lemma TerminalStatusIsSafeIff(to: Status)
    ensures SafeTerminalStatus(to) <==> to != Pending
  {
    if to != Pending {
      forall s, steps | Initial(s) && ValidRun(s, steps) && WritesOnly(steps, to)
        ensures NoDup(Final(s, steps).returned)
      {
        ClaimsAreExclusive(s, steps);
      }
    } else {
      PendingTerminalDeliversTwice();
    }
  }

  // --- Overlapping cancels -------------------------------------------------

  // The step commits a request row of the run with this number.
  predicate UsesNumber(step: Step, run: nat, n: int) {
    (step.Insert? || step.CommitCancel?) && step.row.direction.Request? && step.row.run == run && step.row.seqNo == n
  }

  lemma StepUsesNumber(s: State, step: Step, run: nat, n: int)
    requires Enabled(s, step)
    ensures n in UsedSeqs(Apply(s, step).table, run) <==> n in UsedSeqs(s.table, run) || UsesNumber(step, run, n)
  {
    var t, u := s.table, Apply(s, step).table;
    if n in UsedSeqs(t, run) {
      var id :| id in t && t[id].run == run && t[id].direction.Request? && t[id].seqNo == n;
      assert id in u && SameKey(t[id], u[id]);
    }
    if UsesNumber(step, run, n) {
      assert step.id in u && SameKey(step.row, u[step.id]);
    }
    if n in UsedSeqs(u, run) && !UsesNumber(step, run, n) {
      var id :| id in u && u[id].run == run && u[id].direction.Request? && u[id].seqNo == n;
      assert id in t && SameKey(t[id], u[id]);
    }
  }

  ghost predicate NumberUsed(steps: seq<Step>, run: nat, n: int) {
    exists i :: 0 <= i < |steps| && UsesNumber(steps[i], run, n)
  }

  ghost predicate LeavesAlone(steps: seq<Step>, txn: Txn) {
    forall i :: 0 <= i < |steps| ==>
      match steps[i]
      case ScanCancel(t, _, _, _) => t != txn
      case CommitCancel(t, _, _, _) => t != txn
      case RefuseCancel(t) => t != txn
      case AbandonCancel(t) => t != txn
      case _ => true
  }

  lemma {:induction false} NumbersStayUsed(s: State, steps: seq<Step>, txn: Txn)
    requires ValidRun(s, steps) && LeavesAlone(steps, txn) && txn in s.cancels && Enabled(s, RefuseCancel(txn))
    ensures Enabled(Final(s, steps), RefuseCancel(txn)) && Final(s, steps).cancels[txn] == s.cancels[txn]
    decreases |steps|
  {
    if steps != [] {
      StepUsesNumber(s, steps[0], s.cancels[txn].run, s.cancels[txn].seqNo);
      assert steps[0].ScanCancel? || steps[0].CommitCancel? || steps[0].RefuseCancel? || steps[0].AbandonCancel? ==> steps[0].txn != txn;
      NumbersStayUsed(Apply(s, steps[0]), steps[1..], txn);
    }
  }

  /** A cancel whose number was free at its scan is refused at its insert exactly if some
      transaction has committed a request of the run with that number in between. */
  lemma {:induction false} RefusedIff(s: State, steps: seq<Step>, txn: Txn)
    requires ValidRun(s, steps) && LeavesAlone(steps, txn) && txn in s.cancels
    requires s.cancels[txn].seqNo !in UsedSeqs(s.table, s.cancels[txn].run)
    ensures txn in Final(s, steps).cancels && Final(s, steps).cancels[txn] == s.cancels[txn]
    ensures Enabled(Final(s, steps), RefuseCancel(txn)) <==> NumberUsed(steps, s.cancels[txn].run, s.cancels[txn].seqNo)
    decreases |steps|
  {
    if steps != [] {
      var run, n, t := s.cancels[txn].run, s.cancels[txn].seqNo, Apply(s, steps[0]);
      StepUsesNumber(s, steps[0], run, n);
      assert steps[0].ScanCancel? || steps[0].CommitCancel? || steps[0].RefuseCancel? || steps[0].AbandonCancel? ==> steps[0].txn != txn;
      assert NumberUsed(steps, run, n) <==> UsesNumber(steps[0], run, n) || NumberUsed(steps[1..], run, n) by {
        assert forall i :: 1 <= i < |steps| ==> steps[i] == steps[1..][i - 1];
      }
      if UsesNumber(steps[0], run, n) {
        NumbersStayUsed(t, steps[1..], txn);
      } else {
        RefusedIff(t, steps[1..], txn);
      }
    }
  }

  lemma FreeIffInsertable(t: Table, id: RowId, row: Row)
    requires id !in t && row.direction.Request?
    ensures row.seqNo !in UsedSeqs(t, row.run) <==> CanInsert(t, id, row)
  {
    if row.seqNo in UsedSeqs(t, row.run) {
      var a :| a in t && t[a].run == row.run && t[a].direction.Request? && t[a].seqNo == row.seqNo;
      assert SameKey(t[a], row);
    }
  }

  lemma FirstFreeCoincideIff(used: set<int>, x: int, y: int, m: int, n: int)
    requires IsFirstFree(used, x, m) && IsFirstFree(used, y, n)
    ensures m == n <==> forall k :: x <= k < y || y <= k < x ==> k in used
  {
    if forall k :: x <= k < y || y <= k < x ==> k in used {
      assert IsFirstFree(used, if x <= y then x else y, m) && IsFirstFree(used, if x <= y then x else y, n);
    }
  }

  /** Two cancels of a run that scan before either inserts: once one has committed, the
      other is refused exactly if every number from the one start up to the other is
      taken. Cancels in one millisecond, with equal starts, always collide. */
  lemma OverlappingCancelsCollideIff(s: State, run: nat, a: Txn, x: int, m: int, b: Txn, y: int, n: int, id: RowId, row: Row, rows: set<RowId>)
    requires a != b && Enabled(s, ScanCancel(a, run, x, m))
    requires Enabled(Apply(s, ScanCancel(a, run, x, m)), ScanCancel(b, run, y, n))
    requires Enabled(Apply(Apply(s, ScanCancel(a, run, x, m)), ScanCancel(b, run, y, n)), CommitCancel(a, id, row, rows))
    ensures var t := Apply(Apply(s, ScanCancel(a, run, x, m)), ScanCancel(b, run, y, n));
            Enabled(Apply(t, CommitCancel(a, id, row, rows)), RefuseCancel(b))
            <==> forall k :: x <= k < y || y <= k < x ==> k in UsedSeqs(s.table, run)
  {
    var t := Apply(Apply(s, ScanCancel(a, run, x, m)), ScanCancel(b, run, y, n));
    FirstFreeCoincideIff(UsedSeqs(s.table, run), x, y, m, n);
    StepUsesNumber(t, CommitCancel(a, id, row, rows), run, n);
  }

  /** The collision is reachable: a run with one request and two cancels in the same
      millisecond. */
  lemma SameMillisecondCollides(request: Row, start: int) returns (steps: seq<Step>)
    requires request.direction.Request? && request.status == Pending && request.seqNo < start
    ensures Initial(OneRow(request, [])) && ValidRun(OneRow(request, []), steps)
    ensures Enabled(Final(OneRow(request, []), steps), RefuseCancel(1))
  {
    var s := OneRow(request, []);
    var run := request.run;
    forall k | k in UsedSeqs(s.table, run)
      ensures k == request.seqNo
    {
      var r :| r in s.table && s.table[r].run == run && s.table[r].direction.Request? && s.table[r].seqNo == k;
    }
    var one, two := ScanCancel(0, run, start, start), ScanCancel(1, run, start, start);
    var t := Apply(Apply(s, one), two);
    var notice := Row(request.adapter, run, Request, CANCEL_KIND, start, Pending, request.createdAt, None);
    var commit := CommitCancel(0, 2, notice, {2});
    assert Locked(t) == {};
    assert Enabled(t, commit);
    StepUsesNumber(t, commit, run, start);
    Prepend(t, commit, []);
    Prepend(Apply(s, one), two, [commit] + []);
    Prepend(s, one, [two] + ([commit] + []));
    steps := [one] + ([two] + ([commit] + []));
  }

  // --- Fresh cancel sequence numbers --------------------------------------

  lemma {:induction false} IntervalSize(lo: int, hi: int, s: set<int>)
    requires lo <= hi
    requires forall n :: lo <= n < hi ==> n in s
    ensures hi - lo <= |s|
    decreases hi - lo
  {
    if lo < hi {
      IntervalSize(lo, hi - 1, s - {hi - 1});
    }
  }

  // --- The repository ----------------------------------------------------

  lemma NotEmptyIff(t: Table, u: Update)
    ensures |Matching(t, u)| > 0 <==> exists id :: id in t && Matches(u, t[id])
  {
    if id :| id in t && Matches(u, t[id]) {
      assert id in Matching(t, u);
    } else {
      assert Matching(t, u) == {};
    }
  }

  class GatewayRepository {
    var table: Table

    constructor ()
      ensures table == map[]
    {
      table := map[];
    }

    /** Inserts a PENDING request; the unique key refuses a second row. */
    method EnqueueRequest(id: RowId, adapter: nat, run: nat, kind: string, seqNo: int, now: int) returns (ok: bool)
      requires id !in table
      modifies this
      ensures ok <==> forall a :: a in old(table) ==> !SameKey(old(table)[a], Row(adapter, run, Request, kind, seqNo, Pending, now, None))
      ensures ok ==> table == old(table)[id := Row(adapter, run, Request, kind, seqNo, Pending, now, None)]
      ensures !ok ==> table == old(table)
    {
      var row := Row(adapter, run, Request, kind, seqNo, Pending, now, None);
      ok := forall a :: a in table ==> !SameKey(table[a], row);
      if ok {
        table := table[id := row];
      }
    }

    /** `selected` is the database's answer to the locking select. */
    method ClaimPendingRequests(adapter: nat, limit: nat, now: int, ghost locked: set<RowId>, selected: seq<RowId>)
      returns (rows: seq<RowId>)
      requires IsSelection(table, locked, adapter, limit, selected)
      modifies this
      ensures rows == selected
      ensures table == MarkDelivered(old(table), selected, now)
      ensures table.Keys == old(table).Keys && |rows| <= limit
      ensures forall id :: id in rows ==>
                && id in old(table) && id !in locked
                && old(table)[id].adapter == adapter && old(table)[id].direction.Request? && old(table)[id].status.Pending?
                && table[id] == old(table)[id].(status := Delivered, claimedAt := Some(now))
      ensures forall id :: id in table && id !in rows ==> table[id] == old(table)[id]
      ensures forall i, j :: 0 <= i < j < |rows| ==>
                && rows[i] != rows[j]
                && (table[rows[i]].createdAt < table[rows[j]].createdAt
                    || (table[rows[i]].createdAt == table[rows[j]].createdAt && table[rows[i]].seqNo <= table[rows[j]].seqNo))
      ensures forall id ::
                (id in table && id !in rows && id !in locked && table[id].adapter == adapter && table[id].direction.Request? && table[id].status.Pending?) ==>
                && |rows| == limit
                && forall i :: 0 <= i < |rows| ==>
                     table[rows[i]].createdAt < table[id].createdAt
                     || (table[rows[i]].createdAt == table[id].createdAt && table[rows[i]].seqNo <= table[id].seqNo)
    {
      rows := selected;
      if rows == [] {
        assert table == MarkDelivered(table, [], now);
        return;
      }
      for i := 0 to |rows|
        invariant table == MarkDelivered(old(table), selected[..i], now)
      {
        table := table[rows[i] := table[rows[i]].(status := Delivered, claimedAt := Some(now))];
        assert selected[..i + 1] == selected[..i] + [selected[i]];
      }
      assert selected[..|selected|] == selected;
    }

    method CancelPendingForRun(run: nat) returns (count: nat)
      modifies this
      ensures table == ApplyUpdate(old(table), CancelPending(run), Matching(old(table), CancelPending(run)))
      ensures table.Keys == old(table).Keys
      ensures forall id :: id in table ==>
                var was := old(table)[id];
                table[id] == if was.direction.Request? && was.run == run && (was.status.Pending? || was.status.Delivered?)
                             then was.(status := Failed) else was
      ensures count == |set id | id in table && table[id] != old(table)[id]|
    {
      ghost var changed := set id | id in table && ApplyUpdate(table, CancelPending(run), Matching(table, CancelPending(run)))[id] != table[id];
      assert changed == Matching(table, CancelPending(run));
      count := |Matching(table, CancelPending(run))|;
      table := ApplyUpdate(table, CancelPending(run), Matching(table, CancelPending(run)));
    }

    method MarkRunTerminal(run: nat, status: Status) returns (count: nat)
      modifies this
      ensures table == ApplyUpdate(old(table), MarkTerminal(run, status), Matching(old(table), MarkTerminal(run, status)))
      ensures table.Keys == old(table).Keys
      ensures forall id :: id in table ==>
                table[id] == if old(table)[id].direction.Request? && old(table)[id].run == run && !old(table)[id].status.Acked?
                             then old(table)[id].(status := status) else old(table)[id]
      ensures forall id :: id in table && table[id].direction.Request? && table[id].run == run ==> table[id].status in {status, Acked}
      ensures count == |set id | id in old(table) && old(table)[id].direction.Request? && old(table)[id].run == run && !old(table)[id].status.Acked?|
    {
      assert Matching(table, MarkTerminal(run, status))
             == set id | id in table && table[id].direction.Request? && table[id].run == run && !table[id].status.Acked?;
      count := |Matching(table, MarkTerminal(run, status))|;
      table := ApplyUpdate(table, MarkTerminal(run, status), Matching(table, MarkTerminal(run, status)));
    }

    /** Only `final` and `error` events close the request rows. */
    method AckRunIfTerminal(run: nat, kind: string) returns (acked: bool)
      modifies this
      ensures acked <==> kind in {"final", "error"} && Matching(old(table), AckRun(run)) != {}
      ensures kind in {"final", "error"} ==> table == ApplyUpdate(old(table), AckRun(run), Matching(old(table), AckRun(run)))
      ensures kind !in {"final", "error"} ==> table == old(table)
      ensures table.Keys == old(table).Keys
      ensures forall id :: id in table ==>
                var was := old(table)[id];
                table[id] ==
                if (kind == "final" || kind == "error") && was.direction.Request? && was.run == run && (was.status.Pending? || was.status.Delivered?)
                then was.(status := Acked) else was
      ensures acked <==>
              ((kind == "final" || kind == "error")
               && exists id :: id in old(table) && old(table)[id].direction.Request? && old(table)[id].run == run
                               && (old(table)[id].status.Pending? || old(table)[id].status.Delivered?))
    {
      if kind !in {"final", "error"} {
        return false;
      }
      NotEmptyIff(table, AckRun(run));
      acked := |Matching(table, AckRun(run))| > 0;
      table := ApplyUpdate(table, AckRun(run), Matching(table, AckRun(run)));
    }

    /** `seen` is the answer of an earlier SELECT, which others may have overtaken. The
        search takes at most |seen| steps and never goes below 1,000,000; the insert
        fails exactly if the number has been used since. */
    method EnqueueCancelEvent(id: RowId, adapter: nat, run: nat, nowMs: int, now: int, seen: set<int>) returns (cancelSeq: int, ok: bool)
      requires id !in table
      modifies this
      ensures cancelSeq >= 1_000_000 && cancelSeq <= nowMs % 1_000_000 + 1_000_000 + |seen|
      ensures IsFirstFree(seen, nowMs % 1_000_000 + 1_000_000, cancelSeq)
      ensures ok <==> cancelSeq !in UsedSeqs(old(table), run)
      ensures seen == UsedSeqs(old(table), run) ==> ok
      ensures var row := Row(adapter, run, Request, CANCEL_KIND, cancelSeq, Pending, now, None);
              && (ok <==> CanInsert(old(table), id, row))
              && table == if ok then old(table)[id := row] else old(table)
    {
      var start := nowMs % 1_000_000 + 1_000_000;
      cancelSeq := start;
      while cancelSeq in seen
        invariant start <= cancelSeq && table == old(table)
        invariant forall n :: start <= n < cancelSeq ==> n in seen
        decreases start + |seen| - cancelSeq
      {
        cancelSeq := cancelSeq + 1;
        IntervalSize(start, cancelSeq, seen);
      }
      IntervalSize(start, cancelSeq, seen);
      FreeIffInsertable(table, id, Row(adapter, run, Request, CANCEL_KIND, cancelSeq, Pending, now, None));
      ok := EnqueueRequest(id, adapter, run, CANCEL_KIND, cancelSeq, now);
    }

    predicate IsOrigin(id: RowId, run: nat)
      reads this
    {
      id in table && table[id].run == run && table[id].direction.Request? && table[id].kind == RUN_KIND
    }

    /** The adapter's cancel: push the notice, then fail every undelivered request row of
        the run. The notice is such a row. Refused means rolled back as a whole. In the
        protocol it is a CommitCancel or a RefuseCancel of a cancel that scanned `seen`. */
    method CancelRunTransaction(id: RowId, run: nat, nowMs: int, now: int, seen: set<int>) returns (pushed: bool, refused: bool, ghost seqNo: int)
      requires id !in table
      modifies this
      ensures pushed || refused <==> exists o :: old(IsOrigin(o, run))
      ensures !(pushed && refused) && (!pushed ==> table == old(table))
      ensures pushed || refused ==> IsFirstFree(seen, nowMs % 1_000_000 + 1_000_000, seqNo) && (refused <==> seqNo in UsedSeqs(old(table), run))
      ensures pushed ==> id in table && table[id].run == run && table[id].kind == "cancel" && table[id].status == Failed
      ensures pushed ==> table.Keys == old(table).Keys + {id} && table[id].direction.Request? && table[id].seqNo == seqNo
      ensures pushed ==> forall other :: other in old(table) ==>
                var was := old(table)[other];
                table[other] == if was.direction.Request? && was.run == run && (was.status.Pending? || was.status.Delivered?)
                                then was.(status := Failed) else was
      ensures pushed || refused <==>
                exists o :: o in old(table) && old(table)[o].run == run && old(table)[o].direction.Request? && old(table)[o].kind == "run"
      ensures forall s: State, txn :: s.table == old(table) && txn in s.cancels && s.cancels[txn] == Cancel(run, seqNo) ==>
                && (refused ==> Enabled(s, RefuseCancel(txn)))
                && (pushed && Matching(old(table), CancelPending(run)) !! Locked(s) && id !in Locked(s) ==>
                      exists step: Step :: step.CommitCancel? && step.txn == txn && step.id == id && Enabled(s, step) && Apply(s, step).table == table)
    {
      pushed, refused, seqNo := false, false, 0;
      if exists o :: o in table && IsOrigin(o, run) {
        var o :| o in table && IsOrigin(o, run);
        ghost var before := table;
        var n, ok := EnqueueCancelEvent(id, table[o].adapter, run, nowMs, now, seen);
        seqNo := n;
        pushed, refused := ok, !ok;
        if ok {
          ghost var notice := table[id];
          assert table == before[id := notice];
          var _ := CancelPendingForRun(run);
          forall s: State, txn | s.table == before && txn in s.cancels && s.cancels[txn] == Cancel(run, seqNo)
            && Matching(before, CancelPending(run)) !! Locked(s) && id !in Locked(s)
            ensures exists step: Step :: step.CommitCancel? && step.txn == txn && step.id == id && Enabled(s, step) && Apply(s, step).table == table
          {
            var step := CommitCancel(txn, id, notice, Matching(before[id := notice], CancelPending(run)));
            assert Enabled(s, step) && Apply(s, step).table == table;
          }
        }
      }
    }
  }
}
