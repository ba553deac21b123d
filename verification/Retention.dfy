/** The retention sweep: a batched cursor loop with per-row retries and a durable
    watermark. */
module Retention {
  import opened Seqs

  datatype Row = Row(id: nat, deletedAt: int)

  const RETRY_LIMIT := 3

  // --- The selector -------------------------------------------------------------

  /** Soft-deleted rows are kept in the selector's order: by deletion time, then id. */
  ghost predicate Sorted(rows: seq<Row>) {
    && (forall i, j :: 0 <= i < j < |rows| ==> rows[i].deletedAt <= rows[j].deletedAt)
    && (forall i, j :: 0 <= i < j < |rows| ==> rows[i].id != rows[j].id)
  }

  ghost predicate DistinctAbove(rows: seq<Row>, wm: int) {
    forall i, j :: 0 <= i < j < |rows| && wm < rows[j].deletedAt ==> rows[i].deletedAt < rows[j].deletedAt
  }

  function SelectPending(rows: seq<Row>, after: int, limit: nat): seq<Row> {
    Take(limit, Filter((r: Row) => r.deletedAt > after, rows))
  }

  // How many rows lie at or below a watermark.
  function Passed(rows: seq<Row>, wm: int): (n: nat)
    ensures n <= |rows|
  {
    if rows == [] || rows[0].deletedAt > wm then 0 else 1 + Passed(rows[1..], wm)
  }

  lemma {:induction false} AllKept(rows: seq<Row>, wm: int)
    requires forall i :: 0 <= i < |rows| ==> rows[i].deletedAt > wm
    ensures Filter((r: Row) => r.deletedAt > wm, rows) == rows
  {
    if rows != [] {
      AllKept(rows[1..], wm);
    }
  }

  lemma {:induction false} PassedSplits(rows: seq<Row>, wm: int)
    requires Sorted(rows)
    ensures forall i :: 0 <= i < |rows| ==> (i < Passed(rows, wm) <==> rows[i].deletedAt <= wm)
    ensures Filter((r: Row) => r.deletedAt > wm, rows) == rows[Passed(rows, wm)..]
  {
    if rows != [] {
      PassedSplits(rows[1..], wm);
      if rows[0].deletedAt > wm {
        AllKept(rows, wm);
      } else {
        assert forall i :: 1 <= i < |rows| ==> rows[i] == rows[1..][i - 1];
        assert rows[1..][Passed(rows[1..], wm)..] == rows[Passed(rows, wm)..];
      }
    }
  }

  // With the rows in order, a selection is the slice that follows the watermark.
  lemma SelectIsSlice(rows: seq<Row>, wm: int, limit: nat)
    requires Sorted(rows)
    ensures var p, pending := Passed(rows, wm), SelectPending(rows, wm, limit);
            && |pending| <= limit && p + |pending| <= |rows| && pending == rows[p..p + |pending|]
            && (|pending| < limit ==> p + |pending| == |rows|)
  {
    PassedSplits(rows, wm);
    var p := Passed(rows, wm);
    assert limit <= |rows| - p ==> rows[p..][..limit] == rows[p..p + limit];
    assert rows[p..] == rows[p..|rows|];
  }

  // --- The sweep without crashes ---------------------------------------------------

  /** `attempt(id, k)` is the outcome of the k-th try to cascade a row: the number of
      rows affected, or None when it raises. */
  type Attempts = (nat, nat) -> Option<nat>

  predicate Succeeds(attempt: Attempts, id: nat) {
    attempt(id, 0).Some? || attempt(id, 1).Some? || attempt(id, 2).Some?
  }

  // What the first successful try affected; 0 after a permanent failure.
  function Affected(attempt: Attempts, id: nat): nat {
    if attempt(id, 0).Some? then attempt(id, 0).value
    else if attempt(id, 1).Some? then attempt(id, 1).value
    else if attempt(id, 2).Some? then attempt(id, 2).value
    else 0
  }

  method CascadeOneWithRetry(id: nat, attempt: Attempts) returns (ok: bool, total: nat, tries: nat)
    ensures ok <==> Succeeds(attempt, id)
    ensures total == Affected(attempt, id)
    ensures 1 <= tries <= RETRY_LIMIT
    ensures forall k :: 0 <= k < tries - 1 ==> attempt(id, k).None?
    ensures if ok then attempt(id, tries - 1).Some? else tries == RETRY_LIMIT && attempt(id, tries - 1).None?
  {
    tries := 0;
    while tries < RETRY_LIMIT
      invariant tries <= RETRY_LIMIT
      invariant forall k :: 0 <= k < tries ==> attempt(id, k).None?
    {
      var outcome := attempt(id, tries);
      tries := tries + 1;
      if outcome.Some? {
        return true, outcome.value, tries;
      }
    }
    return false, 0, tries;
  }

  /** The watermark row, and what the committed transactions have recorded. */
  datatype WatermarkRow = WatermarkRow(lastSeenDeletedAt: int, lastProcessedId: Option<nat>, rowsAffected: nat, failed: bool)

  datatype Store = Store(watermark: Option<WatermarkRow>, cascaded: set<nat>, givenUp: set<nat>)

  datatype Summary = Summary(swept: nat, rowsTotal: nat, permanentFailures: nat)

  function HandleOne(store: Store, row: Row, attempt: Attempts): Store {
    var ok := Succeeds(attempt, row.id);
    Store(Some(WatermarkRow(row.deletedAt, Some(row.id), Affected(attempt, row.id), !ok)),
          if ok then store.cascaded + {row.id} else store.cascaded,
          if ok then store.givenUp else store.givenUp + {row.id})
  }

  function CountOne(sum: Summary, row: Row, attempt: Attempts): Summary {
    if Succeeds(attempt, row.id)
    then sum.(swept := sum.swept + 1, rowsTotal := sum.rowsTotal + Affected(attempt, row.id))
    else sum.(permanentFailures := sum.permanentFailures + 1)
  }

  // The rows of `done` handled one after the other.
  function HandleAll(store: Store, done: seq<Row>, attempt: Attempts): Store {
    if done == [] then store
    else HandleOne(HandleAll(store, done[..|done| - 1], attempt), done[|done| - 1], attempt)
  }

  function CountAll(sum: Summary, done: seq<Row>, attempt: Attempts): Summary {
    if done == [] then sum
    else CountOne(CountAll(sum, done[..|done| - 1], attempt), done[|done| - 1], attempt)
  }

  lemma HandleNext(store: Store, sum: Summary, done: seq<Row>, row: Row, attempt: Attempts)
    ensures HandleAll(store, done + [row], attempt) == HandleOne(HandleAll(store, done, attempt), row, attempt)
    ensures CountAll(sum, done + [row], attempt) == CountOne(CountAll(sum, done, attempt), row, attempt)
  {
    assert (done + [row])[..|done|] == done;
  }

  ghost function IdsWith(rows: seq<Row>, attempt: Attempts, ok: bool): set<nat> {
    set r | r in rows && Succeeds(attempt, r.id) == ok :: r.id
  }

  lemma IdsWithNext(rows: seq<Row>, row: Row, attempt: Attempts, ok: bool)
    ensures IdsWith(rows + [row], attempt, ok)
            == IdsWith(rows, attempt, ok) + if Succeeds(attempt, row.id) == ok then {row.id} else {}
  {
    forall id | id in IdsWith(rows, attempt, ok)
      ensures id in IdsWith(rows + [row], attempt, ok)
    {
      var r :| r in rows && Succeeds(attempt, r.id) == ok && r.id == id;
      assert r in rows + [row];
    }
    if Succeeds(attempt, row.id) == ok {
      assert row in rows + [row];
    }
  }

  lemma SetsNext(first: Store, store: Store, front: seq<Row>, row: Row, attempt: Attempts)
    requires store.cascaded == first.cascaded + IdsWith(front, attempt, true)
    requires store.givenUp == first.givenUp + IdsWith(front, attempt, false)
    ensures HandleOne(store, row, attempt).cascaded == first.cascaded + IdsWith(front + [row], attempt, true)
    ensures HandleOne(store, row, attempt).givenUp == first.givenUp + IdsWith(front + [row], attempt, false)
  {
    IdsWithNext(front, row, attempt, true);
    IdsWithNext(front, row, attempt, false);
  }

  /** What handling a run of rows leaves behind: each id in exactly one of the two
      sets, according to its three tries; the watermark at the last row; and
      counters that add up. */
  lemma {:induction false} HandleAllIs(store: Store, done: seq<Row>, attempt: Attempts)
    ensures var after := HandleAll(store, done, attempt);
            && after.cascaded == store.cascaded + IdsWith(done, attempt, true)
            && after.givenUp == store.givenUp + IdsWith(done, attempt, false)
            && (done == [] ==> after == store)
            && (done != [] ==>
                  var last := done[|done| - 1];
                  after.watermark == Some(WatermarkRow(last.deletedAt, Some(last.id), Affected(attempt, last.id), !Succeeds(attempt, last.id))))
    ensures var sum := CountAll(Summary(0, 0, 0), done, attempt); sum.swept + sum.permanentFailures == |done|
  {
    if done != [] {
      var front, row := done[..|done| - 1], done[|done| - 1];
      assert done == front + [row];
      HandleAllIs(store, front, attempt);
      SetsNext(store, HandleAll(store, front, attempt), front, row, attempt);
    }
  }

  ghost function SweptOf(done: seq<Row>, attempt: Attempts): set<int> {
    set i | 0 <= i < |done| && (attempt(done[i].id, 0).Some? || attempt(done[i].id, 1).Some? || attempt(done[i].id, 2).Some?)
  }

  ghost function FailedOf(done: seq<Row>, attempt: Attempts): set<int> {
    set i | 0 <= i < |done| && attempt(done[i].id, 0).None? && attempt(done[i].id, 1).None? && attempt(done[i].id, 2).None?
  }

  ghost function AffectedOf(done: seq<Row>, attempt: Attempts): seq<int> {
    seq(|done|, i requires 0 <= i < |done| =>
      if attempt(done[i].id, 0).Some? then attempt(done[i].id, 0).value
      else if attempt(done[i].id, 1).Some? then attempt(done[i].id, 1).value
      else if attempt(done[i].id, 2).Some? then attempt(done[i].id, 2).value else 0)
  }

  lemma SweptNext(front: seq<Row>, row: Row, attempt: Attempts)
    ensures |SweptOf(front + [row], attempt)| == |SweptOf(front, attempt)| + if (attempt(row.id, 0).Some? || attempt(row.id, 1).Some? || attempt(row.id, 2).Some?) then 1 else 0
  {
    var done, n := front + [row], |front|;
    assert SweptOf(done, attempt) == SweptOf(front, attempt) + if (attempt(row.id, 0).Some? || attempt(row.id, 1).Some? || attempt(row.id, 2).Some?) then {n} else {};
  }

  lemma FailedNext(front: seq<Row>, row: Row, attempt: Attempts)
    ensures |FailedOf(front + [row], attempt)| == |FailedOf(front, attempt)| + if (attempt(row.id, 0).Some? || attempt(row.id, 1).Some? || attempt(row.id, 2).Some?) then 0 else 1
  {
    var done, n := front + [row], |front|;
    assert FailedOf(done, attempt) == FailedOf(front, attempt) + if (attempt(row.id, 0).Some? || attempt(row.id, 1).Some? || attempt(row.id, 2).Some?) then {} else {n};
  }

  lemma AffectedNext(front: seq<Row>, row: Row, attempt: Attempts)
    ensures Sum(AffectedOf(front + [row], attempt)) == Sum(AffectedOf(front, attempt)) + Affected(attempt, row.id)
  {
    var all := AffectedOf(front + [row], attempt);
    assert all[..|all| - 1] == AffectedOf(front, attempt);
  }

  lemma NothingCounted(attempt: Attempts)
    ensures SweptOf([], attempt) == {} && FailedOf([], attempt) == {} && AffectedOf([], attempt) == []
  {
  }

  /** The summary, counted out: `swept` rows had a successful try among their three,
      `permanentFailures` had none, and `rowsTotal` adds up what the first successful tries
      affected. */
  lemma {:induction false} CountAllIs(done: seq<Row>, attempt: Attempts)
    ensures var sum := CountAll(Summary(0, 0, 0), done, attempt);
            sum.swept == |SweptOf(done, attempt)| && sum.permanentFailures == |FailedOf(done, attempt)| && sum.rowsTotal == Sum(AffectedOf(done, attempt))
  {
    if done != [] {
      var n := |done| - 1;
      var front, row := done[..n], done[n];
      assert done == front + [row];
      CountAllIs(front, attempt);
      SweptNext(front, row, attempt);
      FailedNext(front, row, attempt);
      AffectedNext(front, row, attempt);
    } else {
      NothingCounted(attempt);
    }
  }

  lemma PassedAbove(rows: seq<Row>, wm: int, k: nat)
    requires Sorted(rows) && k < |rows| && rows[k].deletedAt <= wm
    ensures Passed(rows, wm) > k
  {
    PassedSplits(rows, wm);
  }

  lemma SplitSlice(rows: seq<Row>, p: nat, n: nat)
    requires p + n <= |rows|
    ensures rows[p..] == rows[p..p + n] + rows[p + n..]
  {
  }

  lemma BatchAdvances(rows: seq<Row>, wm: int, p: nat, pending: seq<Row>)
    requires Sorted(rows) && p == Passed(rows, wm)
    requires pending != [] && p + |pending| <= |rows| && pending == rows[p..p + |pending|]
    ensures Passed(rows, pending[|pending| - 1].deletedAt) >= p + |pending|
    ensures rows[p..] == pending + rows[p + |pending|..]
  {
    var last := p + |pending| - 1;
    assert pending[|pending| - 1] == rows[last];
    PassedAbove(rows, rows[last].deletedAt, last);
    SplitSlice(rows, p, |pending|);
  }

  /** The rows one crash-free run handles: batch after batch, each starting after
      the last deletion time of the one before. */
  ghost function SweptRows(rows: seq<Row>, cursor: int, b: nat): seq<Row>
    requires Sorted(rows)
    decreases |rows| - Passed(rows, cursor)
  {
    SelectIsSlice(rows, cursor, b);
    var p, pending := Passed(rows, cursor), SelectPending(rows, cursor, b);
    if pending == [] then []
    else
      BatchAdvances(rows, cursor, p, pending);
      pending + if |pending| < b then [] else SweptRows(rows, pending[|pending| - 1].deletedAt, b)
  }

  // Every full batch ends between two different deletion times.
  ghost predicate NoTieSplit(rows: seq<Row>, p: nat, b: nat)
    requires b >= 1
    decreases |rows| - p
  {
    p + b >= |rows| || (rows[p + b - 1].deletedAt < rows[p + b].deletedAt && NoTieSplit(rows, p + b, b))
  }

  lemma {:induction false} SweptIsShorter(rows: seq<Row>, cursor: int, b: nat)
    requires Sorted(rows)
    ensures |SweptRows(rows, cursor, b)| <= |rows| - Passed(rows, cursor)
    decreases |rows| - Passed(rows, cursor)
  {
    SelectIsSlice(rows, cursor, b);
    var p, pending := Passed(rows, cursor), SelectPending(rows, cursor, b);
    if pending != [] {
      BatchAdvances(rows, cursor, p, pending);
      SweptIsShorter(rows, pending[|pending| - 1].deletedAt, b);
    }
  }

  /** The next batch of a run: it moves the cursor on, and the run goes on after its last
      deletion time unless it is short. */
  lemma NextBatch(rows: seq<Row>, cursor: int, b: nat)
    requires Sorted(rows)
    ensures var pending := SelectPending(rows, cursor, b);
            if pending == [] then SweptRows(rows, cursor, b) == []
            else
              var last := pending[|pending| - 1].deletedAt;
              && Passed(rows, cursor) < Passed(rows, last) <= |rows|
              && SweptRows(rows, cursor, b) == pending + if |pending| < b then [] else SweptRows(rows, last, b)
  {
    SelectIsSlice(rows, cursor, b);
    var pending := SelectPending(rows, cursor, b);
    if pending != [] {
      BatchAdvances(rows, cursor, Passed(rows, cursor), pending);
    }
  }

  lemma FullSelection(rows: seq<Row>, cursor: int, b: nat)
    requires Sorted(rows) && b >= 1 && Passed(rows, cursor) + b <= |rows|
    ensures var p, pending := Passed(rows, cursor), SelectPending(rows, cursor, b);
            pending == rows[p..p + b] && |pending| == b && pending[b - 1] == rows[p + b - 1]
  {
    SelectIsSlice(rows, cursor, b);
  }

  // A full batch: the rest of the run starts after its last deletion time.
  lemma FullBatch(rows: seq<Row>, cursor: int, b: nat)
    requires Sorted(rows) && b >= 1 && Passed(rows, cursor) + b <= |rows|
    ensures var p := Passed(rows, cursor);
            SweptRows(rows, cursor, b) == rows[p..p + b] + SweptRows(rows, rows[p + b - 1].deletedAt, b)
  {
    FullSelection(rows, cursor, b);
    NextBatch(rows, cursor, b);
  }

  // The last deletion time of a batch passes every row up to `k`, and more on a tie.
  lemma PassedAt(rows: seq<Row>, k: nat)
    requires Sorted(rows) && k < |rows|
    ensures Passed(rows, rows[k].deletedAt) > k
    ensures k + 1 < |rows| ==> (Passed(rows, rows[k].deletedAt) == k + 1 <==> rows[k].deletedAt < rows[k + 1].deletedAt)
  {
    PassedSplits(rows, rows[k].deletedAt);
  }

  lemma ShortBatch(rows: seq<Row>, cursor: int, b: nat)
    requires Sorted(rows) && Passed(rows, cursor) + b > |rows|
    ensures SweptRows(rows, cursor, b) == rows[Passed(rows, cursor)..]
  {
    SelectIsSlice(rows, cursor, b);
  }

  // The same run by row numbers, once `p` rows have been passed.
  ghost function SweptFrom(rows: seq<Row>, p: nat, b: nat): seq<Row>
    requires Sorted(rows) && b >= 1 && p <= |rows|
    decreases |rows| - p
  {
    if p + b > |rows| then rows[p..]
    else
      PassedAt(rows, p + b - 1);
      rows[p..p + b] + SweptFrom(rows, Passed(rows, rows[p + b - 1].deletedAt), b)
  }

  lemma {:induction false} SweptIsFrom(rows: seq<Row>, cursor: int, b: nat)
    requires Sorted(rows) && b >= 1
    ensures SweptRows(rows, cursor, b) == SweptFrom(rows, Passed(rows, cursor), b)
    decreases |rows| - Passed(rows, cursor)
  {
    var q := Passed(rows, cursor) + b;
    if q > |rows| {
      ShortBatch(rows, cursor, b);
    } else {
      FullBatch(rows, cursor, b);
      PassedAt(rows, q - 1);
      SweptIsFrom(rows, rows[q - 1].deletedAt, b);
    }
  }

  lemma {:induction false} FullLengthIff(rows: seq<Row>, p: nat, b: nat)
    requires Sorted(rows) && b >= 1 && p <= |rows|
    ensures |SweptFrom(rows, p, b)| <= |rows| - p
    ensures |SweptFrom(rows, p, b)| == |rows| - p <==> NoTieSplit(rows, p, b)
    decreases |rows| - p
  {
    if p + b <= |rows| {
      PassedAt(rows, p + b - 1);
      FullLengthIff(rows, Passed(rows, rows[p + b - 1].deletedAt), b);
    }
  }

  lemma FromUnfolds(rows: seq<Row>, p: nat, b: nat)
    requires Sorted(rows) && b >= 1 && p + b <= |rows| && (p + b < |rows| ==> rows[p + b - 1].deletedAt < rows[p + b].deletedAt)
    ensures SweptFrom(rows, p, b) == rows[p..p + b] + SweptFrom(rows, p + b, b)
  {
    PassedAt(rows, p + b - 1);
    var next := Passed(rows, rows[p + b - 1].deletedAt);
    assert SweptFrom(rows, p, b) == rows[p..p + b] + SweptFrom(rows, next, b);
    assert next == p + b;
  }

  lemma {:induction false} NoTieSweepsAll(rows: seq<Row>, p: nat, b: nat)
    requires Sorted(rows) && b >= 1 && p <= |rows| && NoTieSplit(rows, p, b)
    ensures SweptFrom(rows, p, b) == rows[p..]
    decreases |rows| - p
  {
    if p + b <= |rows| {
      FromUnfolds(rows, p, b);
      NoTieSweepsAll(rows, p + b, b);
      assert SweptFrom(rows, p, b) == rows[p..p + b] + rows[p + b..];
      SplitSlice(rows, p, b);
    }
  }

  /** Without a crash every due row is handled, once and in order, exactly when no
      batch boundary falls between two rows with the same deletion time. */
  lemma AllSweptIff(rows: seq<Row>, cursor: int, b: nat)
    requires Sorted(rows) && b >= 1
    ensures SweptRows(rows, cursor, b) == rows[Passed(rows, cursor)..] <==> NoTieSplit(rows, Passed(rows, cursor), b)
  {
    SweptIsFrom(rows, cursor, b);
    FullLengthIff(rows, Passed(rows, cursor), b);
    if NoTieSplit(rows, Passed(rows, cursor), b) {
      NoTieSweepsAll(rows, Passed(rows, cursor), b);
    }
  }

  lemma NotPassed(rows: seq<Row>, wm: int, k: nat)
    requires Sorted(rows) && Passed(rows, wm) <= k < |rows|
    ensures wm < rows[k].deletedAt
  {
    PassedSplits(rows, wm);
  }

  // Distinct deletion times never split a tie.
  lemma {:induction false} DistinctNeverSplits(rows: seq<Row>, wm: int, p: nat, b: nat)
    requires Sorted(rows) && DistinctAbove(rows, wm) && b >= 1 && Passed(rows, wm) <= p
    ensures NoTieSplit(rows, p, b)
    decreases |rows| - p
  {
    if p + b < |rows| {
      NotPassed(rows, wm, p + b);
      DistinctNeverSplits(rows, wm, p + b, b);
    }
  }

  /** The rows a run handles when deletions commit while it goes on: `tables` are the
      contents of the table at its successive selections. */
  ghost function SweptThrough(tables: seq<seq<Row>>, cursor: int, b: nat): seq<Row>
    decreases |tables|
  {
    if tables == [] then []
    else
      var pending := SelectPending(tables[0], cursor, b);
      if pending == [] || |pending| < b then pending
      else pending + SweptThrough(tables[1..], pending[|pending| - 1].deletedAt, b)
  }

  // One of the selections is short, which ends the run.
  ghost predicate Ends(tables: seq<seq<Row>>, cursor: int, b: nat)
    decreases |tables|
  {
    tables != [] &&
    var pending := SelectPending(tables[0], cursor, b);
    pending == [] || |pending| < b || Ends(tables[1..], pending[|pending| - 1].deletedAt, b)
  }

  // What is left of a run after its `i`-th selection.
  lemma RestOfRun(tables: seq<seq<Row>>, i: nat, cursor: int, b: nat) returns (pending: seq<Row>, rest: seq<Row>)
    requires i <= |tables| && Ends(tables[i..], cursor, b)
    ensures i < |tables| && pending == SelectPending(tables[i], cursor, b)
    ensures SweptThrough(tables[i..], cursor, b) == pending + rest
    ensures if pending == [] || |pending| < b then rest == []
            else var last := pending[|pending| - 1].deletedAt;
              Ends(tables[i + 1..], last, b) && rest == SweptThrough(tables[i + 1..], last, b)
  {
    assert tables[i..][0] == tables[i] && tables[i..][1..] == tables[i + 1..];
    pending := SelectPending(tables[i], cursor, b);
    rest := if pending == [] || |pending| < b then [] else SweptThrough(tables[i + 1..], pending[|pending| - 1].deletedAt, b);
    assert pending + [] == pending;
  }

  lemma Progress(rows: seq<Row>, cursor: int, b: nat)
    requires Sorted(rows) && SelectPending(rows, cursor, b) != []
    ensures var pending := SelectPending(rows, cursor, b);
            Passed(rows, cursor) < Passed(rows, pending[|pending| - 1].deletedAt) <= |rows|
  {
    SelectIsSlice(rows, cursor, b);
    BatchAdvances(rows, cursor, Passed(rows, cursor), SelectPending(rows, cursor, b));
  }

  // The same table at `n` selections.
  ghost function Unchanged(rows: seq<Row>, n: nat): seq<seq<Row>> {
    if n == 0 then [] else [rows] + Unchanged(rows, n - 1)
  }

  /** On a table that does not change, one selection more than there are rows ends the
      run. */
  lemma {:induction false} FixedTableEnds(rows: seq<Row>, n: nat, cursor: int, b: nat)
    requires Sorted(rows) && |rows| - Passed(rows, cursor) < n
    ensures Ends(Unchanged(rows, n), cursor, b)
    decreases n
  {
    var pending := SelectPending(rows, cursor, b);
    assert Unchanged(rows, n)[1..] == Unchanged(rows, n - 1);
    if pending != [] && |pending| >= b {
      Progress(rows, cursor, b);
      FixedTableEnds(rows, n - 1, pending[|pending| - 1].deletedAt, b);
    }
  }

  /** The rows handled are then those of SweptRows. */
  lemma {:induction false} FixedTableSwept(rows: seq<Row>, n: nat, cursor: int, b: nat)
    requires Sorted(rows) && Ends(Unchanged(rows, n), cursor, b)
    ensures SweptThrough(Unchanged(rows, n), cursor, b) == SweptRows(rows, cursor, b)
    decreases n
  {
    NextBatch(rows, cursor, b);
    var pending := SelectPending(rows, cursor, b);
    assert Unchanged(rows, n)[1..] == Unchanged(rows, n - 1);
    if pending != [] && |pending| >= b {
      FixedTableSwept(rows, n - 1, pending[|pending| - 1].deletedAt, b);
    }
  }

  lemma {:induction false} HandleJoin(store: Store, sum: Summary, a: seq<Row>, b: seq<Row>, attempt: Attempts)
    ensures HandleAll(store, a + b, attempt) == HandleAll(HandleAll(store, a, attempt), b, attempt)
    ensures CountAll(sum, a + b, attempt) == CountAll(CountAll(sum, a, attempt), b, attempt)
  {
    if b == [] {
      assert a + b == a;
    } else {
      HandleJoin(store, sum, a, b[..|b| - 1], attempt);
      assert (a + b)[..|a + b| - 1] == a + b[..|b| - 1];
    }
  }

  // The watermark row is created at the current time by the first run ever.
  function WithWatermark(store: Store, now: int): (r: Store)
    ensures r.watermark.Some?
  {
    if store.watermark.Some? then store else store.(watermark := Some(WatermarkRow(now, None, 0, false)))
  }

  function FirstCursor(store: Store, now: int): int {
    WithWatermark(store, now).watermark.value.lastSeenDeletedAt
  }

  // What the run over the selections leaves and reports, counted out.
  lemma SweptCounted(tables: seq<seq<Row>>, watermark: Option<WatermarkRow>, now: int, b: nat, attempt: Attempts)
    ensures var due := SweptThrough(tables, if watermark.Some? then watermark.value.lastSeenDeletedAt else now, b);
            var sum := CountAll(Summary(0, 0, 0), due, attempt);
            && sum.swept == |set i | 0 <= i < |due| && (attempt(due[i].id, 0).Some? || attempt(due[i].id, 1).Some? || attempt(due[i].id, 2).Some?)|
            && sum.permanentFailures ==
                 |set i | 0 <= i < |due| && attempt(due[i].id, 0).None? && attempt(due[i].id, 1).None? && attempt(due[i].id, 2).None?|
            && sum.rowsTotal == Sum(seq(|due|, i requires 0 <= i < |due| =>
                 if attempt(due[i].id, 0).Some? then attempt(due[i].id, 0).value
                 else if attempt(due[i].id, 1).Some? then attempt(due[i].id, 1).value
                 else if attempt(due[i].id, 2).Some? then attempt(due[i].id, 2).value else 0))
  {
    var due := SweptThrough(tables, if watermark.Some? then watermark.value.lastSeenDeletedAt else now, b);
    CountAllIs(due, attempt);
    assert AffectedOf(due, attempt) == seq(|due|, i requires 0 <= i < |due| =>
                 if attempt(due[i].id, 0).Some? then attempt(due[i].id, 0).value
                 else if attempt(due[i].id, 1).Some? then attempt(due[i].id, 1).value
                 else if attempt(due[i].id, 2).Some? then attempt(due[i].id, 2).value else 0);
  }

  // The store after the same run, from the tries of the rows handled.
  lemma SweptStored(due: seq<Row>, store: Store, now: int, attempt: Attempts)
    ensures var after := HandleAll(WithWatermark(store, now), due, attempt);
            && after.cascaded == store.cascaded + (set r | r in due && (attempt(r.id, 0).Some? || attempt(r.id, 1).Some? || attempt(r.id, 2).Some?) :: r.id)
            && after.givenUp == store.givenUp + (set r | r in due && attempt(r.id, 0).None? && attempt(r.id, 1).None? && attempt(r.id, 2).None? :: r.id)
            && (if due == [] then after.watermark == (if store.watermark.Some? then store.watermark else Some(WatermarkRow(now, None, 0, false)))
                else
                  var id := due[|due| - 1].id;
                  after.watermark == Some(WatermarkRow(due[|due| - 1].deletedAt, Some(id),
                    if attempt(id, 0).Some? then attempt(id, 0).value
                    else if attempt(id, 1).Some? then attempt(id, 1).value
                    else if attempt(id, 2).Some? then attempt(id, 2).value else 0,
                    !(attempt(id, 0).Some? || attempt(id, 1).Some? || attempt(id, 2).Some?))))
  {
    HandleAllIs(WithWatermark(store, now), due, attempt);
    assert IdsWith(due, attempt, true) == set r | r in due && (attempt(r.id, 0).Some? || attempt(r.id, 1).Some? || attempt(r.id, 2).Some?) :: r.id;
    assert IdsWith(due, attempt, false) == set r | r in due && attempt(r.id, 0).None? && attempt(r.id, 1).None? && attempt(r.id, 2).None? :: r.id;
  }

  class Sweep {
    var store: Store

    constructor ()
      ensures store == Store(None, {}, {})
    {
      store := Store(None, {}, {});
    }

    /** The first run ever starts at the current time. */
    method EnsureWatermark(now: int) returns (cursor: int)
      modifies this
      ensures store == WithWatermark(old(store), now) && cursor == FirstCursor(old(store), now)
      ensures old(store.watermark).None? ==> cursor == now
    {
      if store.watermark.None? {
        store := store.(watermark := Some(WatermarkRow(now, None, 0, false)));
      }
      cursor := store.watermark.value.lastSeenDeletedAt;
    }

    method HandleRow(row: Row, attempt: Attempts) returns (ok: bool, total: nat)
      modifies this
      ensures store == HandleOne(old(store), row, attempt)
      ensures ok == Succeeds(attempt, row.id) && total == Affected(attempt, row.id)
      ensures ok <==> (attempt(row.id, 0).Some? || attempt(row.id, 1).Some? || attempt(row.id, 2).Some?)
      ensures total == if attempt(row.id, 0).Some? then attempt(row.id, 0).value
                      else if attempt(row.id, 1).Some? then attempt(row.id, 1).value
                      else if attempt(row.id, 2).Some? then attempt(row.id, 2).value else 0
      ensures store.watermark == Some(WatermarkRow(row.deletedAt, Some(row.id), total, !ok))
      ensures store.cascaded == (if ok then old(store.cascaded) + {row.id} else old(store.cascaded))
      ensures store.givenUp == (if ok then old(store.givenUp) else old(store.givenUp) + {row.id})
    {
      var tries;
      ok, total, tries := CascadeOneWithRetry(row.id, attempt);
      if ok {
        store := store.(cascaded := store.cascaded + {row.id});
      } else {
        store := store.(givenUp := store.givenUp + {row.id});
      }
      store := store.(watermark := Some(WatermarkRow(row.deletedAt, Some(row.id), total, !ok)));
    }

    /** One batch, row by row. */
    method SweepBatch(pending: seq<Row>, attempt: Attempts, before: Summary) returns (sum: Summary, cursor: int)
      requires pending != []
      modifies this
      ensures store == HandleAll(old(store), pending, attempt)
      ensures sum == CountAll(before, pending, attempt)
      ensures cursor == pending[|pending| - 1].deletedAt
    {
      sum, cursor := before, pending[0].deletedAt;
      for i := 0 to |pending|
        invariant store == HandleAll(old(store), pending[..i], attempt)
        invariant sum == CountAll(before, pending[..i], attempt)
        invariant i > 0 ==> cursor == pending[i - 1].deletedAt
      {
        var row := pending[i];
        var ok, total := HandleRow(row, attempt);
        if ok {
          sum := sum.(swept := sum.swept + 1, rowsTotal := sum.rowsTotal + total);
        } else {
          sum := sum.(permanentFailures := sum.permanentFailures + 1);
        }
        cursor := row.deletedAt;
        assert pending[..i + 1] == pending[..i] + [row];
        HandleNext(old(store), before, pending[..i], row, attempt);
      }
      assert pending[..|pending|] == pending;
    }

    // One run over one scope; each selection sees the table as it is by then.
    method RunScope(tables: seq<seq<Row>>, batchSize: nat, now: int, attempt: Attempts) returns (sum: Summary)
      requires Ends(tables, FirstCursor(store, now), batchSize)
      modifies this
      ensures var due := SweptThrough(tables, FirstCursor(old(store), now), batchSize);
              && store == HandleAll(WithWatermark(old(store), now), due, attempt)
              && sum == CountAll(Summary(0, 0, 0), due, attempt)
    {
      sum := Summary(0, 0, 0);
      var cursor := EnsureWatermark(now);
      ghost var todo := SweptThrough(tables, cursor, batchSize);
      ghost var store', sum' := HandleAll(store, todo, attempt), CountAll(sum, todo, attempt);
      var more, i := true, 0;
      while more
        invariant i <= |tables|
        invariant more ==> Ends(tables[i..], cursor, batchSize) && todo == SweptThrough(tables[i..], cursor, batchSize)
        invariant !more ==> todo == []
        invariant HandleAll(store, todo, attempt) == store' && CountAll(sum, todo, attempt) == sum'
        decreases more, |tables| - i
      {
        ghost var batch, rest := RestOfRun(tables, i, cursor, batchSize);
        var pending := SelectPending(tables[i], cursor, batchSize);
        i := i + 1;
        if pending == [] {
          break;
        }
        more := |pending| >= batchSize;
        HandleJoin(store, sum, pending, rest, attempt);
        sum, cursor := SweepBatch(pending, attempt, sum);
        todo := rest;
      }
    }

    /** A scope's run, with its summary and its effect counted out from the tries. */
    method SweepScope(tables: seq<seq<Row>>, batchSize: nat, now: int, attempt: Attempts) returns (sum: Summary)
      requires Ends(tables, FirstCursor(store, now), batchSize)
      modifies this
      ensures var due := SweptThrough(tables, FirstCursor(old(store), now), batchSize);
              && store == HandleAll(WithWatermark(old(store), now), due, attempt)
              && sum == CountAll(Summary(0, 0, 0), due, attempt)
      ensures var due := SweptThrough(tables, if old(store.watermark).Some? then old(store.watermark).value.lastSeenDeletedAt else now, batchSize);
              && sum.swept == |set i | 0 <= i < |due| && (attempt(due[i].id, 0).Some? || attempt(due[i].id, 1).Some? || attempt(due[i].id, 2).Some?)|
              && sum.permanentFailures ==
                   |set i | 0 <= i < |due| && attempt(due[i].id, 0).None? && attempt(due[i].id, 1).None? && attempt(due[i].id, 2).None?|
              && sum.rowsTotal == Sum(seq(|due|, i requires 0 <= i < |due| =>
                   if attempt(due[i].id, 0).Some? then attempt(due[i].id, 0).value
                   else if attempt(due[i].id, 1).Some? then attempt(due[i].id, 1).value
                   else if attempt(due[i].id, 2).Some? then attempt(due[i].id, 2).value else 0))
              && store.cascaded == old(store.cascaded) + (set r | r in due && (attempt(r.id, 0).Some? || attempt(r.id, 1).Some? || attempt(r.id, 2).Some?) :: r.id)
              && store.givenUp == old(store.givenUp) + (set r | r in due && attempt(r.id, 0).None? && attempt(r.id, 1).None? && attempt(r.id, 2).None? :: r.id)
              && (if due == [] then store.watermark == (if old(store.watermark).Some? then old(store.watermark) else Some(WatermarkRow(now, None, 0, false)))
                  else
                    var id := due[|due| - 1].id;
                    store.watermark == Some(WatermarkRow(due[|due| - 1].deletedAt, Some(id),
                      if attempt(id, 0).Some? then attempt(id, 0).value
                      else if attempt(id, 1).Some? then attempt(id, 1).value
                      else if attempt(id, 2).Some? then attempt(id, 2).value else 0,
                      !(attempt(id, 0).Some? || attempt(id, 1).Some? || attempt(id, 2).Some?))))
    {
      SweptCounted(tables, store.watermark, now, batchSize, attempt);
      SweptStored(SweptThrough(tables, FirstCursor(store, now), batchSize), store, now, attempt);
      sum := RunScope(tables, batchSize, now, attempt);
    }
  }
}
