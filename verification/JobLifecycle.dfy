/** The lifecycle of job rows under concurrent writers: each write looks the job up first,
    and an insert for want of a row comes later. */
module JobLifecycle {
  import opened Seqs
  import opened JobRuns

  type Txn = nat

  // A writer that has found no row and is about to insert one.
  datatype Missing = Missing(job: string, function_: string, workspace: Option<nat>, running: bool)

  datatype State = State(rows: Rows, open: map<Txn, Missing>)

  /** `Miss` is a lookup without an answer, by the enqueuer or, with `running`, by the
      worker. `Start` and `Finish` write to the row their lookup has found. */
  datatype Step =
    | Miss(txn: Txn, missing: Missing)
    | Insert(txn: Txn, id: RowId, createdAt: Time)
    | GiveUp(txn: Txn)
    | Start(job: string, function_: string, workspace: Option<nat>, hit: RowId)
    | Finish(job: string, status: Status, at: Time, hit: RowId)
    | Purge(cutoff: Time)

  ghost predicate Enabled(s: State, step: Step) {
    match step
    case Miss(txn, m) => txn !in s.open && IsLookup(s.rows, m.job, None)
    case Insert(txn, id, _) => txn in s.open && id !in s.rows
    case GiveUp(txn) => txn in s.open
    case Start(job, _, _, hit) => IsLookup(s.rows, job, Some(hit))
    case Finish(job, _, _, hit) => IsLookup(s.rows, job, Some(hit))
    case Purge(_) => true
  }

  function NewRow(m: Missing, createdAt: Time): JobRun {
    JobRun(m.job, m.function_, if m.running then Running else Queued, None, m.workspace, createdAt)
  }

  ghost function Apply(s: State, step: Step): State
    requires Enabled(s, step)
  {
    match step
    case Miss(txn, m) => s.(open := s.open[txn := m])
    case Insert(txn, id, at) => State(s.rows[id := NewRow(s.open[txn], at)], s.open - {txn})
    case GiveUp(txn) => s.(open := s.open - {txn})
    case Start(_, f, workspace, hit) => s.(rows := s.rows[hit := Started(s.rows[hit], f, workspace)])
    case Finish(_, status, at, hit) => s.(rows := s.rows[hit := Finished(s.rows[hit], status, at)])
    case Purge(cutoff) => s.(rows := Purged(s.rows, cutoff))
  }

  ghost predicate ValidRun(s: State, steps: seq<Step>)
    decreases |steps|
  {
    steps == [] || (Enabled(s, steps[0]) && ValidRun(Apply(s, steps[0]), steps[1..]))
  }

  ghost function Final(s: State, steps: seq<Step>): State
    requires ValidRun(s, steps)
    decreases |steps|
  {
    if steps == [] then s else Final(Apply(s, steps[0]), steps[1..])
  }

  lemma Prepend(s: State, step: Step, rest: seq<Step>)
    requires Enabled(s, step) && ValidRun(Apply(s, step), rest)
    ensures ValidRun(s, [step] + rest) && Final(s, [step] + rest) == Final(Apply(s, step), rest)
  {
    assert ([step] + rest)[1..] == rest;
  }

  // --- One row per job ------------------------------------------------------------------

  ghost predicate OneRowPerJob(rows: Rows) {
    forall a, b :: a in rows && b in rows && rows[a].job == rows[b].job ==> a == b
  }

  ghost predicate OneRowThroughout(s: State, steps: seq<Step>)
    requires ValidRun(s, steps)
    decreases |steps|
  {
    OneRowPerJob(s.rows) && (steps == [] || OneRowThroughout(Apply(s, steps[0]), steps[1..]))
  }

  /** For each open writer, the rows inserted for its job since its lookup and still
      there. */
  type Inserted = map<Txn, set<RowId>>

  ghost function Track(s: State, since: Inserted, step: Step): Inserted
    requires Enabled(s, step) && since.Keys == s.open.Keys
  {
    match step
    case Miss(txn, _) => since[txn := {}]
    case Insert(txn, id, _) =>
      map u | u in since && u != txn :: if s.open[u].job == s.open[txn].job then since[u] + {id} else since[u]
    case GiveUp(txn) => since - {txn}
    case _ => map u | u in since :: since[u] * Apply(s, step).rows.Keys
  }

  /** Nobody inserts a row while one inserted for its job since its own lookup is there. */
  ghost predicate NoOverlap(s: State, steps: seq<Step>, since: Inserted)
    requires ValidRun(s, steps) && since.Keys == s.open.Keys
    decreases |steps|
  {
    steps == [] ||
    (&& (steps[0].Insert? ==> since[steps[0].txn] == {})
     && NoOverlap(Apply(s, steps[0]), steps[1..], Track(s, since, steps[0])))
  }

  // The rows of an open writer's job are the ones inserted since its lookup.
  ghost predicate Tracks(s: State, since: Inserted) {
    && since.Keys == s.open.Keys
    && forall txn, id :: txn in s.open ==> (id in since[txn] <==> id in s.rows && s.rows[id].job == s.open[txn].job)
  }

  lemma StepKeepsTracks(s: State, since: Inserted, step: Step)
    requires Tracks(s, since) && Enabled(s, step)
    ensures Tracks(Apply(s, step), Track(s, since, step))
  {
    var t, after := Apply(s, step), Track(s, since, step);
    forall txn, id | txn in t.open
      ensures id in after[txn] <==> id in t.rows && t.rows[id].job == t.open[txn].job
    {
    }
  }

  lemma InsertKeepsOneRowIff(s: State, since: Inserted, step: Step)
    requires Tracks(s, since) && Enabled(s, step) && OneRowPerJob(s.rows)
    ensures OneRowPerJob(Apply(s, step).rows) <==> (step.Insert? ==> since[step.txn] == {})
  {
    var t := Apply(s, step);
    if step.Insert? && since[step.txn] != {} {
      var id :| id in since[step.txn];
      assert t.rows[id].job == t.rows[step.id].job;
    }
  }

  /** No job ever has a second row exactly if no writer inserts over a row inserted for its
      job since its lookup. */
  lemma {:induction false} OneRowIffNoOverlap(s: State, steps: seq<Step>, since: Inserted)
    requires ValidRun(s, steps) && Tracks(s, since) && OneRowPerJob(s.rows)
    ensures OneRowThroughout(s, steps) <==> NoOverlap(s, steps, since)
    decreases |steps|
  {
    if steps != [] {
      StepKeepsTracks(s, since, steps[0]);
      InsertKeepsOneRowIff(s, since, steps[0]);
      var t := Apply(s, steps[0]);
      if OneRowPerJob(t.rows) {
        OneRowIffNoOverlap(t, steps[1..], Track(s, since, steps[0]));
      } else {
        assert !OneRowThroughout(t, steps[1..]);
      }
    }
  }

  // --- What a second row does -------------------------------------------------------------

  ghost predicate StaysIn(s: State, steps: seq<Step>, id: RowId)
    requires ValidRun(s, steps)
    decreases |steps|
  {
    id in s.rows && (steps == [] || StaysIn(Apply(s, steps[0]), steps[1..], id))
  }

  predicate InFlight(r: JobRun) {
    r.status.Queued? || r.status.Running?
  }

  /** Of two rows of a job the older is out of reach: whatever is written, as long as the
      newer one is there, the older keeps every column unless it is a success, which a purge
      may delete. In flight it counts in every window of every matching statistic. */
  lemma {:induction false} OlderRowIsStuck(s: State, steps: seq<Step>, newer: RowId, older: RowId)
    requires ValidRun(s, steps) && StaysIn(s, steps, newer) && older in s.rows
    requires s.rows[older].job == s.rows[newer].job && s.rows[older].createdAt < s.rows[newer].createdAt
    requires !s.rows[older].status.Success?
    ensures older in Final(s, steps).rows && Final(s, steps).rows[older] == s.rows[older]
    ensures InFlight(s.rows[older]) ==>
              forall since, workspace :: Scoped(s.rows[older], workspace) ==> older in Matching(Final(s, steps).rows, since, workspace)
    decreases |steps|
  {
    if steps != [] {
      var t := Apply(s, steps[0]);
      assert newer in t.rows;
      assert t.rows[newer].job == s.rows[newer].job && t.rows[newer].createdAt == s.rows[newer].createdAt;
      assert older in t.rows && t.rows[older] == s.rows[older];
      OlderRowIsStuck(t, steps[1..], newer, older);
    }
  }

  /** It happens to any new job: the enqueuer's lookup finds nothing, the worker starts the
      job and inserts its row, and the enqueuer's row, the older one, stays QUEUED. */
  lemma WorkerOvertakesEnqueuer(rows: Rows, job: string, f: string, workspace: Option<nat>, queued: RowId, running: RowId, at: Time)
    returns (steps: seq<Step>)
    requires OneRowPerJob(rows) && IsLookup(rows, job, None) && queued !in rows && running !in rows && queued != running
    ensures ValidRun(State(rows, map[]), steps)
    ensures Final(State(rows, map[]), steps)
            == State(rows[running := JobRun(job, f, Running, None, workspace, at + 1)][queued := JobRun(job, f, Queued, None, workspace, at)], map[])
    ensures !OneRowPerJob(Final(State(rows, map[]), steps).rows)
  {
    var one, two := Missing(job, f, workspace, false), Missing(job, f, workspace, true);
    var s0 := State(rows, map[]);
    var s1 := Apply(s0, Miss(0, one));
    var s2 := Apply(s1, Miss(1, two));
    var s3 := Apply(s2, Insert(1, running, at + 1));
    var s4 := Apply(s3, Insert(0, queued, at));
    Prepend(s3, Insert(0, queued, at), []);
    Prepend(s2, Insert(1, running, at + 1), [Insert(0, queued, at)] + []);
    Prepend(s1, Miss(1, two), [Insert(1, running, at + 1)] + ([Insert(0, queued, at)] + []));
    Prepend(s0, Miss(0, one), [Miss(1, two)] + ([Insert(1, running, at + 1)] + ([Insert(0, queued, at)] + [])));
    steps := [Miss(0, one)] + ([Miss(1, two)] + ([Insert(1, running, at + 1)] + ([Insert(0, queued, at)] + [])));
    assert s4.open == map[];
    assert s4.rows[queued].job == s4.rows[running].job;
  }

  // --- Permanent failures ------------------------------------------------------------------

  // The step writes over a permanent failure with something else.
  predicate Reopens(rows: Rows, step: Step) {
    (step.Start? || (step.Finish? && !step.status.FailedPermanent?)) && step.hit in rows && rows[step.hit].status.FailedPermanent?
  }

  /** A step forgets a permanent failure exactly when it starts or finishes that job
      again; a purge never does. */
  lemma ForgetsPermanentIff(s: State, step: Step)
    requires Enabled(s, step)
    ensures !(Permanent(s.rows, None) <= Permanent(Apply(s, step).rows, None)) <==> Reopens(s.rows, step)
  {
    if Reopens(s.rows, step) {
      assert step.hit in Permanent(s.rows, None);
      assert step.hit !in Permanent(Apply(s, step).rows, None);
    }
  }

  ghost predicate NeverReopens(s: State, steps: seq<Step>)
    requires ValidRun(s, steps)
    decreases |steps|
  {
    steps == [] || (!Reopens(s.rows, steps[0]) && NeverReopens(Apply(s, steps[0]), steps[1..]))
  }

  /** The lifetime total of permanent failures never falls unless a step reopens one,
      however the writers interleave. */
  lemma {:induction false} RunKeepsPermanent(s: State, steps: seq<Step>)
    requires ValidRun(s, steps) && NeverReopens(s, steps)
    ensures |Permanent(s.rows, None)| <= |Permanent(Final(s, steps).rows, None)|
    decreases |steps|
  {
    if steps != [] {
      var t := Apply(s, steps[0]);
      ForgetsPermanentIff(s, steps[0]);
      SubsetSize(Permanent(s.rows, None), Permanent(t.rows, None));
      RunKeepsPermanent(t, steps[1..]);
    }
  }
}
