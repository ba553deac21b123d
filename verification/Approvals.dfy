/** Approval rows and the actors that race to close them. Every decider reads the
    row, and writes it back by primary key when its transaction commits. */
module Approvals {
  import opened Seqs

  type Id = nat
  type Tid = nat

  datatype Status = Pending | Approved | Denied | Expired | Cancelled

  datatype Approval = Approval(
    workspace: nat, session: Option<nat>, run: Option<nat>, resourceType: Option<string>, expiresAt: Option<int>,
    status: Status, decidedAt: Option<int>, decidedReason: Option<string>, decidedBy: Option<nat>, reminderSent: bool)

  type Table = map<Id, Approval>

  datatype Decision = Decision(status: Status, at: int, reason: Option<string>, actor: Option<nat>)

  // A row nobody has decided carries no decision data.
  predicate Clean(a: Approval) {
    a.status.Pending? ==> a.decidedAt.None? && a.decidedReason.None? && a.decidedBy.None?
  }

  predicate AllClean(t: Table) {
    forall id :: id in t ==> Clean(t[id])
  }

  // What a decider sets on the object it has loaded.
  function Decide(a: Approval, d: Decision): Approval {
    a.(status := d.status, decidedAt := Some(d.at), decidedReason := d.reason, decidedBy := d.actor)
  }

  /** What its commit writes to the stored row: the columns that differ from the
      PENDING row it loaded. A missing reason or decider differs in nothing. */
  function Store(a: Approval, d: Decision): Approval {
    a.(status := d.status, decidedAt := Some(d.at),
       decidedReason := if d.reason.Some? then d.reason else a.decidedReason,
       decidedBy := if d.actor.Some? then d.actor else a.decidedBy)
  }

  /** On an undecided row the two agree. */
  lemma StoreIsDecide(a: Approval, d: Decision)
    requires a.status.Pending? && Clean(a)
    ensures Store(a, d) == Decide(a, d)
  {
  }

  function StoreAll(t: Table, writes: map<Id, Decision>): Table {
    map id | id in t :: if id in writes then Store(t[id], writes[id]) else t[id]
  }

  // --- Interleavings -------------------------------------------------------------

  /** `open` maps each transaction between its read and its commit to the decisions
      it is about to write. */
  datatype State = State(rows: Table, open: map<Tid, map<Id, Decision>>)

  /** Human decisions, run and session cancels, the zombie reaper and each transaction
      of the expiry processor all have this shape. */
  datatype Step =
    | Create(id: Id, row: Approval)
    | Read(tid: Tid, writes: map<Id, Decision>)
    | Commit(tid: Tid)
    | Rollback(tid: Tid)

  predicate Enabled(s: State, step: Step) {
    match step
    case Create(id, row) => id !in s.rows && row.status.Pending? && Clean(row)
    case Read(tid, writes) =>
      tid !in s.open && forall id :: id in writes ==> id in s.rows && s.rows[id].status.Pending? && !writes[id].status.Pending?
    case Commit(tid) => tid in s.open
    case Rollback(tid) => tid in s.open
  }

  function Apply(s: State, step: Step): State
    requires Enabled(s, step)
  {
    match step
    case Create(id, row) => s.(rows := s.rows[id := row])
    case Read(tid, writes) => s.(open := s.open[tid := writes])
    case Commit(tid) => State(StoreAll(s.rows, s.open[tid]), s.open - {tid})
    case Rollback(tid) => s.(open := s.open - {tid})
  }

  ghost predicate ValidRun(s: State, steps: seq<Step>)
    decreases |steps|
  {
    steps == [] || (Enabled(s, steps[0]) && ValidRun(Apply(s, steps[0]), steps[1..]))
  }

  ghost function Final(s: State, steps: seq<Step>): State
    requires ValidRun(s, steps)
    decreases |steps|
  {
    if steps == [] then s else Final(Apply(s, steps[0]), steps[1..])
  }

  ghost predicate Wellformed(s: State) {
    && AllClean(s.rows)
    && forall tid, id :: tid in s.open && id in s.open[tid] ==> id in s.rows && !s.open[tid][id].status.Pending?
  }

  // How often a decision on row `id` is committed.
  ghost function Decisions(s: State, steps: seq<Step>, id: Id): nat
    requires ValidRun(s, steps)
    decreases |steps|
  {
    if steps == [] then 0
    else
      (if steps[0].Commit? && id in s.open[steps[0].tid] then 1 else 0) + Decisions(Apply(s, steps[0]), steps[1..], id)
  }

  lemma StepKeepsWellformed(s: State, steps: seq<Step>)
    requires Wellformed(s) && ValidRun(s, steps)
    ensures steps != [] ==> Wellformed(Apply(s, steps[0]))
  {
  }

  // Each commit finds every row it writes still PENDING.
  ghost predicate Guarded(s: State, steps: seq<Step>)
    requires ValidRun(s, steps) && Wellformed(s)
    decreases |steps|
  {
    StepKeepsWellformed(s, steps);
    steps == [] ||
    ((steps[0].Commit? ==> forall id :: id in s.open[steps[0].tid] ==> s.rows[id].status.Pending?)
     && Guarded(Apply(s, steps[0]), steps[1..]))
  }

  ghost predicate DecidedAtMostOnce(s: State, steps: seq<Step>)
    requires ValidRun(s, steps)
  {
    forall id :: Decisions(s, steps, id) <= 1
  }

  lemma {:induction false} GuardedDecidesOnce(s: State, steps: seq<Step>, id: Id)
    requires Wellformed(s) && ValidRun(s, steps) && Guarded(s, steps)
    ensures Decisions(s, steps, id) <= if id in s.rows && !s.rows[id].status.Pending? then 0 else 1
    decreases |steps|
  {
    if steps != [] {
      StepKeepsWellformed(s, steps);
      GuardedDecidesOnce(Apply(s, steps[0]), steps[1..], id);
    }
  }

  // `done` are the rows on which a decision has been committed so far.
  lemma {:induction false} UnguardedDecidesTwice(s: State, steps: seq<Step>, done: set<Id>) returns (id: Id)
    requires Wellformed(s) && ValidRun(s, steps) && !Guarded(s, steps)
    requires forall tid, r :: tid in s.open && r in s.open[tid] && !s.rows[r].status.Pending? ==> r in done
    ensures Decisions(s, steps, id) + (if id in done then 1 else 0) >= 2
    decreases |steps|
  {
    StepKeepsWellformed(s, steps);
    var step, t := steps[0], Apply(s, steps[0]);
    if step.Commit? && exists r :: r in s.open[step.tid] && !s.rows[r].status.Pending? {
      id :| id in s.open[step.tid] && !s.rows[id].status.Pending?;
    } else if step.Commit? {
      var now := done + s.open[step.tid].Keys;
      id := UnguardedDecidesTwice(t, steps[1..], now);
    } else {
      id := UnguardedDecidesTwice(t, steps[1..], done);
    }
  }

  // Every row leaves PENDING at most once exactly in the guarded runs.
  lemma DecidedOnceIffGuarded(s: State, steps: seq<Step>)
    requires Wellformed(s) && s.open == map[] && ValidRun(s, steps)
    ensures DecidedAtMostOnce(s, steps) <==> Guarded(s, steps)
  {
    if Guarded(s, steps) {
      forall id
        ensures Decisions(s, steps, id) <= 1
      {
        GuardedDecidesOnce(s, steps, id);
      }
    } else {
      var id := UnguardedDecidesTwice(s, steps, {});
    }
  }

  predicate SameDecision(a: Approval, b: Approval) {
    a.status == b.status && a.decidedAt == b.decidedAt && a.decidedReason == b.decidedReason && a.decidedBy == b.decidedBy
  }

  /** In a guarded run the first decision stands: status, time, reason and decider
      of a decided row never change. */
  lemma {:induction false} FirstDecisionStands(s: State, steps: seq<Step>, id: Id)
    requires Wellformed(s) && ValidRun(s, steps) && Guarded(s, steps)
    requires id in s.rows && !s.rows[id].status.Pending?
    ensures id in Final(s, steps).rows && SameDecision(Final(s, steps).rows[id], s.rows[id])
    decreases |steps|
  {
    if steps != [] {
      StepKeepsWellformed(s, steps);
      FirstDecisionStands(Apply(s, steps[0]), steps[1..], id);
    }
  }

  // --- Which schedules are guarded ---------------------------------------------------

  /** The pairs of an open transaction and a row such that somebody else has committed a
      decision on the row since the transaction read it. */
  type Overtaken = set<(Tid, Id)>

  ghost function Overtake(s: State, over: Overtaken, step: Step): Overtaken
    requires Enabled(s, step)
  {
    match step
    case Read(tid, _) => set p | p in over && p.0 != tid
    case Commit(tid) => over + set u, id | u in s.open && u != tid && id in s.open[u] && id in s.open[tid] :: (u, id)
    case _ => over
  }

  /** No transaction commits a decision on a row on which another one has committed since
      its own read. */
  ghost predicate NoLateCommit(s: State, steps: seq<Step>, over: Overtaken)
    requires ValidRun(s, steps)
    decreases |steps|
  {
    steps == [] ||
    (&& (steps[0].Commit? ==> forall id :: id in s.open[steps[0].tid] ==> (steps[0].tid, id) !in over)
     && NoLateCommit(Apply(s, steps[0]), steps[1..], Overtake(s, over, steps[0])))
  }

  // What a transaction is about to write has been decided iff it has been overtaken there.
  ghost predicate OvertakenIsDecided(s: State, over: Overtaken) {
    forall tid, id :: tid in s.open && id in s.open[tid] ==>
      id in s.rows && ((tid, id) in over <==> !s.rows[id].status.Pending?)
  }

  lemma StepKeepsOvertaken(s: State, over: Overtaken, step: Step)
    requires Wellformed(s) && Enabled(s, step) && OvertakenIsDecided(s, over)
    ensures Wellformed(Apply(s, step)) && OvertakenIsDecided(Apply(s, step), Overtake(s, over, step))
  {
    var t, after := Apply(s, step), Overtake(s, over, step);
    forall tid, id | tid in t.open && id in t.open[tid]
      ensures id in t.rows && !t.open[tid][id].status.Pending?
      ensures (tid, id) in after <==> !t.rows[id].status.Pending?
    {
    }
  }

  lemma {:induction false} GuardedIffNoLateCommit(s: State, steps: seq<Step>, over: Overtaken)
    requires Wellformed(s) && ValidRun(s, steps) && OvertakenIsDecided(s, over)
    ensures Guarded(s, steps) <==> NoLateCommit(s, steps, over)
    decreases |steps|
  {
    if steps != [] {
      StepKeepsOvertaken(s, over, steps[0]);
      GuardedIffNoLateCommit(Apply(s, steps[0]), steps[1..], Overtake(s, over, steps[0]));
    }
  }

  /** Every row leaves PENDING at most once exactly in the schedules without a late commit. */
  lemma DecidedOnceIffNoLateCommit(s: State, steps: seq<Step>)
    requires Wellformed(s) && s.open == map[] && ValidRun(s, steps)
    ensures DecidedAtMostOnce(s, steps) <==> NoLateCommit(s, steps, {})
  {
    GuardedIffNoLateCommit(s, steps, {});
    DecidedOnceIffGuarded(s, steps);
  }

  /** In such a schedule the first decision stands: status, time, reason and decider of a
      row decided at any point are the same at the end. */
  lemma FirstDecisionWins(s: State, steps: seq<Step>, over: Overtaken, id: Id)
    requires Wellformed(s) && ValidRun(s, steps) && OvertakenIsDecided(s, over) && NoLateCommit(s, steps, over)
    requires id in s.rows && !s.rows[id].status.Pending?
    ensures id in Final(s, steps).rows && SameDecision(Final(s, steps).rows[id], s.rows[id])
  {
    GuardedIffNoLateCommit(s, steps, over);
    FirstDecisionStands(s, steps, id);
  }

  // No decider touches the expiry or the reminder flag.
  lemma {:induction false} FixedColumns(s: State, steps: seq<Step>, id: Id)
    requires ValidRun(s, steps) && id in s.rows
    ensures var f := Final(s, steps).rows;
            id in f && f[id].expiresAt == s.rows[id].expiresAt && f[id].reminderSent == s.rows[id].reminderSent
    decreases |steps|
  {
    if steps != [] {
      FixedColumns(Apply(s, steps[0]), steps[1..], id);
    }
  }

  lemma {:induction false} StaysDecided(s: State, steps: seq<Step>, id: Id)
    requires Wellformed(s) && ValidRun(s, steps) && id in s.rows && !s.rows[id].status.Pending?
    ensures id in Final(s, steps).rows && !Final(s, steps).rows[id].status.Pending?
    decreases |steps|
  {
    if steps != [] {
      StepKeepsWellformed(s, steps);
      StaysDecided(Apply(s, steps[0]), steps[1..], id);
    }
  }

  /** A row is still PENDING exactly if nobody has committed a decision on it. */
  lemma {:induction false} PendingIffUndecided(s: State, steps: seq<Step>, id: Id)
    requires Wellformed(s) && ValidRun(s, steps) && id in s.rows && s.rows[id].status.Pending?
    ensures id in Final(s, steps).rows && (Final(s, steps).rows[id].status.Pending? <==> Decisions(s, steps, id) == 0)
    decreases |steps|
  {
    if steps != [] {
      StepKeepsWellformed(s, steps);
      var t := Apply(s, steps[0]);
      if t.rows[id].status.Pending? {
        PendingIffUndecided(t, steps[1..], id);
      } else {
        StaysDecided(t, steps[1..], id);
      }
    }
  }

  // --- Reading under a lock -------------------------------------------------------------

  // No two open transactions are about to write the same row.
  ghost predicate Exclusive(s: State) {
    forall a, b, id :: a in s.open && b in s.open && id in s.open[a] && id in s.open[b] ==> a == b
  }

  ghost predicate ExclusiveRun(s: State, steps: seq<Step>)
    requires ValidRun(s, steps)
    decreases |steps|
  {
    Exclusive(s) && (steps == [] || ExclusiveRun(Apply(s, steps[0]), steps[1..]))
  }

  ghost predicate OpenOnPending(s: State) {
    forall tid, id :: tid in s.open && id in s.open[tid] ==> id in s.rows && s.rows[id].status.Pending?
  }

  /** As long as deciders of the same row do not overlap, the first decision wins. */
  lemma {:induction false} ExclusiveRunsAreGuarded(s: State, steps: seq<Step>)
    requires Wellformed(s) && OpenOnPending(s) && ValidRun(s, steps) && ExclusiveRun(s, steps)
    ensures Guarded(s, steps)
    decreases |steps|
  {
    if steps != [] {
      StepKeepsWellformed(s, steps);
      ExclusiveRunsAreGuarded(Apply(s, steps[0]), steps[1..]);
    }
  }

  // A read that takes a row lock waits for every transaction that holds the row.
  ghost predicate TakesLocks(s: State, step: Step) {
    step.Read? ==> forall tid, id :: tid in s.open && id in s.open[tid] ==> id !in step.writes
  }

  ghost predicate LockedRun(s: State, steps: seq<Step>)
    requires ValidRun(s, steps)
    decreases |steps|
  {
    steps == [] || (TakesLocks(s, steps[0]) && LockedRun(Apply(s, steps[0]), steps[1..]))
  }

  lemma {:induction false} LockedIsExclusive(s: State, steps: seq<Step>)
    requires ValidRun(s, steps) && Exclusive(s) && LockedRun(s, steps)
    ensures ExclusiveRun(s, steps)
    decreases |steps|
  {
    if steps != [] {
      LockedIsExclusive(Apply(s, steps[0]), steps[1..]);
    }
  }

  /** If every decider read its rows under a row lock, each row would be decided at most
      once in every run. */
  lemma LockedRunsAreSafe(s: State, steps: seq<Step>)
    requires Wellformed(s) && s.open == map[] && ValidRun(s, steps) && LockedRun(s, steps)
    ensures DecidedAtMostOnce(s, steps) && NoLateCommit(s, steps, {})
  {
    LockedIsExclusive(s, steps);
    ExclusiveRunsAreGuarded(s, steps);
    DecidedOnceIffGuarded(s, steps);
    DecidedOnceIffNoLateCommit(s, steps);
  }

  lemma Prepend(s: State, step: Step, rest: seq<Step>)
    requires Enabled(s, step) && ValidRun(Apply(s, step), rest)
    ensures ValidRun(s, [step] + rest) && Final(s, [step] + rest) == Final(Apply(s, step), rest)
  {
    assert ([step] + rest)[1..] == rest;
  }

  /** Overlapping deciders: a person denies the row while the expiry processor, which
      read it before, goes on to approve it. The stored row ends up approved by the
      processor's reason and in the name of the person who denied it. */
  lemma OverlapTearsTheDecision(row: Approval, person: nat, at: int) returns (steps: seq<Step>)
    requires row.status.Pending? && Clean(row)
    ensures var s := State(map[1 := row], map[]);
            && ValidRun(s, steps)
            && var f := Final(s, steps).rows;
               1 in f && f[1].status == Approved && f[1].decidedReason == Some("ttl auto-execute") && f[1].decidedBy == Some(person)
  {
    var deny := Decision(Denied, at, None, Some(person));
    var auto := Decision(Approved, at + 1, Some("ttl auto-execute"), None);
    var s0 := State(map[1 := row], map[]);
    var s1 := Apply(s0, Read(0, map[1 := auto]));
    var s2 := Apply(s1, Read(1, map[1 := deny]));
    var s3 := Apply(s2, Commit(1));
    assert s3.rows[1] == Store(row, deny);
    var s4 := Apply(s3, Commit(0));
    assert s4.rows[1] == Store(Store(row, deny), auto);
    Prepend(s3, Commit(0), []);
    Prepend(s2, Commit(1), [Commit(0)] + []);
    Prepend(s1, Read(1, map[1 := deny]), [Commit(1)] + ([Commit(0)] + []));
    Prepend(s0, Read(0, map[1 := auto]), [Read(1, map[1 := deny])] + ([Commit(1)] + ([Commit(0)] + [])));
    steps := [Read(0, map[1 := auto])] + ([Read(1, map[1 := deny])] + ([Commit(1)] + ([Commit(0)] + [])));
  }

  // --- The repository -------------------------------------------------------------------

  predicate ForRun(a: Approval, workspace: nat, run: nat) {
    a.workspace == workspace && a.status.Pending? && a.run == Some(run)
  }

  predicate ForSession(a: Approval, workspace: nat, session: nat, run: Option<nat>) {
    a.workspace == workspace && a.session == Some(session) && a.status.Pending? && (run.Some? ==> a.run == run)
  }

  function DecideSet(t: Table, ids: set<Id>, d: Decision): Table {
    map id | id in t :: if id in ids then Decide(t[id], d) else t[id]
  }

  class ApprovalRepository {
    var rows: Table

    constructor ()
      ensures rows == map[]
    {
      rows := map[];
    }

    method Create(id: Id, workspace: nat, session: Option<nat>, run: Option<nat>, resourceType: Option<string>, expiresAt: Option<int>)
      requires id !in rows
      modifies this
      ensures rows.Keys == old(rows).Keys + {id} && (forall r :: r in old(rows) ==> rows[r] == old(rows)[r])
      ensures rows[id].status == Pending && Clean(rows[id]) && !rows[id].reminderSent
      ensures rows[id].workspace == workspace && rows[id].session == session && rows[id].run == run
      ensures rows[id].resourceType == resourceType && rows[id].expiresAt == expiresAt
    {
      rows := rows[id := Approval(workspace, session, run, resourceType, expiresAt, Pending, None, None, None, false)];
    }

    /** A missing row gives None; a decided row is returned as it is. */
    method DecideOne(id: Id, workspace: nat, approved: bool, reason: Option<string>, actor: Option<nat>, now: int, override: Option<Status>)
      returns (result: Option<Approval>)
      modifies this
      ensures id !in old(rows) || old(rows)[id].workspace != workspace ==> result == None && rows == old(rows)
      ensures id in old(rows) && old(rows)[id].workspace == workspace && !old(rows)[id].status.Pending? ==>
                result == Some(old(rows)[id]) && rows == old(rows)
      ensures id in old(rows) && old(rows)[id].workspace == workspace && old(rows)[id].status.Pending? ==>
                var status := if override.Some? then override.value else if approved then Approved else Denied;
                rows == DecideSet(old(rows), {id}, Decision(status, now, reason, actor)) && result == Some(rows[id])
      ensures id in old(rows) && old(rows)[id].workspace == workspace && old(rows)[id].status.Pending? ==>
                && result == Some(rows[id]) && rows.Keys == old(rows).Keys
                && (override.Some? ==> rows[id].status == override.value)
                && (override.None? ==> if approved then rows[id].status.Approved? else rows[id].status.Denied?)
                && rows[id].decidedAt == Some(now) && rows[id].decidedReason == reason && rows[id].decidedBy == actor
                && (var was, row := old(rows)[id], rows[id];
                    && row.workspace == was.workspace && row.session == was.session && row.run == was.run
                    && row.resourceType == was.resourceType && row.expiresAt == was.expiresAt && row.reminderSent == was.reminderSent)
                && forall other :: other in old(rows) && other != id ==> rows[other] == old(rows)[other]
    {
      if id !in rows || rows[id].workspace != workspace {
        return None;
      }
      var row := rows[id];
      if !row.status.Pending? {
        return Some(row);
      }
      if override.Some? {
        row := row.(status := override.value);
      } else {
        row := row.(status := if approved then Approved else Denied);
      }
      row := row.(decidedAt := Some(now), decidedReason := reason, decidedBy := actor);
      rows := rows[id := row];
      result := Some(row);
    }

    method CancelRows(ids: set<Id>, d: Decision)
      requires ids <= rows.Keys
      modifies this
      ensures rows == DecideSet(old(rows), ids, d)
    {
      var left := ids;
      while left != {}
        invariant left <= ids && rows == DecideSet(old(rows), ids - left, d)
        decreases |left|
      {
        var id := Pick(left);
        rows := rows[id := rows[id].(status := d.status, decidedAt := Some(d.at), decidedReason := d.reason, decidedBy := d.actor)];
        left := left - {id};
      }
      assert ids - {} == ids;
    }

    method CancelPendingForRun(workspace: nat, run: nat, actor: Option<nat>, reason: string, now: int) returns (ids: set<Id>)
      modifies this
      ensures ids == set id | id in old(rows) && ForRun(old(rows)[id], workspace, run)
      ensures rows == DecideSet(old(rows), ids, Decision(Cancelled, now, Some(reason), actor))
      ensures forall id :: id in rows ==> !ForRun(rows[id], workspace, run)
      ensures rows.Keys == old(rows).Keys
      ensures forall id :: id in rows ==>
                var was := old(rows)[id];
                && (id in ids <==> was.workspace == workspace && was.status.Pending? && was.run == Some(run))
                && rows[id] == if id in ids then was.(status := Cancelled, decidedAt := Some(now), decidedReason := Some(reason), decidedBy := actor)
                               else was
    {
      ids := set id | id in rows && ForRun(rows[id], workspace, run);
      CancelRows(ids, Decision(Cancelled, now, Some(reason), actor));
    }

    method CancelPendingForSession(workspace: nat, session: nat, run: Option<nat>, actor: Option<nat>, reason: string, now: int)
      returns (ids: set<Id>)
      modifies this
      ensures ids == set id | id in old(rows) && ForSession(old(rows)[id], workspace, session, run)
      ensures rows == DecideSet(old(rows), ids, Decision(Cancelled, now, Some(reason), actor))
      ensures forall id :: id in rows ==> !ForSession(rows[id], workspace, session, run)
      ensures rows.Keys == old(rows).Keys
      ensures forall id :: id in rows ==>
                var was := old(rows)[id];
                && (id in ids <==> was.workspace == workspace && was.status.Pending? && was.session == Some(session) && (run.Some? ==> was.run == run))
                && rows[id] == if id in ids then was.(status := Cancelled, decidedAt := Some(now), decidedReason := Some(reason), decidedBy := actor)
                               else was
    {
      ids := set id | id in rows && ForSession(rows[id], workspace, session, run);
      CancelRows(ids, Decision(Cancelled, now, Some(reason), actor));
    }
  }

  /** A commit stores in every PENDING row it writes exactly the status, time, reason and
      decider of its decision, whatever the row, and touches nothing else. */
  lemma CommitStores(s: State, tid: Tid, id: Id)
    requires Wellformed(s) && Enabled(s, Commit(tid)) && id in s.rows
    ensures var t := Apply(s, Commit(tid));
            && t.rows.Keys == s.rows.Keys
            && (id !in s.open[tid] ==> t.rows[id] == s.rows[id])
            && (id in s.open[tid] && s.rows[id].status.Pending? ==>
                  var d := s.open[tid][id];
                  t.rows[id] == Approval(
                    s.rows[id].workspace, s.rows[id].session, s.rows[id].run, s.rows[id].resourceType, s.rows[id].expiresAt,
                    d.status, Some(d.at), d.reason, d.actor, s.rows[id].reminderSent))
  {
    assert Clean(s.rows[id]);
  }

  /** On a row that has been decided meanwhile it overwrites status and time, and reason
      and decider only if it brings its own. */
  lemma CommitOverwrites(s: State, tid: Tid, id: Id)
    requires Enabled(s, Commit(tid)) && id in s.rows && id in s.open[tid]
    ensures var row, d := Apply(s, Commit(tid)).rows[id], s.open[tid][id];
            && row.status == d.status && row.decidedAt == Some(d.at)
            && row.decidedReason == (if d.reason == None then s.rows[id].decidedReason else d.reason)
            && row.decidedBy == (if d.actor == None then s.rows[id].decidedBy else d.actor)
  {
  }

  /** What a repository method does to PENDING rows is one Read and one Commit with
      nothing in between. */
  lemma MethodIsOneTransaction(s: State, tid: Tid, ids: set<Id>, d: Decision)
    requires Wellformed(s) && tid !in s.open && !d.status.Pending?
    requires forall id :: id in ids ==> id in s.rows && s.rows[id].status.Pending?
    ensures var read := Read(tid, map id | id in ids :: d);
            Enabled(s, read) && Apply(Apply(s, read), Commit(tid)).rows == DecideSet(s.rows, ids, d)
  {
    var writes := map id | id in ids :: d;
    var t := Apply(s, Read(tid, writes));
    forall id | id in ids
      ensures Store(s.rows[id], d) == Decide(s.rows[id], d)
    {
      StoreIsDecide(s.rows[id], d);
    }
    assert Apply(t, Commit(tid)).rows == DecideSet(s.rows, ids, d);
  }
}
