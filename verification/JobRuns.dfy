/** The background-job table: its lifecycle writes, dashboard counters and purge. */
module JobRuns {
  import opened Seqs

  type RowId = nat
  type Time = int

  datatype Status = Queued | Running | Success | Failed | FailedPermanent

  datatype JobRun = JobRun(job: string, function_: string, status: Status, finishedAt: Option<Time>, workspace: Option<nat>, createdAt: Time)

  type Rows = map<RowId, JobRun>

  // --- What the counters should say ------------------------------------------------

  // A filter that is absent lets every row through.
  predicate Scoped(r: JobRun, workspace: Option<nat>) {
    workspace.None? || r.workspace == workspace
  }

  predicate Counted(r: JobRun, since: Time, workspace: Option<nat>) {
    Scoped(r, workspace) && (r.status.Queued? || r.status.Running? || (r.finishedAt.Some? && r.finishedAt.value >= since))
  }

  function Matching(rows: Rows, since: Time, workspace: Option<nat>): set<RowId> {
    set id | id in rows && Counted(rows[id], since, workspace)
  }

  function WithStatus(rows: Rows, since: Time, workspace: Option<nat>, s: Status): set<RowId> {
    set id | id in rows && Counted(rows[id], since, workspace) && rows[id].status == s
  }

  function Cell(rows: Rows, since: Time, workspace: Option<nat>, f: string, s: Status): set<RowId> {
    set id | id in rows && Counted(rows[id], since, workspace) && rows[id].function_ == f && rows[id].status == s
  }

  function Permanent(rows: Rows, workspace: Option<nat>): set<RowId> {
    set id | id in rows && Scoped(rows[id], workspace) && rows[id].status.FailedPermanent?
  }

  type Bucket = map<Status, nat>
  type Stats = map<string, Bucket>

  /** One bucket for each function with a matching row, and in it one exact count for
      each status. */
  ghost predicate Describes(rows: Rows, since: Time, workspace: Option<nat>, stats: Stats) {
    && (forall f :: f in stats <==> exists id :: id in Matching(rows, since, workspace) && rows[id].function_ == f)
    && (forall f, s: Status :: f in stats ==> s in stats[f] && stats[f][s] == |Cell(rows, since, workspace, f, s)|)
  }

  lemma DisjointUnion<T>(a: set<T>, b: set<T>)
    requires a !! b
    ensures |a + b| == |a| + |b|
  {
  }

  lemma FiveParts<T>(all: set<T>, q: set<T>, r: set<T>, s: set<T>, f: set<T>, p: set<T>)
    requires forall x :: x in all <==> x in q || x in r || x in s || x in f || x in p
    requires q !! r !! s !! f !! p
    ensures |all| == |q| + |r| + |s| + |f| + |p|
  {
    assert all == q + r + s + f + p;
    DisjointUnion(q, r);
    DisjointUnion(q + r, s);
    DisjointUnion(q + r + s, f);
    DisjointUnion(q + r + s + f, p);
  }

  /** The five global counters add up to the number of matching rows. */
  lemma CountersAddUp(rows: Rows, since: Time, workspace: Option<nat>)
    ensures |Matching(rows, since, workspace)| ==
            |WithStatus(rows, since, workspace, Queued)| + |WithStatus(rows, since, workspace, Running)|
            + |WithStatus(rows, since, workspace, Success)| + |WithStatus(rows, since, workspace, Failed)|
            + |WithStatus(rows, since, workspace, FailedPermanent)|
  {
    var q, r, s := WithStatus(rows, since, workspace, Queued), WithStatus(rows, since, workspace, Running), WithStatus(rows, since, workspace, Success);
    var f, p := WithStatus(rows, since, workspace, Failed), WithStatus(rows, since, workspace, FailedPermanent);
    var all := Matching(rows, since, workspace);
    forall id
      ensures id in all <==> id in q || id in r || id in s || id in f || id in p
    {
      if id in all {
        match rows[id].status case Queued => case Running => case Success => case Failed => case FailedPermanent =>
      }
    }
    FiveParts(all, q, r, s, f, p);
  }

  // The counted sets written out.
  lemma CellsAre(rows: Rows, since: Time, workspace: Option<nat>)
    ensures forall f, s: Status ::
              Cell(rows, since, workspace, f, s) ==
              set id | id in rows && rows[id].function_ == f && rows[id].status == s && (workspace.None? || rows[id].workspace == workspace)
                       && (s.Queued? || s.Running? || (rows[id].finishedAt.Some? && rows[id].finishedAt.value >= since))
    ensures forall s: Status ::
              WithStatus(rows, since, workspace, s) ==
              set id | id in rows && rows[id].status == s && (workspace.None? || rows[id].workspace == workspace)
                       && (s.Queued? || s.Running? || (rows[id].finishedAt.Some? && rows[id].finishedAt.value >= since))
  {
  }

  // --- Purging ----------------------------------------------------------------------

  predicate Expired(r: JobRun, cutoff: Time) {
    r.status.Success? && r.finishedAt.Some? && r.finishedAt.value < cutoff
  }

  function Candidates(rows: Rows, cutoff: Time): set<RowId> {
    set id | id in rows && Expired(rows[id], cutoff)
  }

  function Purged(rows: Rows, cutoff: Time): Rows {
    map id | id in rows && !Expired(rows[id], cutoff) :: rows[id]
  }

  /** A purge loses exactly the candidates, leaves every other row as it was, leaves no
      candidate behind and keeps the permanent failures of every workspace. */
  lemma PurgeTakesTheCandidates(rows: Rows, cutoff: Time, workspace: Option<nat>)
    ensures rows.Keys - Purged(rows, cutoff).Keys == Candidates(rows, cutoff)
    ensures |rows| == |Purged(rows, cutoff)| + |Candidates(rows, cutoff)|
    ensures forall id :: id in Purged(rows, cutoff) ==> id in rows && Purged(rows, cutoff)[id] == rows[id]
    ensures Candidates(Purged(rows, cutoff), cutoff) == {}
    ensures Permanent(Purged(rows, cutoff), workspace) == Permanent(rows, workspace)
  {
    var left := Purged(rows, cutoff);
    assert rows.Keys == left.Keys + Candidates(rows, cutoff);
    assert |rows.Keys| == |left.Keys| + |Candidates(rows, cutoff)|;
  }

  lemma NothingToPurge(rows: Rows, cutoff: Time)
    ensures |Candidates(rows, cutoff)| == 0 ==> Purged(rows, cutoff) == rows
  {
    if |Candidates(rows, cutoff)| == 0 {
      forall id | id in rows
        ensures !Expired(rows[id], cutoff)
      {
        assert id !in Candidates(rows, cutoff);
      }
    }
  }

  ghost function Names(rows: Rows, since: Time, workspace: Option<nat>): set<string> {
    set id | id in Matching(rows, since, workspace) :: rows[id].function_
  }

  ghost function StatsOf(rows: Rows, since: Time, workspace: Option<nat>): Stats {
    map f | f in Names(rows, since, workspace) ::
      map[Queued := |Cell(rows, since, workspace, f, Queued)|, Running := |Cell(rows, since, workspace, f, Running)|,
          Success := |Cell(rows, since, workspace, f, Success)|, Failed := |Cell(rows, since, workspace, f, Failed)|,
          FailedPermanent := |Cell(rows, since, workspace, f, FailedPermanent)|]
  }

  lemma StatsExist(rows: Rows, since: Time, workspace: Option<nat>)
    ensures Describes(rows, since, workspace, StatsOf(rows, since, workspace))
  {
    forall f, s: Status | f in StatsOf(rows, since, workspace)
      ensures s in StatsOf(rows, since, workspace)[f] && StatsOf(rows, since, workspace)[f][s] == |Cell(rows, since, workspace, f, s)|
    {
      match s case Queued => case Running => case Success => case Failed => case FailedPermanent =>
    }
  }

  /** A purge leaves the counters of a window alone exactly when no success of the
      workspace finished inside the window and before the cutoff. */
  lemma StatsSurviveIff(rows: Rows, cutoff: Time, since: Time, workspace: Option<nat>)
    ensures (forall stats :: Describes(Purged(rows, cutoff), since, workspace, stats) <==> Describes(rows, since, workspace, stats))
            <==> forall id :: id in rows && Scoped(rows[id], workspace) && Expired(rows[id], cutoff) ==> rows[id].finishedAt.value < since
  {
    var left := Purged(rows, cutoff);
    if forall id :: id in rows && Scoped(rows[id], workspace) && Expired(rows[id], cutoff) ==> rows[id].finishedAt.value < since {
      assert Matching(left, since, workspace) == Matching(rows, since, workspace);
      forall f, s: Status
        ensures Cell(left, since, workspace, f, s) == Cell(rows, since, workspace, f, s)
      {
      }
    } else {
      var id :| id in rows && Scoped(rows[id], workspace) && Expired(rows[id], cutoff) && rows[id].finishedAt.value >= since;
      var f := rows[id].function_;
      var before, after := Cell(rows, since, workspace, f, Success), Cell(left, since, workspace, f, Success);
      assert after <= before - {id};
      SubsetSize(after, before - {id});
      var stats := StatsOf(rows, since, workspace);
      StatsExist(rows, since, workspace);
      assert id in Matching(rows, since, workspace);
      assert f in stats && stats[f][Success] == |before|;
      assert !Describes(left, since, workspace, stats);
    }
  }

  /** A cutoff no later than the window's start is the exact guard: it protects the
      counters of every table, and any later cutoff changes those of some table. */
  lemma CutoffGuardIff(cutoff: Time, since: Time, workspace: Option<nat>)
    ensures (forall rows: Rows, stats :: Describes(Purged(rows, cutoff), since, workspace, stats) <==> Describes(rows, since, workspace, stats))
            <==> cutoff <= since
  {
    if cutoff <= since {
      forall rows: Rows, stats
        ensures Describes(Purged(rows, cutoff), since, workspace, stats) <==> Describes(rows, since, workspace, stats)
      {
        StatsSurviveIff(rows, cutoff, since, workspace);
      }
    } else {
      var lost := JobRun("job", "f", Success, Some(since), workspace, 0);
      var rows: Rows := map[0 := lost];
      assert rows[0] == lost && Scoped(rows[0], workspace) && Expired(rows[0], cutoff);
      StatsSurviveIff(rows, cutoff, since, workspace);
    }
  }

  // --- Lifecycle writes ------------------------------------------------------------------

  /** An answer to the lookup by job id: the newest row of the job. */
  ghost predicate IsLookup(rows: Rows, job: string, hit: Option<RowId>) {
    if hit.Some? then
      && hit.value in rows && rows[hit.value].job == job
      && forall id :: id in rows && rows[id].job == job ==> rows[id].createdAt <= rows[hit.value].createdAt
    else forall id :: id in rows ==> rows[id].job != job
  }

  function Started(r: JobRun, function_: string, workspace: Option<nat>): JobRun {
    r.(status := Running, function_ := if r.function_ == "" then function_ else r.function_,
       workspace := if r.workspace.None? then workspace else r.workspace)
  }

  function Finished(r: JobRun, s: Status, at: Time): JobRun {
    r.(status := s, finishedAt := Some(at))
  }

  // --- The repository ------------------------------------------------------------------

  datatype Group = Group(function_: string, status: Status, count: nat)

  ghost predicate DistinctLines(groups: seq<Group>) {
    forall i, j :: 0 <= i < j < |groups| ==> (groups[i].function_, groups[i].status) != (groups[j].function_, groups[j].status)
  }

  /** An answer to the grouped count: one line for each non-empty cell, in any order. */
  ghost predicate IsGrouping(rows: Rows, since: Time, workspace: Option<nat>, groups: seq<Group>) {
    && DistinctLines(groups)
    && (forall g :: g in groups ==> Cell(rows, since, workspace, g.function_, g.status) != {} && g.count == |Cell(rows, since, workspace, g.function_, g.status)|)
    && (forall id :: id in Matching(rows, since, workspace) ==> exists g :: g in groups && (g.function_, g.status) == (rows[id].function_, rows[id].status))
  }

  function Zeros(): Bucket {
    map[Queued := 0, Running := 0, Success := 0, Failed := 0, FailedPermanent := 0]
  }

  lemma ZerosAreFull()
    ensures forall s: Status :: s in Zeros() && Zeros()[s] == 0
  {
    forall s: Status
      ensures s in Zeros() && Zeros()[s] == 0
    {
      match s case Queued => case Running => case Success => case Failed => case FailedPermanent =>
    }
  }

  function Add(a: Bucket, b: Bucket): (c: Bucket)
    requires forall s: Status :: s in a && s in b
    ensures forall s: Status :: s in c && c[s] == a[s] + b[s]
  {
    map s | s in a :: a[s] + b[s]
  }

  // The counters hold the grouped lines seen so far, and zero elsewhere.
  ghost predicate Tallies(groups: seq<Group>, out: Stats) {
    && (forall f :: f in out ==> exists g :: g in groups && g.function_ == f)
    && (forall f, s: Status :: f in out ==> s in out[f])
    && (forall g :: g in groups ==> g.function_ in out && out[g.function_][g.status] == g.count)
    && (forall f, s: Status :: f in out && out[f][s] != 0 ==> Group(f, s, out[f][s]) in groups)
  }

  lemma TalliesStep(groups: seq<Group>, g: Group, out: Stats)
    requires Tallies(groups, out)
    requires forall h :: h in groups ==> (h.function_, h.status) != (g.function_, g.status)
    ensures Tallies(groups + [g], out[g.function_ := (if g.function_ in out then out[g.function_] else Zeros())[g.status := g.count]])
  {
    ZerosAreFull();
    var after := out[g.function_ := (if g.function_ in out then out[g.function_] else Zeros())[g.status := g.count]];
    forall f, s: Status | f in after
      ensures s in after[f] && (after[f][s] != 0 ==> Group(f, s, after[f][s]) in groups + [g])
    {
    }
    forall f | f in after
      ensures exists h :: h in groups + [g] && h.function_ == f
    {
      if f == g.function_ {
        assert g in groups + [g];
      } else {
        var h :| h in groups && h.function_ == f;
        assert h in groups + [g];
      }
    }
  }

  lemma TalliesDescribe(rows: Rows, since: Time, workspace: Option<nat>, groups: seq<Group>, out: Stats)
    requires IsGrouping(rows, since, workspace, groups) && Tallies(groups, out)
    ensures Describes(rows, since, workspace, out)
  {
    forall f
      ensures f in out <==> exists id :: id in Matching(rows, since, workspace) && rows[id].function_ == f
    {
      if f in out {
        var g :| g in groups && g.function_ == f;
        var id :| id in Cell(rows, since, workspace, g.function_, g.status);
        assert id in Matching(rows, since, workspace);
      }
    }
    forall f, s: Status | f in out
      ensures out[f][s] == |Cell(rows, since, workspace, f, s)|
    {
      var cell := Cell(rows, since, workspace, f, s);
      if id :| id in cell {
        assert id in Matching(rows, since, workspace);
        var g :| g in groups && (g.function_, g.status) == (f, s);
      } else {
        assert Group(f, s, out[f][s]) !in groups;
      }
    }
  }

  // The rows of the functions summed so far.
  ghost function Share(rows: Rows, since: Time, workspace: Option<nat>, done: set<string>, s: Status): set<RowId> {
    set id | id in rows && Counted(rows[id], since, workspace) && rows[id].function_ in done && rows[id].status == s
  }

  lemma ShareGrows(rows: Rows, since: Time, workspace: Option<nat>, done: set<string>, f: string, s: Status)
    requires f !in done
    ensures |Share(rows, since, workspace, done + {f}, s)| == |Share(rows, since, workspace, done, s)| + |Cell(rows, since, workspace, f, s)|
  {
    var a, b := Share(rows, since, workspace, done, s), Cell(rows, since, workspace, f, s);
    assert a !! b;
    assert Share(rows, since, workspace, done + {f}, s) == a + b;
  }

  ghost predicate Sums(rows: Rows, since: Time, workspace: Option<nat>, done: set<string>, out: Bucket) {
    forall s: Status :: s in out && out[s] == |Share(rows, since, workspace, done, s)|
  }

  lemma SumsStart(rows: Rows, since: Time, workspace: Option<nat>)
    ensures Sums(rows, since, workspace, {}, Zeros())
  {
    ZerosAreFull();
    forall s: Status
      ensures Share(rows, since, workspace, {}, s) == {}
    {
    }
  }

  lemma SumsStep(rows: Rows, since: Time, workspace: Option<nat>, stats: Stats, done: set<string>, f: string, out: Bucket)
    requires Describes(rows, since, workspace, stats) && f in stats && f !in done
    requires Sums(rows, since, workspace, done, out)
    ensures forall s: Status :: s in out && s in stats[f]
    ensures Sums(rows, since, workspace, done + {f}, Add(out, stats[f]))
  {
    forall s: Status
      ensures |Share(rows, since, workspace, done + {f}, s)| == |Share(rows, since, workspace, done, s)| + stats[f][s]
    {
      ShareGrows(rows, since, workspace, done, f, s);
    }
  }

  lemma ShareOfAll(rows: Rows, since: Time, workspace: Option<nat>, stats: Stats, s: Status)
    requires Describes(rows, since, workspace, stats)
    ensures Share(rows, since, workspace, stats.Keys, s) == WithStatus(rows, since, workspace, s)
  {
    forall id | id in WithStatus(rows, since, workspace, s)
      ensures id in Share(rows, since, workspace, stats.Keys, s)
    {
      assert id in Matching(rows, since, workspace);
    }
  }

  lemma SumsDone(rows: Rows, since: Time, workspace: Option<nat>, stats: Stats, out: Bucket)
    requires Describes(rows, since, workspace, stats) && Sums(rows, since, workspace, stats.Keys, out)
    ensures forall s: Status :: s in out && out[s] == |WithStatus(rows, since, workspace, s)|
  {
    forall s: Status
      ensures Share(rows, since, workspace, stats.Keys, s) == WithStatus(rows, since, workspace, s)
    {
      ShareOfAll(rows, since, workspace, stats, s);
    }
  }

  lemma RecentIsPart(rows: Rows, since: Time, workspace: Option<nat>)
    ensures |WithStatus(rows, since, workspace, FailedPermanent)| <= |Permanent(rows, workspace)|
  {
    SubsetSize(WithStatus(rows, since, workspace, FailedPermanent), Permanent(rows, workspace));
  }

  /** The sum of all buckets counts every matching row once. */
  method SumBuckets(ghost rows: Rows, ghost since: Time, ghost workspace: Option<nat>, stats: Stats) returns (out: Bucket)
    requires Describes(rows, since, workspace, stats)
    ensures forall s: Status :: s in out && out[s] == |WithStatus(rows, since, workspace, s)|
  {
    out := Zeros();
    var left := stats.Keys;
    ghost var done: set<string> := {};
    SumsStart(rows, since, workspace);
    while left != {}
      invariant left <= stats.Keys && done == stats.Keys - left
      invariant Sums(rows, since, workspace, done, out)
      decreases |left|
    {
      var f := Pick(left);
      SumsStep(rows, since, workspace, stats, done, f, out);
      out := Add(out, stats[f]);
      left, done := left - {f}, done + {f};
    }
    assert done == stats.Keys;
    SumsDone(rows, since, workspace, stats, out);
  }

  class JobRunRepository {
    var rows: Rows

    constructor (rows: Rows)
      ensures this.rows == rows
    {
      this.rows := rows;
    }

    method GetQueueStats(since: Time, workspace: Option<nat>, groups: seq<Group>) returns (out: Stats)
      requires IsGrouping(rows, since, workspace, groups)
      ensures Describes(rows, since, workspace, out)
      ensures forall f, s: Status :: f in out ==>
                && s in out[f]
                && out[f][s] == |set id | id in rows && rows[id].function_ == f && rows[id].status == s && (workspace.None? || rows[id].workspace == workspace)
                                          && (s.Queued? || s.Running? || (rows[id].finishedAt.Some? && rows[id].finishedAt.value >= since))|
    {
      CellsAre(rows, since, workspace);
      out := map[];
      for i := 0 to |groups|
        invariant Tallies(groups[..i], out)
      {
        var g := groups[i];
        var bucket := if g.function_ in out then out[g.function_] else Zeros();
        SliceStep(groups, i);
        assert forall h :: h in groups[..i] ==> (h.function_, h.status) != (g.function_, g.status);
        TalliesStep(groups[..i], g, out);
        out := out[g.function_ := bucket[g.status := g.count]];
      }
      SliceAll(groups);
      TalliesDescribe(rows, since, workspace, groups, out);
    }

    /** The global counters, and the permanent failures of all time. */
    method AggregateHealth(since: Time, workspace: Option<nat>, groups: seq<Group>) returns (out: Bucket, lifetime: nat)
      requires IsGrouping(rows, since, workspace, groups)
      ensures forall s: Status :: s in out && out[s] == |WithStatus(rows, since, workspace, s)|
      ensures lifetime == |Permanent(rows, workspace)| && out[FailedPermanent] <= lifetime
      ensures lifetime == |set id | id in rows && rows[id].status.FailedPermanent? && (workspace.None? || rows[id].workspace == workspace)|
      ensures forall s: Status ::
                out[s] == |set id | id in rows && rows[id].status == s && (workspace.None? || rows[id].workspace == workspace)
                                    && (s.Queued? || s.Running? || (rows[id].finishedAt.Some? && rows[id].finishedAt.value >= since))|
    {
      var stats := GetQueueStats(since, workspace, groups);
      out := SumBuckets(rows, since, workspace, stats);
      lifetime := |Permanent(rows, workspace)|;
      RecentIsPart(rows, since, workspace);
      CellsAre(rows, since, workspace);
      assert Permanent(rows, workspace) == set id | id in rows && rows[id].status.FailedPermanent? && (workspace.None? || rows[id].workspace == workspace);
    }

    method CountPurgeCandidates(cutoff: Time) returns (count: nat)
      ensures count == |Candidates(rows, cutoff)|
    {
      count := |Candidates(rows, cutoff)|;
    }

    method PurgeExpiredSuccess(cutoff: Time) returns (count: nat)
      modifies this
      ensures rows == Purged(old(rows), cutoff)
      ensures count == |Candidates(old(rows), cutoff)| && |rows| == |old(rows)| - count
      ensures forall id :: id in rows ==> id in old(rows) && rows[id] == old(rows)[id]
      ensures forall id :: id in old(rows) ==>
                (id !in rows <==> old(rows)[id].status.Success? && old(rows)[id].finishedAt.Some? && old(rows)[id].finishedAt.value < cutoff)
    {
      PurgeTakesTheCandidates(rows, cutoff, None);
      count := |rows|;
      rows := Purged(rows, cutoff);
      count := count - |rows|;
    }

    /** The retention pass: a dry run counts what a real one would delete and changes
        nothing; a real one deletes exactly what it has counted. */
    method PurgeExpiredSuccessRows(now: Time, olderThan: Time, dryRun: bool) returns (candidates: nat, deleted: nat)
      modifies this
      ensures candidates == |Candidates(old(rows), now - olderThan)| && deleted == (if dryRun then 0 else candidates)
      ensures rows == if dryRun then old(rows) else Purged(old(rows), now - olderThan)
      ensures candidates == |set id | id in old(rows) && old(rows)[id].status.Success? && old(rows)[id].finishedAt.Some?
                                      && old(rows)[id].finishedAt.value < now - olderThan|
    {
      var cutoff := now - olderThan;
      candidates := CountPurgeCandidates(cutoff);
      assert Candidates(rows, cutoff) == set id | id in rows && rows[id].status.Success? && rows[id].finishedAt.Some? && rows[id].finishedAt.value < cutoff;
      if dryRun || candidates == 0 {
        NothingToPurge(rows, cutoff);
        return candidates, 0;
      }
      deleted := PurgeExpiredSuccess(cutoff);
    }

    /** `hit` is the answer of a lookup that others may have overtaken by now: without a
        unique key nothing stops the insert. */
    method UpsertQueued(job: string, f: string, workspace: Option<nat>, hit: Option<RowId>, id: RowId, now: Time) returns (row: RowId)
      requires (hit.Some? ==> hit.value in rows && rows[hit.value].job == job) && id !in rows
      modifies this
      ensures hit.Some? ==> row == hit.value && rows == old(rows)
      ensures hit.None? ==> row == id && rows == old(rows)[id := JobRun(job, f, Queued, None, workspace, now)]
    {
      if hit.Some? {
        return hit.value;
      }
      rows := rows[id := JobRun(job, f, Queued, None, workspace, now)];
      row := id;
    }

    /** Two lookups, `first` and, should it find nothing, `second`. */
    method MarkRunning(job: string, f: string, workspace: Option<nat>, first: Option<RowId>, second: Option<RowId>, id: RowId, now: Time)
      returns (row: RowId)
      requires first.Some? ==> first.value in rows && rows[first.value].job == job
      requires second.Some? ==> second.value in rows && rows[second.value].job == job
      requires id !in rows
      modifies this
      ensures first.Some? || second.Some? ==>
                row == (if first.Some? then first.value else second.value) && rows == old(rows)[row := Started(old(rows)[row], f, workspace)]
      ensures first.None? && second.None? ==> row == id && rows == old(rows)[id := JobRun(job, f, Running, None, workspace, now)]
      ensures rows[row].job == job && rows[row].status.Running?
      ensures first.Some? || second.Some? ==>
                var was := old(rows)[if first.Some? then first.value else second.value];
                && rows[row].function_ == (if was.function_ == "" then f else was.function_)
                && rows[row].workspace == (if was.workspace.None? then workspace else was.workspace)
                && rows[row].finishedAt == was.finishedAt && rows[row].createdAt == was.createdAt
      ensures rows - {row} == old(rows) - {row}
    {
      if first.Some? {
        row := first.value;
      } else {
        row := UpsertQueued(job, f, workspace, second, id, now);
      }
      var r := rows[row].(status := Running);
      if f != "" && r.function_ == "" {
        r := r.(function_ := f);
      }
      if workspace.Some? && r.workspace.None? {
        r := r.(workspace := workspace);
      }
      rows := rows[row := r];
    }

    method MarkFinished(job: string, s: Status, at: Time, hit: Option<RowId>)
      requires hit.Some? ==> hit.value in rows && rows[hit.value].job == job
      modifies this
      ensures rows == if hit.Some? then old(rows)[hit.value := Finished(old(rows)[hit.value], s, at)] else old(rows)
      ensures hit.Some? ==>
                var was := old(rows)[hit.value];
                && rows[hit.value] == JobRun(job, was.function_, s, Some(at), was.workspace, was.createdAt)
                && rows - {hit.value} == old(rows) - {hit.value}
    {
      if hit.Some? {
        var r := rows[hit.value].(status := s);
        r := r.(finishedAt := Some(at));
        rows := rows[hit.value := r];
      }
    }
  }
}
