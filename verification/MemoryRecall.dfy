/** Recall of the nearest memories: over-fetch, filter by score, stop at the limit. */
module MemoryRecall {
  import opened Seqs

  type MemoryId = nat

  datatype Memory = Memory(workspace: nat, scope: nat, scopeId: Option<nat>, deleted: bool, distance: Option<real>)

  // `distance` is the cosine distance to the query, absent where there is no embedding.
  type Memories = map<MemoryId, Memory>

  datatype Hit = Hit(id: MemoryId, score: real)

  predicate Eligible(m: Memory, workspace: nat, scopes: seq<(nat, Option<nat>)>) {
    m.workspace == workspace && !m.deleted && m.distance.Some? && (m.scope, m.scopeId) in scopes
  }

  function Distance(memories: Memories, id: MemoryId): real {
    if id in memories && memories[id].distance.Some? then memories[id].distance.value else 0.0
  }

  ghost predicate Ascending(memories: Memories, ranked: seq<MemoryId>) {
    forall i, j :: 0 <= i < j < |ranked| ==> Distance(memories, ranked[i]) <= Distance(memories, ranked[j])
  }

  /** All eligible memories, nearest first; ties in any order. */
  ghost predicate IsRanking(memories: Memories, workspace: nat, scopes: seq<(nat, Option<nat>)>, ranked: seq<MemoryId>) {
    && NoDup(ranked)
    && (forall id :: id in ranked <==> id in memories && Eligible(memories[id], workspace, scopes))
    && Ascending(memories, ranked)
  }

  // The memory as a hit, if it scores well enough.
  function Admit(memories: Memories, id: MemoryId, minScore: real): seq<Hit> {
    var score := 1.0 - Distance(memories, id);
    if score >= minScore then [Hit(id, score)] else []
  }

  // Every memory that scores well enough, in the order given.
  function Passing(memories: Memories, ranked: seq<MemoryId>, minScore: real): seq<Hit> {
    if ranked == [] then []
    else Passing(memories, ranked[..|ranked| - 1], minScore) + Admit(memories, ranked[|ranked| - 1], minScore)
  }

  lemma {:induction false} PassingHolds(memories: Memories, ranked: seq<MemoryId>, minScore: real, h: Hit)
    ensures h in Passing(memories, ranked, minScore) <==>
              h.id in ranked && h.score == 1.0 - Distance(memories, h.id) && h.score >= minScore
  {
    if ranked != [] {
      var front, id := ranked[..|ranked| - 1], ranked[|ranked| - 1];
      PassingHolds(memories, front, minScore, h);
      assert ranked == front + [id];
    }
  }

  ghost predicate BestFirst(hits: seq<Hit>) {
    forall i, j :: 0 <= i < j < |hits| ==> hits[i].score >= hits[j].score
  }

  lemma BestFirstNext(hits: seq<Hit>, last: Hit)
    requires BestFirst(hits) && forall h :: h in hits ==> h.score >= last.score
    ensures BestFirst(hits + [last])
  {
    assert forall i :: 0 <= i < |hits| ==> hits[i] in hits;
  }

  lemma PassedAreNearer(memories: Memories, ranked: seq<MemoryId>, minScore: real, h: Hit)
    requires ranked != [] && Ascending(memories, ranked) && h in Passing(memories, ranked[..|ranked| - 1], minScore)
    ensures h.score >= 1.0 - Distance(memories, ranked[|ranked| - 1])
  {
    var n := |ranked| - 1;
    PassingHolds(memories, ranked[..n], minScore, h);
    var k :| 0 <= k < n && ranked[..n][k] == h.id;
    assert Distance(memories, ranked[k]) <= Distance(memories, ranked[n]);
  }

  lemma {:induction false} PassingDescends(memories: Memories, ranked: seq<MemoryId>, minScore: real)
    requires Ascending(memories, ranked)
    ensures BestFirst(Passing(memories, ranked, minScore))
  {
    if ranked != [] {
      var front, id := ranked[..|ranked| - 1], ranked[|ranked| - 1];
      PassingDescends(memories, front, minScore);
      var before, last := Passing(memories, front, minScore), Hit(id, 1.0 - Distance(memories, id));
      forall h | h in before
        ensures h.score >= last.score
      {
        PassedAreNearer(memories, ranked, minScore, h);
      }
      if last.score >= minScore {
        BestFirstNext(before, last);
      }
    }
  }

  // A list that loses an element holds one that falls short.
  lemma {:induction false} ShorterMeansRejected(memories: Memories, ranked: seq<MemoryId>, minScore: real) returns (k: nat)
    requires |Passing(memories, ranked, minScore)| < |ranked|
    ensures k < |ranked| && Admit(memories, ranked[k], minScore) == []
  {
    k := |ranked| - 1;
    if Admit(memories, ranked[k], minScore) != [] {
      k := ShorterMeansRejected(memories, ranked[..k], minScore);
    }
  }

  // What passes in a part of the list starts what passes in all of it; once one memory
  // falls short, so does everything farther away.
  lemma {:induction false} PassingIsPrefix(memories: Memories, ranked: seq<MemoryId>, n: nat, minScore: real)
    requires n <= |ranked|
    ensures Passing(memories, ranked[..n], minScore) <= Passing(memories, ranked, minScore)
    ensures Ascending(memories, ranked) && |Passing(memories, ranked[..n], minScore)| < n ==>
              Passing(memories, ranked, minScore) == Passing(memories, ranked[..n], minScore)
    decreases |ranked|
  {
    if n == |ranked| {
      SliceAll(ranked);
    } else {
      var front := ranked[..|ranked| - 1];
      assert front[..n] == ranked[..n];
      PassingIsPrefix(memories, front, n, minScore);
      if Ascending(memories, ranked) && |Passing(memories, ranked[..n], minScore)| < n {
        var k := ShorterMeansRejected(memories, ranked[..n], minScore);
        assert Distance(memories, ranked[k]) <= Distance(memories, ranked[|ranked| - 1]);
      }
    }
  }

  /** Fetching any n >= limit rows before filtering loses nothing; with the rows in
      order of distance the doubled fetch is no better than a plain one. */
  lemma OverFetchIsExact(memories: Memories, ranked: seq<MemoryId>, limit: nat, n: nat, minScore: real)
    requires Ascending(memories, ranked) && limit <= n
    ensures Take(limit, Passing(memories, Take(n, ranked), minScore)) == Take(limit, Passing(memories, ranked, minScore))
  {
    if n < |ranked| {
      PassingIsPrefix(memories, ranked, n, minScore);
    }
  }

  /** The answer holds only eligible memories that score well enough, best first. */
  lemma RecallIsSound(memories: Memories, workspace: nat, scopes: seq<(nat, Option<nat>)>, ranked: seq<MemoryId>, limit: nat, minScore: real)
    requires IsRanking(memories, workspace, scopes, ranked)
    ensures var out := Take(limit, Passing(memories, ranked, minScore));
            && |out| <= limit
            && (forall h :: h in out ==> h.id in memories && Eligible(memories[h.id], workspace, scopes) && h.score == 1.0 - memories[h.id].distance.value >= minScore)
            && BestFirst(out)
  {
    PassingDescends(memories, ranked, minScore);
    var all := Passing(memories, ranked, minScore);
    forall h | h in all
      ensures h.id in ranked && h.score == 1.0 - Distance(memories, h.id) && h.score >= minScore
    {
      PassingHolds(memories, ranked, minScore, h);
    }
  }

  /** A memory that could have been returned and was not is no better than any that was,
      and the list is full. */
  lemma RecallIsBest(memories: Memories, workspace: nat, scopes: seq<(nat, Option<nat>)>, ranked: seq<MemoryId>, limit: nat, minScore: real, id: MemoryId)
    requires IsRanking(memories, workspace, scopes, ranked)
    requires id in memories && Eligible(memories[id], workspace, scopes) && 1.0 - memories[id].distance.value >= minScore
    ensures var out := Take(limit, Passing(memories, ranked, minScore));
            (forall h :: h in out ==> h.id != id) ==> |out| == limit && forall h :: h in out ==> h.score >= 1.0 - memories[id].distance.value
  {
    PassingDescends(memories, ranked, minScore);
    PassingHolds(memories, ranked, minScore, Hit(id, 1.0 - Distance(memories, id)));
    var all, out := Passing(memories, ranked, minScore), Take(limit, Passing(memories, ranked, minScore));
    var mine := Hit(id, 1.0 - Distance(memories, id));
    assert mine in all && BestFirst(all);
    var k :| 0 <= k < |all| && all[k] == mine;
    assert k < |out| ==> out[k] == mine;
  }

  lemma {:induction false} RecallRepeatsNone(memories: Memories, ranked: seq<MemoryId>, minScore: real)
    requires NoDup(ranked)
    ensures var hits := Passing(memories, ranked, minScore); forall i, j :: 0 <= i < j < |hits| ==> hits[i].id != hits[j].id
  {
    if ranked != [] {
      var front, id := ranked[..|ranked| - 1], ranked[|ranked| - 1];
      RecallRepeatsNone(memories, front, minScore);
      var before := Passing(memories, front, minScore);
      forall i | 0 <= i < |before|
        ensures before[i].id != id
      {
        PassingHolds(memories, front, minScore, before[i]);
      }
    }
  }

  lemma PassingNext(memories: Memories, rows: seq<MemoryId>, i: nat, minScore: real)
    requires i < |rows|
    ensures Passing(memories, rows[..i + 1], minScore) == Passing(memories, rows[..i], minScore) + Admit(memories, rows[i], minScore)
  {
    assert rows[..i + 1][..i] == rows[..i];
  }

  lemma StopAt(memories: Memories, rows: seq<MemoryId>, i: nat, limit: nat, minScore: real)
    requires i <= |rows| && |Passing(memories, rows[..i], minScore)| == limit
    ensures Passing(memories, rows[..i], minScore) == Take(limit, Passing(memories, rows, minScore))
  {
    PassingIsPrefix(memories, rows, i, minScore);
  }

  lemma ReachEnd(memories: Memories, rows: seq<MemoryId>, limit: nat, minScore: real)
    requires |Passing(memories, rows[..|rows|], minScore)| <= limit
    ensures Passing(memories, rows[..|rows|], minScore) == Take(limit, Passing(memories, rows, minScore))
  {
    SliceAll(rows);
  }

  lemma QueryAnswer(memories: Memories, workspace: nat, scopes: seq<(nat, Option<nat>)>, rows: seq<MemoryId>, ranked: seq<MemoryId>, limit: nat, minScore: real)
    requires IsRanking(memories, workspace, scopes, ranked) && rows == Take(limit * 2, ranked)
    ensures forall id :: id in rows ==> id in memories && memories[id].distance.Some?
    ensures scopes == [] ==> Passing(memories, ranked, minScore) == []
    ensures Take(limit, Passing(memories, rows, minScore)) == Take(limit, Passing(memories, ranked, minScore))
    ensures limit == 0 ==> rows == []
  {
    assert forall id :: id in rows ==> id in ranked;
    Inhabited(ranked);
    OverFetchIsExact(memories, ranked, limit, limit * 2, minScore);
  }

  method KeepBest(memories: Memories, rows: seq<MemoryId>, limit: nat, minScore: real) returns (out: seq<Hit>)
    requires forall id :: id in rows ==> id in memories && memories[id].distance.Some?
    requires limit == 0 ==> rows == []
    ensures out == Take(limit, Passing(memories, rows, minScore))
  {
    out := [];
    for i := 0 to |rows|
      invariant out == Passing(memories, rows[..i], minScore) && |out| <= limit && (|rows| > 0 ==> |out| < limit)
    {
      PassingNext(memories, rows, i, minScore);
      var score := 1.0 - memories[rows[i]].distance.value;
      if score >= minScore {
        out := out + [Hit(rows[i], score)];
      }
      if |out| >= limit {
        StopAt(memories, rows, i + 1, limit, minScore);
        return;
      }
    }
    ReachEnd(memories, rows, limit, minScore);
  }

  /** `rows` is what the ordered query returns under its doubled limit. */
  method RecallBySimilarity(memories: Memories, workspace: nat, scopes: seq<(nat, Option<nat>)>, rows: seq<MemoryId>, ghost ranked: seq<MemoryId>,
                            limit: nat, minScore: real) returns (out: seq<Hit>)
    requires IsRanking(memories, workspace, scopes, ranked) && rows == Take(limit * 2, ranked)
    ensures out == Take(limit, Passing(memories, ranked, minScore))
    ensures |out| <= limit && forall i, j :: 0 <= i < j < |out| ==> out[i].id != out[j].id && out[i].score >= out[j].score
    ensures forall h :: h in out ==>
              && h.id in memories && memories[h.id].workspace == workspace && !memories[h.id].deleted
              && (memories[h.id].scope, memories[h.id].scopeId) in scopes && memories[h.id].distance.Some?
              && h.score == 1.0 - memories[h.id].distance.value && h.score >= minScore
    ensures forall id :: id in memories && memories[id].workspace == workspace && !memories[id].deleted
                         && (memories[id].scope, memories[id].scopeId) in scopes && memories[id].distance.Some?
                         && 1.0 - memories[id].distance.value >= minScore && (forall h :: h in out ==> h.id != id) ==>
              |out| == limit && forall h :: h in out ==> h.score >= 1.0 - memories[id].distance.value
  {
    RecallIsSound(memories, workspace, scopes, ranked, limit, minScore);
    RecallRepeatsNone(memories, ranked, minScore);
    forall id | id in memories && Eligible(memories[id], workspace, scopes) && 1.0 - memories[id].distance.value >= minScore
                && (forall h :: h in Take(limit, Passing(memories, ranked, minScore)) ==> h.id != id)
      ensures var hits := Take(limit, Passing(memories, ranked, minScore));
              |hits| == limit && forall h :: h in hits ==> h.score >= 1.0 - memories[id].distance.value
    {
      RecallIsBest(memories, workspace, scopes, ranked, limit, minScore, id);
    }
    QueryAnswer(memories, workspace, scopes, rows, ranked, limit, minScore);
    if scopes == [] {
      return [];
    }
    out := KeepBest(memories, rows, limit, minScore);
  }
}
