/** The event side of the gateway: appends deduplicated by the unique key, and
    replay by cursor while appends continue. */
module EventLog {
  import opened Seqs

  datatype Key = Key(run: nat, seqNo: int)
  type Payload = string
  type Log = map<Key, Payload>

  // --- Ordered views ------------------------------------------------------

  ghost function SeqsAfter(log: Log, run: nat, after: int): set<int> {
    set k | k in log && k.run == run && k.seqNo > after :: k.seqNo
  }

  ghost predicate Ascending(s: seq<int>) {
    forall i, j :: 0 <= i < j < |s| ==> s[i] < s[j]
  }

  lemma AscendingJoin(a: seq<int>, b: seq<int>)
    requires Ascending(a) && Ascending(b)
    requires forall x, y :: x in a && y in b ==> x < y
    ensures Ascending(a + b)
  {
    forall i, j | 0 <= i < j < |a + b|
      ensures (a + b)[i] < (a + b)[j]
    {
      if i < |a| <= j {
        assert a[i] in a && b[j - |a|] in b;
      }
    }
  }

  /** The database's answer to the replay query: the first `limit` events after
      the cursor in ascending order. */
  ghost predicate IsPage(log: Log, run: nat, after: int, limit: nat, page: seq<int>) {
    && Ascending(page)
    && |page| <= limit
    && (forall n :: n in page ==> n in SeqsAfter(log, run, after))
    && (forall n :: n in SeqsAfter(log, run, after) && n !in page ==>
          |page| == limit && forall m :: m in page ==> m < n)
  }

  // --- Appends -------------------------------------------------------------

  datatype Append = Append(key: Key, payload: Payload)

  function AppendOne(log: Log, a: Append): Log {
    if a.key in log then log else log[a.key := a.payload]
  }

  function AppendAll(log: Log, appends: seq<Append>): Log {
    if appends == [] then log
    else AppendOne(AppendAll(log, appends[..|appends| - 1]), appends[|appends| - 1])
  }

  // True when the i-th append was answered with `duplicated`.
  predicate Duplicated(log: Log, appends: seq<Append>, i: nat)
    requires i < |appends|
  {
    appends[i].key in AppendAll(log, appends[..i])
  }

  ghost predicate AppendedBefore(appends: seq<Append>, key: Key, n: int) {
    exists j :: 0 <= j < n && j < |appends| && appends[j].key == key
  }

  /** Whatever is retried, in whatever order: every key appended is present, keeps
      the first payload sent, and no other key changes. */
  lemma {:induction false} FirstPayloadWins(log: Log, appends: seq<Append>, key: Key)
    ensures key in AppendAll(log, appends) <==> key in log || AppendedBefore(appends, key, |appends|)
    ensures key in log ==> AppendAll(log, appends)[key] == log[key]
    ensures key !in log ==> forall i :: 0 <= i < |appends| && appends[i].key == key && !AppendedBefore(appends, key, i) ==>
              AppendAll(log, appends)[key] == appends[i].payload
  {
    if appends != [] {
      var n := |appends| - 1;
      var front := appends[..n];
      FirstPayloadWins(log, front, key);
      assert forall i :: 0 <= i <= n ==> (AppendedBefore(front, key, i) <==> AppendedBefore(appends, key, i));
      assert forall i :: 0 <= i < n ==> front[i] == appends[i];
    }
  }

  /** `duplicated` is returned exactly when the key was already there. */
  lemma DuplicatedIff(log: Log, appends: seq<Append>, i: nat)
    requires i < |appends|
    ensures Duplicated(log, appends, i) <==> appends[i].key in log || AppendedBefore(appends, appends[i].key, i)
  {
    FirstPayloadWins(log, appends[..i], appends[i].key);
    var key := appends[i].key;
    assert AppendedBefore(appends[..i], key, i) <==> AppendedBefore(appends, key, i);
  }

  lemma ProperSubsetSize(a: set<int>, b: set<int>, x: int)
    requires a <= b && x in b && x !in a
    ensures |a| < |b|
  {
    SubsetSize(a, b - {x});
  }

  // A non-empty page is exactly what lies between the old and the new cursor.
  lemma PageSplits(log: Log, run: nat, after: int, limit: nat, page: seq<int>)
    requires IsPage(log, run, after, limit, page) && page != []
    ensures after < page[|page| - 1]
    ensures forall n :: n in page <==> n in SeqsAfter(log, run, after) && n <= page[|page| - 1]
    ensures forall n :: n in SeqsAfter(log, run, page[|page| - 1]) <==>
              n in SeqsAfter(log, run, after) && n > page[|page| - 1]
  {
    var last := page[|page| - 1];
    assert last in page;
    forall n | n in SeqsAfter(log, run, after) && n <= last
      ensures n in page
    {
    }
    forall n
      ensures n in SeqsAfter(log, run, last) <==> n in SeqsAfter(log, run, after) && n > last
    {
      assert n in SeqsAfter(log, run, last) <==> Key(run, n) in log && n > last;
      assert n in SeqsAfter(log, run, after) <==> Key(run, n) in log && n > after;
    }
  }

  class EventStore {
    var log: Log

    constructor ()
      ensures log == map[]
    {
      log := map[];
    }

    /** The unique key turns a retry into `duplicated`, leaving the log alone. */
    method AppendEvent(run: nat, seqNo: int, payload: Payload) returns (duplicated: bool)
      modifies this
      ensures duplicated <==> Key(run, seqNo) in old(log)
      ensures log == AppendOne(old(log), Append(Key(run, seqNo), payload))
      ensures log == if duplicated then old(log) else old(log)[Key(run, seqNo) := payload]
    {
      duplicated := Key(run, seqNo) in log;
      if !duplicated {
        log := log[Key(run, seqNo) := payload];
      }
    }

    function After(run: nat, after: int): set<int>
      reads this
    {
      set k | k in log && k.run == run && k.seqNo > after :: k.seqNo
    }

    method ListEventsSince(run: nat, after: int, limit: nat) returns (page: seq<int>)
      ensures IsPage(log, run, after, limit, page)
      ensures forall n :: n in page ==> Key(run, n) in log && n > after
      ensures forall n :: Key(run, n) in log && n > after && n !in page ==> |page| == limit && forall m :: m in page ==> m < n
    {
      page := [];
      var left := After(run, after);
      while |page| < limit && left != {}
        invariant Ascending(page) && |page| <= limit
        invariant forall n :: n in page ==> n in SeqsAfter(log, run, after) && n !in left
        invariant forall n :: n in SeqsAfter(log, run, after) <==> n in page || n in left
        invariant forall n, m :: n in page && m in left ==> n < m
        decreases |left|
      {
        var low := Least(left);
        AscendingJoin(page, [low]);
        page, left := page + [low], left - {low};
      }
    }

    /** Reading pages until one comes back empty yields every event of the run past
        the cursor, once, in strictly increasing order. */
    method Replay(run: nat, start: int, limit: nat) returns (events: seq<int>)
      requires limit >= 1
      ensures Ascending(events)
      ensures Elements(events) == SeqsAfter(log, run, start)
      ensures forall n :: n in events <==> Key(run, n) in log && n > start
    {
      events := [];
      var cursor := start;
      var page := ListEventsSince(run, cursor, limit);
      while page != []
        invariant start <= cursor && IsPage(log, run, cursor, limit, page)
        invariant Ascending(events) && forall n :: n in events ==> n <= cursor
        invariant forall n :: n in SeqsAfter(log, run, start) <==> n in events || n in SeqsAfter(log, run, cursor)
        decreases |SeqsAfter(log, run, cursor)|
      {
        ghost var before := SeqsAfter(log, run, cursor);
        ghost var was := cursor;
        var last := page[|page| - 1];
        PageSplits(log, run, was, limit, page);
        AscendingJoin(events, page);
        events, cursor := events + page, last;
        ProperSubsetSize(SeqsAfter(log, run, cursor), before, last);
        page := ListEventsSince(run, cursor, limit);
      }
    }
  }

  // --- Replay while the worker keeps appending ------------------------------

  /** `shown` is what the reader has yielded, in order. `late` collects the events
      whose number was at or below the cursor when they were committed. */
  datatype Reader = Reader(log: Log, cursor: int, shown: seq<int>, late: set<int>)

  datatype Step = Emit(append: Append) | Page(limit: nat, page: seq<int>)

  ghost predicate Enabled(r: Reader, run: nat, step: Step) {
    step.Page? ==> IsPage(r.log, run, r.cursor, step.limit, step.page)
  }

  ghost function Apply(r: Reader, run: nat, step: Step): Reader {
    match step
    case Emit(a) =>
      var isNew := a.key !in r.log && a.key.run == run;
      r.(log := AppendOne(r.log, a),
         late := if isNew && a.key.seqNo <= r.cursor then r.late + {a.key.seqNo} else r.late)
    case Page(_, page) =>
      if page == [] then r else r.(cursor := page[|page| - 1], shown := r.shown + page)
  }

  ghost predicate ValidRun(r: Reader, run: nat, steps: seq<Step>)
    decreases |steps|
  {
    steps == [] || (Enabled(r, run, steps[0]) && ValidRun(Apply(r, run, steps[0]), run, steps[1..]))
  }

  ghost function Final(r: Reader, run: nat, steps: seq<Step>): Reader
    decreases |steps|
  {
    if steps == [] then r else Final(Apply(r, run, steps[0]), run, steps[1..])
  }

  // The run starts with an empty log and the reader's cursor at -1.
  ghost predicate Start(r: Reader) {
    r.log == map[] && r.cursor == -1 && r.shown == [] && r.late == {}
  }

  ghost predicate Inv(r: Reader, run: nat) {
    && Ascending(r.shown)
    && (forall n :: n in r.shown ==> n <= r.cursor && Key(run, n) in r.log)
    && (forall n :: n in r.late ==> n <= r.cursor && Key(run, n) in r.log && n !in r.shown)
    && (forall n :: Key(run, n) in r.log && n <= r.cursor ==> n in r.shown || n in r.late)
  }

  lemma {:induction false} RunKeepsInv(r: Reader, run: nat, steps: seq<Step>)
    requires Inv(r, run) && ValidRun(r, run, steps)
    ensures Inv(Final(r, run, steps), run)
    ensures r.late <= Final(r, run, steps).late
    decreases |steps|
  {
    if steps != [] {
      var t := Apply(r, run, steps[0]);
      if steps[0].Page? && steps[0].page != [] {
        PageSplits(r.log, run, r.cursor, steps[0].limit, steps[0].page);
        assert forall n :: n in SeqsAfter(r.log, run, r.cursor) <==> Key(run, n) in r.log && n > r.cursor;
        AscendingJoin(r.shown, steps[0].page);
      }
      assert Inv(t, run);
      RunKeepsInv(t, run, steps[1..]);
    }
  }

  /** At every moment the reader has yielded, once and in increasing order, exactly
      the committed events up to its cursor, minus those that arrived late. */
  lemma ReplayIsExact(r: Reader, run: nat, steps: seq<Step>)
    requires Start(r) && ValidRun(r, run, steps)
    ensures var f := Final(r, run, steps);
            Ascending(f.shown) &&
            Elements(f.shown) == (set k | k in f.log && k.run == run && k.seqNo <= f.cursor :: k.seqNo) - f.late
  {
    RunKeepsInv(r, run, steps);
    var f := Final(r, run, steps);
    var known := set k | k in f.log && k.run == run && k.seqNo <= f.cursor :: k.seqNo;
    forall n
      ensures n in known <==> Key(run, n) in f.log && n <= f.cursor
    {
      if Key(run, n) in f.log && n <= f.cursor {
        assert Key(run, n).seqNo in known;
      }
    }
    assert forall n :: n in Elements(f.shown) <==> n in known - f.late;
  }

  /** An event that arrives late is never shown, however long the reader goes on. */
  lemma LateEventIsLost(r: Reader, run: nat, a: Append, rest: seq<Step>)
    requires Inv(r, run) && a.key.run == run && a.key !in r.log && a.key.seqNo <= r.cursor
    requires ValidRun(Apply(r, run, Emit(a)), run, rest)
    ensures a.key in Final(Apply(r, run, Emit(a)), run, rest).log
    ensures a.key.seqNo !in Final(Apply(r, run, Emit(a)), run, rest).shown
  {
    RunKeepsInv(Apply(r, run, Emit(a)), run, rest);
    assert a.key == Key(run, a.key.seqNo);
  }

  // The worker numbers its events upwards from 0; retries repeat old numbers.
  ghost predicate WorkerCountsUp(r: Reader, run: nat, steps: seq<Step>)
    decreases |steps|
  {
    steps == [] ||
    (&& (steps[0].Emit? && steps[0].append.key.run == run && steps[0].append.key !in r.log ==>
           steps[0].append.key.seqNo >= 0 && forall k :: k in r.log && k.run == run ==> k.seqNo < steps[0].append.key.seqNo)
     && WorkerCountsUp(Apply(r, run, steps[0]), run, steps[1..]))
  }

  ghost predicate CursorOnLog(r: Reader, run: nat) {
    r.cursor == -1 || Key(run, r.cursor) in r.log
  }

  lemma {:induction false} NothingIsLate(r: Reader, run: nat, steps: seq<Step>)
    requires ValidRun(r, run, steps) && WorkerCountsUp(r, run, steps) && CursorOnLog(r, run) && r.late == {}
    ensures Final(r, run, steps).late == {}
    decreases |steps|
  {
    if steps != [] {
      var t := Apply(r, run, steps[0]);
      if steps[0].Page? && steps[0].page != [] {
        assert steps[0].page[|steps[0].page| - 1] in steps[0].page;
      }
      NothingIsLate(t, run, steps[1..]);
    }
  }

  /** With rising numbers the replay has no gap at any moment. */
  lemma ReplayIsGapFree(r: Reader, run: nat, steps: seq<Step>)
    requires Start(r) && ValidRun(r, run, steps) && WorkerCountsUp(r, run, steps)
    ensures var f := Final(r, run, steps);
            Ascending(f.shown) &&
            forall n :: n in f.shown <==> Key(run, n) in f.log && n <= f.cursor
  {
    RunKeepsInv(r, run, steps);
    NothingIsLate(r, run, steps);
  }

  // --- Which append orders are safe -----------------------------------------------------

  // What the worker appends, in order.
  ghost function Emits(steps: seq<Step>): seq<Append> {
    if steps == [] then []
    else Emits(steps[..|steps| - 1]) + if steps[|steps| - 1].Emit? then [steps[|steps| - 1].append] else []
  }

  lemma {:induction false} EmitsJoin(one: seq<Step>, two: seq<Step>)
    ensures Emits(one + two) == Emits(one) + Emits(two)
  {
    if two == [] {
      assert one + two == one;
    } else {
      EmitsJoin(one, two[..|two| - 1]);
      assert (one + two)[..|one + two| - 1] == one + two[..|two| - 1];
    }
  }

  // What one step appends.
  ghost function Head(step: Step): seq<Append> {
    if step.Emit? then [step.append] else []
  }

  lemma EmitsHead(step: Step, rest: seq<Step>)
    ensures Emits([step] + rest) == Head(step) + Emits(rest)
  {
    EmitsJoin([step], rest);
    assert [step][..0] == [];
    assert Emits([step]) == [] + Head(step);
  }

  lemma {:induction false} RunsJoin(r: Reader, run: nat, one: seq<Step>, two: seq<Step>)
    requires ValidRun(r, run, one) && ValidRun(Final(r, run, one), run, two)
    ensures ValidRun(r, run, one + two) && Final(r, run, one + two) == Final(Final(r, run, one), run, two)
    decreases |one|
  {
    if one == [] {
      assert one + two == two;
    } else {
      RunsJoin(Apply(r, run, one[0]), run, one[1..], two);
      assert (one + two)[1..] == one[1..] + two;
    }
  }

  ghost function Empty(): Reader {
    Reader(map[], -1, [], {})
  }

  /** However the pages fall between the appends, no event is late. */
  ghost predicate NeverLate(appends: seq<Append>, run: nat) {
    forall steps :: ValidRun(Empty(), run, steps) && Emits(steps) == appends ==> Final(Empty(), run, steps).late == {}
  }

  // The i-th append brings a new event of the run.
  ghost predicate IsNew(appends: seq<Append>, run: nat, i: nat)
    requires i < |appends|
  {
    appends[i].key.run == run && !AppendedBefore(appends, appends[i].key, i)
  }

  ghost predicate Rises(appends: seq<Append>, run: nat, i: nat)
    requires i < |appends|
  {
    appends[i].key.seqNo >= 0 && forall j :: 0 <= j < i && appends[j].key.run == run ==> appends[j].key.seqNo < appends[i].key.seqNo
  }

  /** Every new event of the run has a number that is not negative and above all earlier
      ones of the run. */
  ghost predicate NewNumbersRise(appends: seq<Append>, run: nat) {
    forall i :: 0 <= i < |appends| && IsNew(appends, run, i) ==> Rises(appends, run, i)
  }

  lemma LogStep(r: Reader, run: nat, step: Step, before: seq<Append>)
    requires r.log == AppendAll(map[], before)
    ensures Apply(r, run, step).log == AppendAll(map[], before + Head(step))
  {
    assert (before + Head(step))[..|before|] == before;
    assert step.Page? ==> before + Head(step) == before;
  }

  lemma {:induction false} LogIsAppends(r: Reader, run: nat, steps: seq<Step>, before: seq<Append>)
    requires ValidRun(r, run, steps) && r.log == AppendAll(map[], before)
    ensures Final(r, run, steps).log == AppendAll(map[], before + Emits(steps))
    decreases |steps|
  {
    if steps == [] {
      assert before + [] == before;
    } else {
      var head, rest := Head(steps[0]), steps[1..];
      assert steps == [steps[0]] + rest;
      EmitsHead(steps[0], rest);
      LogStep(r, run, steps[0], before);
      LogIsAppends(Apply(r, run, steps[0]), run, rest, before + head);
      assert before + (head + Emits(rest)) == (before + head) + Emits(rest);
    }
  }

  // What is in the log of the first appends, and what is not.
  lemma LogIsPrefix(appends: seq<Append>, i: nat, key: Key)
    requires i <= |appends|
    ensures key in AppendAll(map[], appends[..i]) <==> AppendedBefore(appends, key, i)
  {
    FirstPayloadWins(map[], appends[..i], key);
    if AppendedBefore(appends, key, i) {
      var j :| 0 <= j < i && appends[j].key == key;
      assert appends[..i][j].key == key;
    }
  }

  lemma CursorWasAppended(appends: seq<Append>, i: nat, run: nat, cursor: int) returns (j: nat)
    requires i <= |appends| && Key(run, cursor) in AppendAll(map[], appends[..i])
    ensures j < i && appends[j].key == Key(run, cursor)
  {
    LogIsPrefix(appends, i, Key(run, cursor));
    j :| 0 <= j < i && appends[j].key == Key(run, cursor);
  }

  // A new event of a rising order lands above the cursor.
  lemma NewIsAbove(appends: seq<Append>, i: nat, run: nat, cursor: int)
    requires i < |appends| && IsNew(appends, run, i) && Rises(appends, run, i)
    requires cursor == -1 || Key(run, cursor) in AppendAll(map[], appends[..i])
    ensures appends[i].key.seqNo > cursor
  {
    if cursor != -1 {
      var j := CursorWasAppended(appends, i, run, cursor);
    }
  }

  lemma NextIsNotLate(r: Reader, run: nat, appends: seq<Append>, i: nat)
    requires i < |appends| && NewNumbersRise(appends, run) && r.log == AppendAll(map[], appends[..i])
    requires CursorOnLog(r, run) && r.late == {}
    ensures Apply(r, run, Emit(appends[i])).late == {}
  {
    LogIsPrefix(appends, i, appends[i].key);
    if IsNew(appends, run, i) {
      NewIsAbove(appends, i, run, r.cursor);
    }
  }

  lemma RisingStep(r: Reader, run: nat, step: Step, before: seq<Append>, after: seq<Append>)
    requires Enabled(r, run, step) && r.log == AppendAll(map[], before) && NewNumbersRise((before + Head(step)) + after, run)
    requires CursorOnLog(r, run) && r.late == {}
    ensures var t := Apply(r, run, step);
            t.late == {} && CursorOnLog(t, run) && t.log == AppendAll(map[], before + Head(step))
  {
    LogStep(r, run, step, before);
    if step.Emit? {
      var all := (before + Head(step)) + after;
      assert all[..|before|] == before && all[|before|] == step.append;
      NextIsNotLate(r, run, all, |before|);
    } else if step.page != [] {
      assert step.page[|step.page| - 1] in step.page;
    }
  }

  lemma {:induction false} RisingIsNeverLate(r: Reader, run: nat, steps: seq<Step>, before: seq<Append>)
    requires ValidRun(r, run, steps) && r.log == AppendAll(map[], before) && NewNumbersRise(before + Emits(steps), run)
    requires CursorOnLog(r, run) && r.late == {}
    ensures Final(r, run, steps).late == {}
    decreases |steps|
  {
    if steps != [] {
      var head, rest := Head(steps[0]), steps[1..];
      assert steps == [steps[0]] + rest;
      EmitsHead(steps[0], rest);
      assert before + Emits(steps) == (before + head) + Emits(rest);
      RisingStep(r, run, steps[0], before, Emits(rest));
      RisingIsNeverLate(Apply(r, run, steps[0]), run, rest, before + head);
    }
  }

  // --- A number that does not rise is late under some schedule ---------------------------------

  lemma {:induction false} Largest(s: set<int>) returns (top: int)
    requires s != {}
    ensures top in s && forall n :: n in s ==> n <= top
  {
    var one := Member(s);
    top := one;
    var rest := s - {one};
    if rest != {} {
      var other := Largest(rest);
      top := if other > one then other else one;
    }
    forall n | n in s
      ensures n <= top
    {
      assert n == one || n in rest;
    }
  }

  lemma {:induction false} Enumerate(s: set<int>) returns (page: seq<int>)
    ensures Ascending(page) && forall n :: n in page <==> n in s
  {
    if s == {} {
      page := [];
    } else {
      var top := Largest(s);
      var front := Enumerate(s - {top});
      AscendingJoin(front, [top]);
      page := front + [top];
    }
  }

  lemma {:induction false} EmitAll(r: Reader, run: nat, appends: seq<Append>) returns (steps: seq<Step>)
    ensures ValidRun(r, run, steps) && Emits(steps) == appends && Final(r, run, steps).cursor == r.cursor
    decreases |appends|
  {
    if appends == [] {
      steps := [];
    } else {
      var one := Emit(appends[0]);
      var rest := EmitAll(Apply(r, run, one), run, appends[1..]);
      steps := [one] + rest;
      assert steps[1..] == rest;
      EmitsHead(one, rest);
    }
  }

  // Read everything there is.
  lemma ReadAll(r: Reader, run: nat) returns (step: Step)
    ensures step.Page? && Enabled(r, run, step)
    ensures forall n :: Key(run, n) in r.log ==> n <= Apply(r, run, step).cursor
    ensures Apply(r, run, step).cursor >= r.cursor && Apply(r, run, step).log == r.log
  {
    var seen := SeqsAfter(r.log, run, r.cursor);
    var page := Enumerate(seen);
    step := Page(|page|, page);
    if page != [] {
      assert page[|page| - 1] in page;
    }
    forall n | Key(run, n) in r.log
      ensures n <= Apply(r, run, step).cursor
    {
      if n > r.cursor {
        assert Key(run, n).seqNo in seen;
        var k :| 0 <= k < |page| && page[k] == n;
      }
    }
  }

  lemma {:induction false} LateStays(r: Reader, run: nat, steps: seq<Step>)
    requires ValidRun(r, run, steps)
    ensures r.late <= Final(r, run, steps).late
    decreases |steps|
  {
    if steps != [] {
      LateStays(Apply(r, run, steps[0]), run, steps[1..]);
    }
  }

  // An append of a new number that does not rise is late if everything before was read.
  lemma FallingStep(r: Reader, run: nat, appends: seq<Append>, i: nat)
    requires i < |appends| && IsNew(appends, run, i) && !Rises(appends, run, i)
    requires r.log == AppendAll(map[], appends[..i]) && r.cursor >= -1 && forall n :: Key(run, n) in r.log ==> n <= r.cursor
    ensures Apply(r, run, Emit(appends[i])).late != {}
  {
    var a := appends[i];
    FirstPayloadWins(map[], appends[..i], a.key);
    assert AppendedBefore(appends[..i], a.key, i) <==> AppendedBefore(appends, a.key, i);
    if a.key.seqNo >= 0 {
      var j :| 0 <= j < i && appends[j].key.run == run && appends[j].key.seqNo >= a.key.seqNo;
      FirstPayloadWins(map[], appends[..i], appends[j].key);
      assert appends[..i][j] == appends[j];
      assert appends[j].key == Key(run, appends[j].key.seqNo);
    }
    assert a.key.seqNo in Apply(r, run, Emit(a)).late;
  }

  lemma EmitsPage(read: Step, rest: seq<Step>)
    requires read.Page?
    ensures Emits([read] + rest) == Emits(rest)
  {
    EmitsHead(read, rest);
  }

  lemma SplitAt<T>(s: seq<T>, i: nat)
    requires i < |s|
    ensures s[..i] + ([s[i]] + s[i + 1..]) == s
  {
  }

  lemma EmitsTogether(appends: seq<Append>, i: nat, one: seq<Step>, read: Step, rest: seq<Step>)
    requires i < |appends| && read.Page? && Emits(one) == appends[..i] && Emits(rest) == appends[i + 1..]
    ensures Emits(one + ([read] + ([Emit(appends[i])] + rest))) == appends
  {
    EmitsJoin(one, [read] + ([Emit(appends[i])] + rest));
    EmitsPage(read, [Emit(appends[i])] + rest);
    EmitsHead(Emit(appends[i]), rest);
    SplitAt(appends, i);
  }

  lemma Prepend(r: Reader, run: nat, step: Step, rest: seq<Step>)
    requires Enabled(r, run, step) && ValidRun(Apply(r, run, step), run, rest)
    ensures ValidRun(r, run, [step] + rest) && Final(r, run, [step] + rest) == Final(Apply(r, run, step), run, rest)
  {
    assert ([step] + rest)[1..] == rest;
  }

  lemma PutTogether(run: nat, appends: seq<Append>, i: nat, one: seq<Step>, read: Step, rest: seq<Step>) returns (steps: seq<Step>)
    requires i < |appends| && ValidRun(Empty(), run, one) && Emits(one) == appends[..i]
    requires read.Page? && Enabled(Final(Empty(), run, one), run, read)
    requires var u := Apply(Apply(Final(Empty(), run, one), run, read), run, Emit(appends[i])); ValidRun(u, run, rest)
    requires Emits(rest) == appends[i + 1..]
    ensures var u := Apply(Apply(Final(Empty(), run, one), run, read), run, Emit(appends[i]));
            ValidRun(Empty(), run, steps) && Emits(steps) == appends && Final(Empty(), run, steps) == Final(u, run, rest)
  {
    var r := Final(Empty(), run, one);
    Prepend(Apply(r, run, read), run, Emit(appends[i]), rest);
    Prepend(r, run, read, [Emit(appends[i])] + rest);
    RunsJoin(Empty(), run, one, [read] + ([Emit(appends[i])] + rest));
    EmitsTogether(appends, i, one, read, rest);
    steps := one + ([read] + ([Emit(appends[i])] + rest));
  }

  lemma FallingIsLate(appends: seq<Append>, run: nat, i: nat) returns (steps: seq<Step>)
    requires i < |appends| && IsNew(appends, run, i) && !Rises(appends, run, i)
    ensures ValidRun(Empty(), run, steps) && Emits(steps) == appends && Final(Empty(), run, steps).late != {}
  {
    var one := EmitAll(Empty(), run, appends[..i]);
    var r := Final(Empty(), run, one);
    LogIsAppends(Empty(), run, one, []);
    assert [] + appends[..i] == appends[..i];
    var read := ReadAll(r, run);
    var t := Apply(r, run, read);
    FallingStep(t, run, appends, i);
    var u := Apply(t, run, Emit(appends[i]));
    var rest := EmitAll(u, run, appends[i + 1..]);
    LateStays(u, run, rest);
    steps := PutTogether(run, appends, i, one, read, rest);
  }

  /** An append order keeps the replay free of gaps under every paging schedule exactly if
      its new numbers rise and are not negative. */
  lemma NeverLateIff(appends: seq<Append>, run: nat)
    ensures NeverLate(appends, run) <==> NewNumbersRise(appends, run)
  {
    if NewNumbersRise(appends, run) {
      forall steps | ValidRun(Empty(), run, steps) && Emits(steps) == appends
        ensures Final(Empty(), run, steps).late == {}
      {
        assert [] + Emits(steps) == appends;
        RisingIsNeverLate(Empty(), run, steps, []);
      }
    } else {
      var i :| 0 <= i < |appends| && IsNew(appends, run, i) && !Rises(appends, run, i);
      var steps := FallingIsLate(appends, run, i);
    }
  }
}
