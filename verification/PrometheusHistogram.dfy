/** The in-memory counter and histogram, and the cumulative rendering. Floating
    point is modelled by reals. */
module PrometheusHistogram {
  import opened Seqs

  type Key = seq<(string, string)>

  // --- Counter --------------------------------------------------------------------

  function IncOne(values: map<Key, real>, key: Key, amount: real): map<Key, real> {
    values[key := (if key in values then values[key] else 0.0) + amount]
  }

  function IncAll(incs: seq<(Key, real)>): map<Key, real> {
    if incs == [] then map[] else IncOne(IncAll(incs[..|incs| - 1]), incs[|incs| - 1].0, incs[|incs| - 1].1)
  }

  function SumFor(incs: seq<(Key, real)>, key: Key): real {
    if incs == [] then 0.0
    else SumFor(incs[..|incs| - 1], key) + if incs[|incs| - 1].0 == key then incs[|incs| - 1].1 else 0.0
  }

  ghost predicate Recorded(incs: seq<(Key, real)>, key: Key) {
    exists i :: 0 <= i < |incs| && incs[i].0 == key
  }

  lemma RecordedNext(front: seq<(Key, real)>, last: (Key, real), key: Key)
    ensures Recorded(front + [last], key) <==> last.0 == key || Recorded(front, key)
  {
    var incs := front + [last];
    if last.0 == key {
      assert incs[|front|].0 == key;
    } else if Recorded(front, key) {
      var i :| 0 <= i < |front| && front[i].0 == key;
      assert incs[i].0 == key;
    }
  }

  /** Each series holds the sum of the amounts recorded under its own labels. */
  lemma {:induction false} CounterIsSum(incs: seq<(Key, real)>, key: Key)
    ensures key in IncAll(incs) <==> Recorded(incs, key)
    ensures SumFor(incs, key) == if key in IncAll(incs) then IncAll(incs)[key] else 0.0
  {
    if incs != [] {
      var front, last := incs[..|incs| - 1], incs[|incs| - 1];
      CounterIsSum(front, key);
      assert incs == front + [last];
      RecordedNext(front, last, key);
    }
  }

  class Counter {
    var values: map<Key, real>
    // Every increment so far.
    ghost var incs: seq<(Key, real)>

    ghost predicate Valid()
      reads this
    {
      values == IncAll(incs)
    }

    constructor ()
      ensures values == map[] && incs == [] && Valid()
    {
      values, incs := map[], [];
    }

    /** The series of the labels holds the sum of all their amounts, this one included;
        the others keep theirs. */
    method Inc(key: Key, amount: real)
      requires Valid()
      modifies this
      ensures Valid() && incs == old(incs) + [(key, amount)]
      ensures key in values && values[key] == SumFor(incs, key)
      ensures values[key] == (if key in old(values) then old(values)[key] else 0.0) + amount
      ensures forall other :: other != key ==> (other in values <==> other in old(values)) && (other in values ==> values[other] == old(values)[other])
    {
      var before := if key in values then values[key] else 0.0;
      values := values[key := before + amount];
      incs := incs + [(key, amount)];
      assert incs[..|incs| - 1] == old(incs);
      CounterIsSum(incs, key);
    }
  }

  // --- Histogram ---------------------------------------------------------------------

  datatype Series = Series(counts: seq<nat>, total: real, n: nat)

  predicate Increasing(buckets: seq<real>) {
    forall i, j :: 0 <= i < j < |buckets| ==> buckets[i] < buckets[j]
  }

  /** The counter an observation lands in: the first boundary not below it, and the
      last finite one when there is none. */
  function Slot(buckets: seq<real>, value: real): (k: nat)
    requires buckets != []
    ensures k < |buckets|
  {
    if |buckets| == 1 || value <= buckets[0] then 0 else 1 + Slot(buckets[1..], value)
  }

  function ObserveOne(buckets: seq<real>, s: Series, value: real): Series
    requires buckets != [] && |s.counts| == |buckets|
  {
    var k := Slot(buckets, value);
    Series(s.counts[k := s.counts[k] + 1], s.total + value, s.n + 1)
  }

  lemma {:induction false} SlotIs(buckets: seq<real>, value: real, k: nat)
    requires k < |buckets| && forall i :: 0 <= i < k ==> buckets[i] < value
    requires value <= buckets[k] || k == |buckets| - 1
    ensures Slot(buckets, value) == k
  {
    if k > 0 {
      SlotIs(buckets[1..], value, k - 1);
    }
  }

  function NoSeries(buckets: seq<real>): Series {
    Series(seq(|buckets|, _ => 0), 0.0, 0)
  }

  // The series of a label set, empty if it has none.
  function SeriesOf(buckets: seq<real>, values: map<Key, Series>, key: Key): Series {
    if key in values then values[key] else NoSeries(buckets)
  }

  /** One observation of a history over several label sets. */
  function RecordOne(buckets: seq<real>, values: map<Key, Series>, key: Key, value: real): map<Key, Series>
    requires buckets != [] && forall k :: k in values ==> |values[k].counts| == |buckets|
  {
    values[key := ObserveOne(buckets, SeriesOf(buckets, values, key), value)]
  }

  class Histogram {
    const buckets: seq<real>
    var values: map<Key, Series>

    ghost predicate Valid()
      reads this
    {
      forall key :: key in values ==> |values[key].counts| == |buckets|
    }

    constructor (buckets: seq<real>)
      ensures this.buckets == buckets && values == map[] && Valid()
    {
      this.buckets := buckets;
      values := map[];
    }

    function SeriesAt(key: Key): Series
      reads this
    {
      SeriesOf(buckets, values, key)
    }

    /** Without any boundary the overflow branch raises and nothing is stored. */
    method Observe(key: Key, value: real) returns (raised: bool)
      requires Valid()
      modifies this
      ensures Valid() && (raised <==> buckets == [])
      ensures raised ==> values == old(values)
      ensures !raised ==> values == RecordOne(buckets, old(values), key, value)
      ensures !raised ==>
                var s := if key in old(values) then old(values)[key] else Series(seq(|buckets|, _ => 0), 0.0, 0);
                && key in values && values - {key} == old(values) - {key}
                && values[key].total == s.total + value && values[key].n == s.n + 1
                && forall k :: 0 <= k < |buckets| && (forall i :: 0 <= i < k ==> buckets[i] < value)
                               && (value <= buckets[k] || k == |buckets| - 1) ==>
                     values[key].counts == s.counts[k := s.counts[k] + 1]
    {
      var s := SeriesAt(key);
      var counts := s.counts;
      var found := false;
      for i := 0 to |buckets|
        invariant counts == s.counts && !found
        invariant forall j :: 0 <= j < i ==> buckets[j] < value
      {
        if value <= buckets[i] {
          SlotIs(buckets, value, i);
          counts := counts[i := counts[i] + 1];
          found := true;
          break;
        }
      }
      if !found {
        counts := counts + [if counts != [] then counts[|counts| - 1] + 1 else 1];
        counts := counts[..|buckets|];
        if counts == [] {
          return true;
        }
        SlotIs(buckets, value, |buckets| - 1);
        counts := counts[|counts| - 1 := counts[|counts| - 1] + 1];
      }
      values := values[key := Series(counts, s.total + value, s.n + 1)];
      raised := false;
    }
  }

  // --- Rendering -----------------------------------------------------------------------

  datatype Sample = Bucket(le: Option<real>, count: nat) | Sum(total: real) | Count(n: nat)

  // The first `i` counters added up.
  function Cumulative(counts: seq<nat>, i: nat): nat
    requires i <= |counts|
  {
    if i == 0 then 0 else Cumulative(counts, i - 1) + counts[i - 1]
  }

  /** The lines of one series: a bucket per boundary, `+Inf` (None), sum and count. */
  method RenderSeries(buckets: seq<real>, s: Series) returns (out: seq<Sample>)
    requires |s.counts| == |buckets|
    ensures |out| == |buckets| + 3
    ensures forall i :: 0 <= i < |buckets| ==> out[i] == Bucket(Some(buckets[i]), Cumulative(s.counts, i + 1))
    ensures out[|buckets|..] == [Bucket(None, s.n), Sum(s.total), Count(s.n)]
  {
    out := [];
    var cumulative := 0;
    for i := 0 to |buckets|
      invariant |out| == i && cumulative == Cumulative(s.counts, i)
      invariant forall j :: 0 <= j < i ==> out[j] == Bucket(Some(buckets[j]), Cumulative(s.counts, j + 1))
    {
      cumulative := cumulative + s.counts[i];
      out := out + [Bucket(Some(buckets[i]), cumulative)];
    }
    out := out + [Bucket(None, s.n)];
    out := out + [Sum(s.total)];
    out := out + [Count(s.n)];
  }

  // --- Agreement with the observations -----------------------------------------------------

  function ObserveAll(buckets: seq<real>, obs: seq<real>): (s: Series)
    requires buckets != []
    ensures |s.counts| == |buckets|
  {
    if obs == [] then NoSeries(buckets)
    else ObserveOne(buckets, ObserveAll(buckets, obs[..|obs| - 1]), obs[|obs| - 1])
  }

  function AtMost(obs: seq<real>, bound: real): nat {
    if obs == [] then 0 else AtMost(obs[..|obs| - 1], bound) + if obs[|obs| - 1] <= bound then 1 else 0
  }

  function Total(obs: seq<real>): real {
    if obs == [] then 0.0 else Total(obs[..|obs| - 1]) + obs[|obs| - 1]
  }

  lemma {:induction false} CumulativeUpdate(counts: seq<nat>, k: nat, i: nat)
    requires k < |counts| && i <= |counts|
    ensures Cumulative(counts[k := counts[k] + 1], i) == Cumulative(counts, i) + if k < i then 1 else 0
  {
    if i > 0 {
      CumulativeUpdate(counts, k, i - 1);
    }
  }

  lemma {:induction false} CumulativeZero(n: nat, i: nat)
    requires i <= n
    ensures Cumulative(seq(n, _ => 0), i) == 0
  {
    if i > 0 {
      CumulativeZero(n, i - 1);
    }
  }

  // What the recursive count counts.
  lemma {:induction false} AtMostCounts(obs: seq<real>, bound: real)
    ensures AtMost(obs, bound) == |set i | 0 <= i < |obs| && obs[i] <= bound|
  {
    if obs != [] {
      var n := |obs| - 1;
      var front := obs[..n];
      AtMostCounts(front, bound);
      assert (set i | 0 <= i < |obs| && obs[i] <= bound)
          == (set i | 0 <= i < n && front[i] <= bound) + if obs[n] <= bound then {n} else {};
    }
  }

  // A value is counted up to boundary `i` iff it does not exceed it, except that the
  // last boundary takes everything.
  lemma {:induction false} SlotBelow(buckets: seq<real>, value: real, i: nat)
    requires Increasing(buckets) && i < |buckets|
    ensures Slot(buckets, value) <= i <==> value <= buckets[i] || i == |buckets| - 1
  {
    if |buckets| > 1 && value > buckets[0] && i > 0 {
      SlotBelow(buckets[1..], value, i - 1);
    }
  }

  /** Every rendered count but the last finite one is the number of observations at
      or below its boundary; the last finite one, `+Inf` and the count are the number
      of observations; the sum is their sum. */
  lemma {:induction false} HistogramAgrees(buckets: seq<real>, obs: seq<real>, i: nat)
    requires Increasing(buckets) && i < |buckets|
    ensures var s := ObserveAll(buckets, obs);
            && s.n == |obs| && s.total == Total(obs)
            && Cumulative(s.counts, i + 1) == if i < |buckets| - 1 then |set j | 0 <= j < |obs| && obs[j] <= buckets[i]| else |obs|
  {
    AtMostCounts(obs, buckets[i]);
    if obs == [] {
      CumulativeZero(|buckets|, i + 1);
    } else {
      var front, value := obs[..|obs| - 1], obs[|obs| - 1];
      HistogramAgrees(buckets, front, i);
      AtMostCounts(front, buckets[i]);
      CumulativeUpdate(ObserveAll(buckets, front).counts, Slot(buckets, value), i + 1);
      SlotBelow(buckets, value, i);
    }
  }

  ghost predicate NoneAbove(obs: seq<real>, bound: real) {
    forall i :: 0 <= i < |obs| ==> obs[i] <= bound
  }

  lemma NoneAboveNext(front: seq<real>, last: real, bound: real)
    ensures NoneAbove(front + [last], bound) <==> NoneAbove(front, bound) && last <= bound
  {
    var obs := front + [last];
    assert obs[|front|] == last && forall i :: 0 <= i < |front| ==> obs[i] == front[i];
  }

  lemma {:induction false} AtMostIsAll(obs: seq<real>, bound: real)
    ensures AtMost(obs, bound) <= |obs|
    ensures AtMost(obs, bound) == |obs| <==> NoneAbove(obs, bound)
  {
    if obs != [] {
      var front, last := obs[..|obs| - 1], obs[|obs| - 1];
      AtMostIsAll(front, bound);
      NoneAboveNext(front, last, bound);
      assert obs == front + [last];
    }
  }

  /** The last finite bucket keeps the meaning the format gives it exactly as long as
      no observation exceeds the last boundary. */
  lemma LastBucketIsExactIff(buckets: seq<real>, obs: seq<real>)
    requires Increasing(buckets) && buckets != []
    ensures Cumulative(ObserveAll(buckets, obs).counts, |buckets|) == AtMost(obs, buckets[|buckets| - 1])
            <==> NoneAbove(obs, buckets[|buckets| - 1])
  {
    HistogramAgrees(buckets, obs, |buckets| - 1);
    AtMostIsAll(obs, buckets[|buckets| - 1]);
  }

  // --- Several label sets ----------------------------------------------------------------

  function RecordAll(buckets: seq<real>, history: seq<(Key, real)>): (values: map<Key, Series>)
    requires buckets != []
    ensures forall key :: key in values ==> |values[key].counts| == |buckets|
  {
    if history == [] then map[]
    else RecordOne(buckets, RecordAll(buckets, history[..|history| - 1]), history[|history| - 1].0, history[|history| - 1].1)
  }

  function ObservationsOf(history: seq<(Key, real)>, key: Key): seq<real> {
    if history == [] then []
    else ObservationsOf(history[..|history| - 1], key) + if history[|history| - 1].0 == key then [history[|history| - 1].1] else []
  }

  lemma ObserveNext(buckets: seq<real>, obs: seq<real>, value: real)
    requires buckets != []
    ensures ObserveAll(buckets, obs + [value]) == ObserveOne(buckets, ObserveAll(buckets, obs), value)
  {
    assert (obs + [value])[..|obs|] == obs;
  }

  lemma {:induction false} HasSeriesIff(buckets: seq<real>, history: seq<(Key, real)>, key: Key)
    requires buckets != []
    ensures key in RecordAll(buckets, history) <==> Recorded(history, key)
  {
    if history != [] {
      var front, last := history[..|history| - 1], history[|history| - 1];
      HasSeriesIff(buckets, front, key);
      assert history == front + [last];
      RecordedNext(front, last, key);
    }
  }

  /** After any history each label set has the series of its own observations; so what
      HistogramAgrees says holds of every series. */
  lemma {:induction false} SeriesAreSeparate(buckets: seq<real>, history: seq<(Key, real)>, key: Key)
    requires buckets != []
    ensures SeriesOf(buckets, RecordAll(buckets, history), key) == ObserveAll(buckets, ObservationsOf(history, key))
  {
    if history != [] {
      var front, last := history[..|history| - 1], history[|history| - 1];
      SeriesAreSeparate(buckets, front, key);
      ObserveNext(buckets, ObservationsOf(front, key), last.1);
      assert ObservationsOf(front, key) + [] == ObservationsOf(front, key);
    }
  }
}
