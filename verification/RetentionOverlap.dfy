/** Sweeps that overlap: each writes its own cursor to the shared watermark, whatever stands
    there. */
module RetentionOverlap {
  import opened Seqs

  type SweepId = nat

  // `cursors` holds, for each sweep under way, the stamp it has read or last written.
  datatype State = State(watermark: int, cursors: map<SweepId, int>)

  datatype Step = Start(id: SweepId) | Advance(id: SweepId, at: int) | Stop(id: SweepId)

  ghost predicate Enabled(s: State, step: Step) {
    match step
    case Start(id) => id !in s.cursors
    case Advance(id, at) => id in s.cursors && at >= s.cursors[id]
    case Stop(id) => id in s.cursors
  }

  ghost function Apply(s: State, step: Step): State
    requires Enabled(s, step)
  {
    match step
    case Start(id) => s.(cursors := s.cursors[id := s.watermark])
    case Advance(id, at) => State(at, s.cursors[id := at])
    case Stop(id) => s.(cursors := s.cursors - {id})
  }

  ghost predicate ValidRun(s: State, steps: seq<Step>)
    decreases |steps|
  {
    steps == [] || (Enabled(s, steps[0]) && ValidRun(Apply(s, steps[0]), steps[1..]))
  }

  ghost predicate NeverBack(s: State, steps: seq<Step>)
    requires ValidRun(s, steps)
    decreases |steps|
  {
    steps == [] || (s.watermark <= Apply(s, steps[0]).watermark && NeverBack(Apply(s, steps[0]), steps[1..]))
  }

  /** For each sweep, the highest stamp another one has written since it started, if any. */
  type Heard = map<SweepId, Option<int>>

  ghost function Higher(seen: Option<int>, at: int): Option<int> {
    if seen.Some? && seen.value >= at then seen else Some(at)
  }

  ghost function Hear(heard: Heard, step: Step): Heard {
    match step
    case Start(id) => heard[id := None]
    case Advance(id, at) => map other | other in heard :: if other == id then heard[other] else Higher(heard[other], at)
    case Stop(id) => heard - {id}
  }

  // No sweep writes a stamp below one that another has written since it started.
  ghost predicate NoneBelow(s: State, steps: seq<Step>, heard: Heard)
    requires ValidRun(s, steps) && heard.Keys == s.cursors.Keys
    decreases |steps|
  {
    steps == [] ||
    (&& (steps[0].Advance? && heard[steps[0].id].Some? ==> heard[steps[0].id].value <= steps[0].at)
     && NoneBelow(Apply(s, steps[0]), steps[1..], Hear(heard, steps[0])))
  }

  // While it has not gone back, the watermark is the higher of a sweep's cursor and what
  // the sweep has missed.
  ghost predicate Knows(s: State, heard: Heard) {
    && heard.Keys == s.cursors.Keys
    && forall id :: id in heard ==>
         s.watermark == if heard[id].Some? && heard[id].value > s.cursors[id] then heard[id].value else s.cursors[id]
  }

  /** The watermark never goes back exactly if no sweep writes below what another has written
      since it started. */
  lemma {:induction false} NeverBackIff(s: State, steps: seq<Step>, heard: Heard)
    requires ValidRun(s, steps) && Knows(s, heard)
    ensures NeverBack(s, steps) <==> NoneBelow(s, steps, heard)
    decreases |steps|
  {
    if steps != [] {
      var t, after := Apply(s, steps[0]), Hear(heard, steps[0]);
      if s.watermark <= t.watermark {
        forall id | id in after
          ensures t.watermark == if after[id].Some? && after[id].value > t.cursors[id] then after[id].value else t.cursors[id]
        {
        }
        NeverBackIff(t, steps[1..], after);
      }
    }
  }

  // A sweep starts only when none is under way.
  ghost predicate OneAtATime(s: State, steps: seq<Step>)
    requires ValidRun(s, steps)
    decreases |steps|
  {
    steps == [] || ((steps[0].Start? ==> s.cursors == map[]) && OneAtATime(Apply(s, steps[0]), steps[1..]))
  }

  /** With one sweep at a time the watermark never goes back. */
  lemma {:induction false} OneAtATimeNeverBack(s: State, steps: seq<Step>)
    requires ValidRun(s, steps) && OneAtATime(s, steps)
    requires forall id :: id in s.cursors ==> s.cursors == map[id := s.watermark]
    ensures NeverBack(s, steps)
    decreases |steps|
  {
    if steps != [] {
      var t := Apply(s, steps[0]);
      if steps[0].Stop? {
        assert t.cursors == map[];
      }
      OneAtATimeNeverBack(t, steps[1..]);
    }
  }

  lemma Prepend(s: State, step: Step, rest: seq<Step>)
    requires Enabled(s, step) && ValidRun(Apply(s, step), rest)
    ensures ValidRun(s, [step] + rest)
    ensures NeverBack(s, [step] + rest) <==> s.watermark <= Apply(s, step).watermark && NeverBack(Apply(s, step), rest)
  {
    assert ([step] + rest)[1..] == rest;
  }

  /** A sweep that is overtaken by another one puts the watermark back. */
  lemma OvertakenSweepGoesBack(wm: int, late: int, far: int) returns (steps: seq<Step>)
    requires wm <= late < far
    ensures ValidRun(State(wm, map[]), steps) && !NeverBack(State(wm, map[]), steps)
  {
    var s0 := State(wm, map[]);
    var s1 := Apply(s0, Start(0));
    var s2 := Apply(s1, Start(1));
    var s3 := Apply(s2, Advance(1, far));
    Prepend(s3, Advance(0, late), []);
    Prepend(s2, Advance(1, far), [Advance(0, late)] + []);
    Prepend(s1, Start(1), [Advance(1, far)] + ([Advance(0, late)] + []));
    Prepend(s0, Start(0), [Start(1)] + ([Advance(1, far)] + ([Advance(0, late)] + [])));
    steps := [Start(0)] + ([Start(1)] + ([Advance(1, far)] + ([Advance(0, late)] + [])));
  }
}
