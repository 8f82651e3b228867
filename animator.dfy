/**
 * The animation driver: a clock, the index of the current pattern and the
 * number of frames shown of it. Every tick draws one frame of the current
 * pattern, advances the clock by a fixed step and counts the frame; after
 * fifty frames the count starts again and the next pattern (cyclically)
 * takes over. Screen output and pauses are not part of this model.
 */
module Animator {
  import opened WavePattern

  const Width: int := 80
  const Height: int := 24
  const FramesPerPattern: int := 50
  const TimeStep: real := 0.15

  /** The pattern cycle: wave-type name and title, in display order. */
  const Patterns: seq<(string, string)> := [
    ("sine", "SINE WAVE INTERFERENCE"),
    ("ripple", "RIPPLE EFFECT"),
    ("plasma", "PLASMA FIELD")
  ]

  /** The driver's variables t, pattern_idx and frame_count. */
  datatype State = State(t: real, patternIdx: int, frameCount: int)

  const Initial: State := State(0.0, 0, 0)

  /** The invariant at the top of every loop iteration: the frame count is
      below the threshold and the pattern index selects an entry of the cycle. */
  predicate Valid(s: State) {
    0 <= s.frameCount < FramesPerPattern && 0 <= s.patternIdx < |Patterns|
  }

  /** One iteration of the loop's state update. The clock always advances by
      one step; the invariant is kept; the pattern changes exactly on the
      ticks where the frame count wraps to zero. */
  function Step(s: State): (s': State)
    ensures s'.t == s.t + TimeStep
    ensures Valid(s) ==> Valid(s')
    ensures Valid(s) ==> (s'.patternIdx != s.patternIdx <==> s'.frameCount == 0)
    ensures Valid(s) && s'.frameCount != 0 ==> s'.frameCount == s.frameCount + 1
  {
    var frameCount := s.frameCount + 1;
    if frameCount >= FramesPerPattern then
      State(s.t + TimeStep, (s.patternIdx + 1) % |Patterns|, 0)
    else
      State(s.t + TimeStep, s.patternIdx, frameCount)
  }

  /** The state after n ticks from s. */
  function Run(s: State, n: nat): State {
    if n == 0 then s else Step(Run(s, n - 1))
  }

  /** The invariant holds after every number of ticks from a valid state. */
  lemma {:induction false} RunValid(s: State, n: nat)
    requires Valid(s)
    ensures Valid(Run(s, n))
  {
    if n > 0 {
      RunValid(s, n - 1);
    }
  }

  /** The state n ticks after a valid state s, in closed form: the clock has
      advanced by n steps, the frame count is the remainder of (frame count + n)
      by the threshold, and the pattern index has advanced by the quotient,
      modulo the number of patterns. */
  function Closed(s: State, n: nat): State {
    var k := s.frameCount + n;
    State(s.t + TimeStep * n as real, (s.patternIdx + k / FramesPerPattern) % |Patterns|, k % FramesPerPattern)
  }

  /** Dividing k + 1 by the frame threshold: the remainder wraps to zero
      exactly when the quotient grows. */
  lemma DivStep(k: nat)
    ensures k % FramesPerPattern + 1 < FramesPerPattern ==>
              (k + 1) % FramesPerPattern == k % FramesPerPattern + 1 && (k + 1) / FramesPerPattern == k / FramesPerPattern
    ensures k % FramesPerPattern + 1 >= FramesPerPattern ==>
              (k + 1) % FramesPerPattern == 0 && (k + 1) / FramesPerPattern == k / FramesPerPattern + 1
  {
  }

  lemma ModStep(q: nat)
    ensures (q + 1) % |Patterns| == (q % |Patterns| + 1) % |Patterns|
  {
  }

  /** One tick takes the closed form for n ticks to the closed form for n + 1. */
  lemma StepClosed(s: State, n: nat)
    requires Valid(s)
    ensures Step(Closed(s, n)) == Closed(s, n + 1)
  {
    var k := s.frameCount + n;
    DivStep(k);
    ModStep(s.patternIdx + k / FramesPerPattern);
    assert TimeStep * n as real + TimeStep == TimeStep * (n + 1) as real;
  }

  /** Every run from a valid state follows the closed form. */
  lemma {:induction false} RunClosedForm(s: State, n: nat)
    requires Valid(s)
    ensures Run(s, n) == Closed(s, n)
  {
    if n > 0 {
      RunClosedForm(s, n - 1);
      StepClosed(s, n - 1);
    }
  }

  /** From the initial state, after n ticks: t = 0.15 n, frame_count = n mod 50
      and pattern_idx = (n div 50) mod 3. */
  lemma RunFromInitial(n: nat)
    ensures Run(Initial, n) == State(TimeStep * n as real, (n / FramesPerPattern) % |Patterns|, n % FramesPerPattern)
  {
    RunClosedForm(Initial, n);
  }

  /** Every fifty ticks a new pattern starts with a fresh frame count: after
      k * 50 ticks pattern k mod 3 is up (so after fifty ticks the second one). */
  lemma PatternSwitch(k: nat)
    ensures Run(Initial, k * FramesPerPattern) == State(TimeStep * (k * FramesPerPattern) as real, k % |Patterns|, 0)
  {
    RunFromInitial(k * FramesPerPattern);
    assert k * FramesPerPattern / FramesPerPattern == k;
  }

  /** Before the fiftieth tick the first pattern is shown and the frame count
      is the number of ticks so far. */
  lemma FirstPattern(n: nat)
    requires n < FramesPerPattern
    ensures Run(Initial, n).patternIdx == 0 && Run(Initial, n).frameCount == n
  {
    RunFromInitial(n);
    assert n / FramesPerPattern == 0;
  }

  /** After 150 ticks the cycle is back at the first pattern. */
  lemma FullCycle()
    ensures Run(Initial, FramesPerPattern * |Patterns|) == State(22.5, 0, 0)
  {
    RunFromInitial(FramesPerPattern * |Patterns|);
  }

  /** From any valid state, 150 ticks bring the pattern index and the frame
      count back to where they were, and no smaller positive number of ticks
      does: the cycle length is exactly 150. */
  lemma CycleLength(s: State, n: nat)
    requires Valid(s) && 0 < n <= 150
    ensures var s' := Run(s, n);
            (s'.patternIdx == s.patternIdx && s'.frameCount == s.frameCount) <==> n == 150
  {
    RunClosedForm(s, n);
  }

  /** One displayed frame: the pattern's title and its grid. */
  datatype Frame = Frame(title: string, rows: seq<string>)

  /** The frame drawn at the top of a loop iteration in state s. */
  function FrameOf(s: State, m: MathFns): (f: Frame)
    requires Valid(s)
    ensures f.title == Patterns[s.patternIdx].1
    ensures |f.rows| == Height && forall y :: 0 <= y < Height ==> |f.rows[y]| == Width
  {
    Frame(Patterns[s.patternIdx].1, Grid(Width, Height, s.t, KindOf(Patterns[s.patternIdx].0), m))
  }

  /** The frames the driver shows in its first n ticks. */
  function Frames(n: nat, m: MathFns): (fs: seq<Frame>)
    ensures |fs| == n
  {
    if n == 0 then []
    else
      RunValid(Initial, n - 1);
      Frames(n - 1, m) + [FrameOf(Run(Initial, n - 1), m)]
  }

  /** Frame i of the shown frames is the frame of the state after i ticks. */
  lemma {:induction false} FramesAt(n: nat, m: MathFns, i: nat)
    requires i < n
    ensures Valid(Run(Initial, i)) && Frames(n, m)[i] == FrameOf(Run(Initial, i), m)
  {
    RunValid(Initial, i);
    if i < n - 1 {
      FramesAt(n - 1, m, i);
    }
  }

  /** The driver loop of main, run until the interrupt arrives after `ticks`
      iterations: frame i is the frame of the state reached after i ticks,
      and the final state is the one reached after all of them. */
  method Animate(ticks: nat, m: MathFns) returns (frames: seq<Frame>, final: State)
    ensures final == Run(Initial, ticks) && Valid(final)
    ensures frames == Frames(ticks, m)
    ensures forall i :: 0 <= i < ticks ==> Valid(Run(Initial, i)) && frames[i] == FrameOf(Run(Initial, i), m)
  {
    var t := 0.0;
    var patternIdx := 0;
    var frameCount := 0;
    frames := [];
    var tick := 0;
    while tick < ticks
      invariant 0 <= tick <= ticks
      invariant State(t, patternIdx, frameCount) == Run(Initial, tick)
      invariant Valid(State(t, patternIdx, frameCount))
      invariant frames == Frames(tick, m)
    {
      ghost var before := State(t, patternIdx, frameCount);
      var entry := Patterns[patternIdx];
      var pattern := GenerateWavePattern(m, Width, Height, t, entry.0);
      frames := frames + [Frame(entry.1, pattern)];
      t := t + TimeStep;
      frameCount := frameCount + 1;
      if frameCount >= FramesPerPattern {
        frameCount := 0;
        patternIdx := (patternIdx + 1) % |Patterns|;
      }
      assert State(t, patternIdx, frameCount) == Step(before);
      tick := tick + 1;
    }
    final := State(t, patternIdx, frameCount);
    forall i | 0 <= i < ticks
      ensures Valid(Run(Initial, i)) && frames[i] == FrameOf(Run(Initial, i), m)
    {
      FramesAt(ticks, m, i);
    }
  }
}
