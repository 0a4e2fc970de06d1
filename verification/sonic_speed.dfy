/**
 * Speed change and pitch adjustment of the Sonic engine (src/sonic.cpp): the
 * input is cut at detected pitch periods, and whole periods are dropped
 * (speed-up) or repeated (slow-down) with a cross-fade, so the tempo changes
 * while the pitch stays; in chord mode the output is instead re-synthesised
 * at a shorter or longer period.
 */
module SonicSpeed {
  import opened Base
  import opened Arith
  import opened SonicKernels
  import opened SonicStream
  import opened SonicPitch

  /** A step's result: the stream after it, and whether the source reported
      success. A failure leaves the stream as far as the step had got. */
  datatype Status = Status(ok: bool, stream: Stream)

  /** The stream differs from `s` at most in its output, the frames still to
      copy and the remembered period. */
  predicate OnlyOutputSide(s: Stream, r: Stream)
  {
    r == s.(output := r.output, outputSize := r.outputSize,
            remainingInputToCopy := r.remainingInputToCopy,
            prevPeriod := r.prevPeriod, prevMinDiff := r.prevMinDiff)
  }

  /** The output of `r` extends that of `s`. */
  predicate Extends(s: Stream, r: Stream)
  {
    |r.output| >= |s.output| && r.output[..|s.output|] == s.output
  }

  lemma ExtendsTrans(a: Stream, b: Stream, c: Stream)
    requires Extends(a, b) && Extends(b, c)
    ensures Extends(a, c)
  {
    assert c.output[..|b.output|][..|a.output|] == c.output[..|a.output|];
  }

  /** The first n frames of `out` lie, sample by sample, between those of
      `rampDown` and `rampUp`: what a cross-fade of the two produces. */
  predicate Mixes(out: seq<Frame>, rampDown: seq<Frame>, rampUp: seq<Frame>, n: int, channels: int)
  {
    && n <= |out| && n <= |rampDown| && n <= |rampUp|
    && FramesOk(out, channels) && FramesOk(rampDown, channels) && FramesOk(rampUp, channels)
    && forall t, c | 0 <= t < n && 0 <= c < channels ::
         Min(rampDown[t][c], rampUp[t][c]) <= out[t][c] <= Max(rampDown[t][c], rampUp[t][c])
  }

  // -------------------------------------------------------- skip / insert

  /** The frames a skip step emits: for a speed of 2 or more, the period
      divided by speed - 1; below 2, one whole period. */
  function SkipCount(period: int, speed: real): (r: int)
    requires period >= 1 && speed > 1.0
    ensures 0 <= r <= period
  {
    if speed >= 2.0 then
      var t := Trunc(period as real / (speed - 1.0));
      TruncQuotient(period as real, speed - 1.0);
      RealMulLe(1.0, speed - 1.0, t as real);
      t
    else period
  }

  /** The frames a skip step schedules for plain copying: none for a speed of
      2 or more, otherwise period * (2 - speed) / (speed - 1). */
  function SkipRemaining(period: int, speed: real, remaining: int): int
    requires period >= 1 && speed > 1.0
  {
    if speed >= 2.0 then remaining else Trunc(period as real * (2.0 - speed) / (speed - 1.0))
  }

  /** Drop one pitch period: the first `newSamples` frames of the two periods
      at the front of `samples` are cross-faded into one, and the input that
      remains to be copied verbatim is scheduled. */
  function SkipPitchPeriod(s: Stream, samples: seq<Frame>, speed: real, period: int): (r: Copied)
    requires Valid(s) && speed > 1.0 && 1 <= period && 2 * period <= |samples|
    requires FramesOk(samples, s.numChannels)
    ensures Valid(r.stream) && OnlyOutputSide(s, r.stream) && Extends(s, r.stream)
    ensures 0 <= r.count <= period
    ensures |r.stream.output| == |s.output| + r.count
    ensures r.stream.prevPeriod == s.prevPeriod && r.stream.prevMinDiff == s.prevMinDiff
    ensures Mixes(r.stream.output[|s.output|..], samples, samples[period..], r.count, s.numChannels)
  {
    var newSamples := SkipCount(period, speed);
    var remaining := SkipRemaining(period, speed, s.remainingInputToCopy);
    SkipRemainingBounds(period, speed, s.remainingInputToCopy);
    var t := EnlargeOutputBuffer(s.(remainingInputToCopy := remaining), newSamples);
    FramesOkSlice(samples, period, |samples|, s.numChannels);
    var frames := OverlapAdd(newSamples, s.numChannels, samples, samples[period..]);
    FramesOkAppend(t.output, frames, s.numChannels);
    var out := t.output + frames;
    assert out[..|s.output|] == s.output;
    assert out[|s.output|..] == frames;
    Copied(newSamples, t.(output := out))
  }

  lemma SkipRemainingBounds(period: int, speed: real, remaining: int)
    requires period >= 1 && speed > 1.0 && remaining >= 0
    ensures SkipRemaining(period, speed, remaining) >= 0
  {
    if speed < 2.0 {
      RealMulLe(0.0, period as real, 2.0 - speed);
      TruncQuotient(period as real * (2.0 - speed), speed - 1.0);
    }
  }

  /** The frames an insert step cross-fades after the repeated period: for a
      speed below 0.5, period * speed / (1 - speed); from 0.5 on, one period. */
  function InsertCount(period: int, speed: real): (r: int)
    requires period >= 1 && 0.0 < speed < 1.0
    ensures 0 <= r <= period
  {
    if speed < 0.5 then
      TruncBelow(period as real * speed, 1.0 - speed, period as real, speed);
      Trunc(period as real * speed / (1.0 - speed))
    else period
  }

  /** The frames an insert step schedules for plain copying: none below 0.5,
      otherwise period * (2 * speed - 1) / (1 - speed). */
  function InsertRemaining(period: int, speed: real, remaining: int): int
    requires period >= 1 && 0.0 < speed < 1.0
  {
    if speed < 0.5 then remaining else Trunc(period as real * (2.0 * speed - 1.0) / (1.0 - speed))
  }

  /** Repeat one pitch period: the period is copied, then `newSamples` frames
      cross-fade from the second period back into the first. */
  function InsertPitchPeriod(s: Stream, samples: seq<Frame>, speed: real, period: int): (r: Copied)
    requires Valid(s) && 0.0 < speed < 1.0 && 1 <= period && 2 * period <= |samples|
    requires FramesOk(samples, s.numChannels)
    ensures Valid(r.stream) && OnlyOutputSide(s, r.stream) && Extends(s, r.stream)
    ensures 0 <= r.count <= period
    ensures |r.stream.output| == |s.output| + period + r.count
    ensures r.stream.prevPeriod == s.prevPeriod && r.stream.prevMinDiff == s.prevMinDiff
    ensures r.stream.output[|s.output|..|s.output| + period] == samples[..period]
    ensures Mixes(r.stream.output[|s.output| + period..], samples[period..], samples, r.count, s.numChannels)
  {
    var newSamples := InsertCount(period, speed);
    var remaining := InsertRemaining(period, speed, s.remainingInputToCopy);
    InsertRemainingBounds(period, speed, s.remainingInputToCopy);
    var t := EnlargeOutputBuffer(s.(remainingInputToCopy := remaining), period + newSamples);
    FramesOkSlice(samples, period, |samples|, s.numChannels);
    FramesOkSlice(samples, 0, period, s.numChannels);
    var frames := OverlapAdd(newSamples, s.numChannels, samples[period..], samples);
    FramesOkAppend(t.output, samples[..period], s.numChannels);
    FramesOkAppend(t.output + samples[..period], frames, s.numChannels);
    var out := t.output + samples[..period] + frames;
    assert out[..|s.output|] == s.output;
    assert out[|s.output|..|s.output| + period] == samples[..period];
    assert out[|s.output| + period..] == frames;
    Copied(newSamples, t.(output := out))
  }

  lemma InsertRemainingBounds(period: int, speed: real, remaining: int)
    requires period >= 1 && 0.0 < speed < 1.0 && remaining >= 0
    ensures InsertRemaining(period, speed, remaining) >= 0
  {
    if speed >= 0.5 {
      RealMulLe(0.0, period as real, 2.0 * speed - 1.0);
      TruncQuotient(period as real * (2.0 * speed - 1.0), 1.0 - speed);
    }
  }

  // ------------------------------------------------------------ the cycle

  /** The input frames one skip cycle consumes: the two overlapped periods'
      worth and the frames it schedules for copying. */
  function SkipCycleInput(period: int, speed: real): int
    requires period >= 1 && speed > 1.0
  {
    period + SkipCount(period, speed) + SkipRemaining(period, speed, 0)
  }

  /** The output frames one skip cycle emits. */
  function SkipCycleOutput(period: int, speed: real): int
    requires period >= 1 && speed > 1.0
  {
    SkipCount(period, speed) + SkipRemaining(period, speed, 0)
  }

  /** One skip cycle, starting with nothing left to copy, consumes C input
      frames and emits E output frames with 0 <= C - speed * E < speed - 1:
      the requested speed is met to within less than one frame. */
  lemma SkipCycleRatio(period: int, speed: real)
    requires period >= 1 && speed > 1.0
    ensures 0.0 <= SkipCycleInput(period, speed) as real - speed * SkipCycleOutput(period, speed) as real < speed - 1.0
  {
    if speed >= 2.0 {
      SkipFastRatio(period, speed);
    } else {
      SkipSlowRatio(period, speed);
    }
  }

  lemma SkipFastRatio(period: int, speed: real)
    requires period >= 1 && speed >= 2.0
    ensures 0.0 <= SkipCycleInput(period, speed) as real - speed * SkipCycleOutput(period, speed) as real < speed - 1.0
  {
    var n := Trunc(period as real / (speed - 1.0));
    assert SkipCycleInput(period, speed) == period + n;
    assert SkipCycleOutput(period, speed) == n;
    TruncBracket(period as real, speed - 1.0);
    SkipFastCycle(period as real, n as real, speed - 1.0, speed,
                  SkipCycleInput(period, speed) as real, SkipCycleOutput(period, speed) as real);
  }

  lemma SkipSlowRatio(period: int, speed: real)
    requires period >= 1 && 1.0 < speed < 2.0
    ensures 0.0 <= SkipCycleInput(period, speed) as real - speed * SkipCycleOutput(period, speed) as real < speed - 1.0
  {
    var rest := SkipRemaining(period, speed, 0);
    assert SkipCount(period, speed) == period;
    assert SkipCycleInput(period, speed) == period + period + rest;
    assert SkipCycleOutput(period, speed) == period + rest;
    RealMulLe(0.0, period as real, 2.0 - speed);
    TruncBracket(period as real * (2.0 - speed), speed - 1.0);
    SkipSlowCycle(period as real, rest as real, period as real * (2.0 - speed),
                  speed - 1.0, speed, SkipCycleInput(period, speed) as real, SkipCycleOutput(period, speed) as real);
  }

  /** The skip cycle for speeds of 2 or more, over the reals: n frames made
      from a period p with c = speed - 1 and 0 <= p - n * c < c. */
  lemma SkipFastCycle(p: real, n: real, c: real, speed: real, consumed: real, emitted: real)
    requires c == speed - 1.0 && 0.0 <= p - n * c < c
    requires consumed == p + n && emitted == n
    ensures 0.0 <= consumed - speed * emitted < speed - 1.0
  {
    assert n * c == n * speed - n;
  }

  /** The skip cycle for speeds below 2, over the reals: a whole period made,
      then r frames copied with a = p * (2 - speed) and 0 <= a - r * c < c. */
  lemma SkipSlowCycle(p: real, r: real, a: real, c: real, speed: real, consumed: real, emitted: real)
    requires c == speed - 1.0 && a == p * (2.0 - speed) && 0.0 <= a - r * c < c
    requires consumed == p + p + r && emitted == p + r
    ensures 0.0 <= consumed - speed * emitted < speed - 1.0
  {
    assert r * c == r * speed - r;
    assert speed * emitted == speed * p + speed * r;
  }

  /** The input frames one insert cycle consumes. */
  function InsertCycleInput(period: int, speed: real): int
    requires period >= 1 && 0.0 < speed < 1.0
  {
    InsertCount(period, speed) + InsertRemaining(period, speed, 0)
  }

  /** The output frames one insert cycle emits: the repeated period, the
      cross-fade and the copied frames. */
  function InsertCycleOutput(period: int, speed: real): int
    requires period >= 1 && 0.0 < speed < 1.0
  {
    period + InsertCount(period, speed) + InsertRemaining(period, speed, 0)
  }

  /** One insert cycle, starting with nothing left to copy, consumes C input
      frames and emits E output frames with 0 <= speed * E - C < 1 - speed. */
  lemma InsertCycleRatio(period: int, speed: real)
    requires period >= 1 && 0.0 < speed < 1.0
    ensures 0.0 <= speed * InsertCycleOutput(period, speed) as real - InsertCycleInput(period, speed) as real < 1.0 - speed
  {
    if speed < 0.5 {
      InsertSlowRatio(period, speed);
    } else {
      InsertFastRatio(period, speed);
    }
  }

  lemma InsertSlowRatio(period: int, speed: real)
    requires period >= 1 && 0.0 < speed < 0.5
    ensures 0.0 <= speed * InsertCycleOutput(period, speed) as real - InsertCycleInput(period, speed) as real < 1.0 - speed
  {
    var a := period as real * speed;
    assert InsertCycleInput(period, speed) == Trunc(a / (1.0 - speed));
    assert InsertCycleOutput(period, speed) == period + Trunc(a / (1.0 - speed));
    RealMulLe(0.0, period as real, speed);
    TruncBracket(a, 1.0 - speed);
    InsertSlowCycle(period as real, Trunc(a / (1.0 - speed)) as real, a, 1.0 - speed, speed,
                    InsertCycleInput(period, speed) as real, InsertCycleOutput(period, speed) as real);
  }

  lemma InsertFastRatio(period: int, speed: real)
    requires period >= 1 && 0.5 <= speed < 1.0
    ensures 0.0 <= speed * InsertCycleOutput(period, speed) as real - InsertCycleInput(period, speed) as real < 1.0 - speed
  {
    var rest := InsertRemaining(period, speed, 0);
    assert InsertCount(period, speed) == period;
    assert InsertCycleInput(period, speed) == period + rest;
    assert InsertCycleOutput(period, speed) == period + period + rest;
    RealMulLe(0.0, 2.0 * speed - 1.0, period as real);
    TruncBracket(period as real * (2.0 * speed - 1.0), 1.0 - speed);
    InsertFastCycle(period as real, InsertRemaining(period, speed, 0) as real, period as real * (2.0 * speed - 1.0),
                    1.0 - speed, speed, InsertCycleInput(period, speed) as real, InsertCycleOutput(period, speed) as real);
  }

  /** The insert cycle below speed 0.5, over the reals: n frames cross-faded
      with a = p * speed, c = 1 - speed and 0 <= a - n * c < c. */
  lemma InsertSlowCycle(p: real, n: real, a: real, c: real, speed: real, consumed: real, emitted: real)
    requires c == 1.0 - speed && a == p * speed && 0.0 <= a - n * c < c
    requires consumed == n && emitted == p + n
    ensures 0.0 <= speed * emitted - consumed < 1.0 - speed
  {
    assert n * c == n - n * speed;
    assert speed * emitted == speed * p + speed * n;
  }

  /** The insert cycle from speed 0.5 on, over the reals: a whole period
      cross-faded, then r frames copied with a = p * (2 * speed - 1). */
  lemma InsertFastCycle(p: real, r: real, a: real, c: real, speed: real, consumed: real, emitted: real)
    requires c == 1.0 - speed && a == p * (2.0 * speed - 1.0) && 0.0 <= a - r * c < c
    requires consumed == p + r && emitted == p + p + r
    ensures 0.0 <= speed * emitted - consumed < 1.0 - speed
  {
    assert r * c == r - r * speed;
    assert speed * emitted == speed * p + speed * p + speed * r;
  }

  /** For speeds between 0.5 and 2 neither step comes out empty: the skip and
      insert counts are one whole period. */
  lemma CountsPositive(period: int, speed: real)
    requires period >= 1 && speed > 0.0
    ensures 1.0 < speed <= 2.0 ==> SkipCount(period, speed) == period
    ensures 0.5 <= speed < 1.0 ==> InsertCount(period, speed) == period
  {
    if speed == 2.0 {
      assert period as real / (speed - 1.0) == period as real;
    }
  }

  /** A skip step makes nothing exactly when the period is shorter than
      speed - 1 frames. */
  lemma SkipCountZero(period: int, speed: real)
    requires period >= 1 && speed > 1.0
    ensures SkipCount(period, speed) == 0 <==> period as real < speed - 1.0
  {
    if speed >= 2.0 {
      TruncQuotient(period as real, speed - 1.0);
      if period as real < speed - 1.0 {
        DivBelowOne(period as real, speed - 1.0);
        TruncAtMost(period as real / (speed - 1.0), 0);
      } else {
        DivAtLeastOne(period as real, speed - 1.0);
        TruncAtLeast(period as real / (speed - 1.0), 1);
      }
    }
  }

  /** An insert step below speed 0.5 cross-fades nothing exactly when
      period * speed falls short of 1 - speed. */
  lemma InsertCountZero(period: int, speed: real)
    requires period >= 1 && 0.0 < speed < 1.0
    ensures InsertCount(period, speed) == 0 <==> speed < 0.5 && period as real * speed < 1.0 - speed
  {
    if speed < 0.5 {
      RealMulLe(0.0, period as real, speed);
      if period as real * speed < 1.0 - speed {
        DivBelowOne(period as real * speed, 1.0 - speed);
        TruncAtMost(period as real * speed / (1.0 - speed), 0);
      } else {
        DivAtLeastOne(period as real * speed, 1.0 - speed);
        TruncAtLeast(period as real * speed / (1.0 - speed), 1);
      }
    }
  }

  // ----------------------------------------------------------- changeSpeed

  /** One pass of the speed loop: the frames it made (0 signals failure), how
      far it moved through the input, and the stream after it. */
  datatype Step = Step(count: int, advance: int, stream: Stream)

  /** The stream differs from `s` at most in its input, its output, the
      frames still to copy and the remembered period. */
  predicate SpeedSide(s: Stream, r: Stream)
  {
    r == s.(input := r.input, inputSize := r.inputSize, output := r.output, outputSize := r.outputSize,
            remainingInputToCopy := r.remainingInputToCopy,
            prevPeriod := r.prevPeriod, prevMinDiff := r.prevMinDiff)
  }

  /** One pass of the speed loop at `position`: copy scheduled input if any is
      left, otherwise find the period there and skip or repeat it. */
  function SpeedStep(s: Stream, position: int, speed: real): (r: Step)
    requires Valid(s) && speed > 0.0 && speed != 1.0
    requires 0 <= position && position + s.maxRequired <= |s.input|
    ensures Valid(r.stream) && OnlyOutputSide(s, r.stream) && Extends(s, r.stream)
    ensures 0 <= r.count && 0 <= r.advance <= s.maxRequired
    ensures r.count > 0 ==> r.advance > 0
    ensures s.remainingInputToCopy > 0 ==>
              && r.count == r.advance == Min(s.remainingInputToCopy, s.maxRequired)
              && r.stream.output == s.output + s.input[position..position + r.count]
              && r.stream.remainingInputToCopy == s.remainingInputToCopy - r.count
    ensures s.remainingInputToCopy == 0 && speed > 1.0 ==>
              && |r.stream.output| == |s.output| + r.count
              && 2 * r.count <= r.advance
    ensures s.remainingInputToCopy == 0 && speed < 1.0 ==>
              && r.advance == r.count
              && |r.stream.output| > |s.output| + r.count
    ensures 0.5 <= speed <= 2.0 ==> r.count > 0
  {
    PeriodFacts(s);
    if s.remainingInputToCopy > 0 then
      var c := CopyInputToOutput(s, position);
      Step(c.count, c.count, c.stream)
    else if speed > 1.0 then SkipStep(s, position, speed)
    else InsertStep(s, position, speed)
  }

  /** A pass that finds the period at `position` and drops it: it moves
      past the two periods it read. */
  function SkipStep(s: Stream, position: int, speed: real): (r: Step)
    requires Valid(s) && speed > 1.0 && s.remainingInputToCopy == 0
    requires 0 <= position && position + s.maxRequired <= |s.input|
    ensures Valid(r.stream) && OnlyOutputSide(s, r.stream) && Extends(s, r.stream)
    ensures 0 <= r.count && 0 < r.advance <= s.maxRequired
    ensures |r.stream.output| == |s.output| + r.count && 2 * r.count <= r.advance
    ensures speed <= 2.0 ==> r.count > 0
  {
    PeriodFacts(s);
    var samples := s.input[position..];
    FramesOkSlice(s.input, position, |s.input|, s.numChannels);
    var d := FindPitchPeriod(s, samples, true);
    var c := SkipPitchPeriod(d.stream, samples, speed, d.period);
    CountsPositive(d.period, speed);
    Step(c.count, d.period + c.count, c.stream)
  }

  /** A pass that finds the period at `position` and repeats it: it moves
      past the frames it cross-faded. */
  function InsertStep(s: Stream, position: int, speed: real): (r: Step)
    requires Valid(s) && 0.0 < speed < 1.0 && s.remainingInputToCopy == 0
    requires 0 <= position && position + s.maxRequired <= |s.input|
    ensures Valid(r.stream) && OnlyOutputSide(s, r.stream) && Extends(s, r.stream)
    ensures 0 <= r.count == r.advance <= s.maxRequired
    ensures |r.stream.output| > |s.output| + r.count
    ensures 0.5 <= speed ==> r.count > 0
  {
    PeriodFacts(s);
    var samples := s.input[position..];
    FramesOkSlice(s.input, position, |s.input|, s.numChannels);
    var d := FindPitchPeriod(s, samples, true);
    var c := InsertPitchPeriod(d.stream, samples, speed, d.period);
    CountsPositive(d.period, speed);
    Step(c.count, c.count, c.stream)
  }

  /** The speed loop from `position`: steps until fewer than maxRequired
      frames lie ahead, then drops the consumed input; stops with failure on
      a step that makes nothing. */
  function SpeedLoop(s: Stream, position: int, speed: real): (r: Status)
    requires Valid(s) && speed > 0.0 && speed != 1.0
    requires 0 <= position && position + s.maxRequired <= |s.input|
    ensures Valid(r.stream) && SpeedSide(s, r.stream) && Extends(s, r.stream)
    ensures r.ok ==> |r.stream.input| < s.maxRequired && |r.stream.input| < |s.input| - position
    ensures !r.ok ==> r.stream.input == s.input
    ensures r.ok ==> r.stream.input == s.input[|s.input| - |r.stream.input|..]
    ensures 0.5 <= speed <= 2.0 ==> r.ok
    decreases |s.input| - position, 1
  {
    SpeedContinue(s, position, speed, SpeedStep(s, position, speed))
  }

  /** The loop after the pass at `position` has produced `st`. */
  function SpeedContinue(s: Stream, position: int, speed: real, st: Step): (r: Status)
    requires Valid(s) && speed > 0.0 && speed != 1.0
    requires 0 <= position && position + s.maxRequired <= |s.input|
    requires Valid(st.stream) && OnlyOutputSide(s, st.stream) && Extends(s, st.stream)
    requires 0 <= st.count && 0 <= st.advance <= s.maxRequired && (st.count > 0 ==> st.advance > 0)
    requires 0.5 <= speed <= 2.0 ==> st.count > 0
    ensures Valid(r.stream) && SpeedSide(s, r.stream) && Extends(s, r.stream)
    ensures r.ok ==> |r.stream.input| < s.maxRequired && |r.stream.input| < |s.input| - position
    ensures !r.ok ==> r.stream.input == s.input
    ensures r.ok ==> r.stream.input == s.input[|s.input| - |r.stream.input|..]
    ensures 0.5 <= speed <= 2.0 ==> r.ok
    decreases |s.input| - position, 0
  {
    var t := st.stream;
    assert t.input == s.input && t.maxRequired == s.maxRequired;
    if st.count == 0 then Status(false, t)
    else if position + st.advance + s.maxRequired <= |s.input| then
      var r := SpeedLoop(t, position + st.advance, speed);
      ExtendsTrans(s, t, r.stream);
      r
    else
      Status(true, RemoveInputSamples(t, position + st.advance))
  }

  /** changeSpeed: with at least maxRequired input frames, run the speed loop
      from the start of the input; with fewer, nothing happens. */
  function ChangeSpeed(s: Stream, speed: real): (r: Status)
    requires Valid(s) && speed > 0.0 && speed != 1.0
    ensures Valid(r.stream) && SpeedSide(s, r.stream) && Extends(s, r.stream)
    ensures r.ok ==> |r.stream.input| < s.maxRequired
    ensures |r.stream.input| <= |s.input|
    ensures |s.input| >= s.maxRequired && r.ok ==> |r.stream.input| < |s.input|
    ensures r.ok ==> r.stream.input == s.input[|s.input| - |r.stream.input|..]
    ensures |s.input| < s.maxRequired ==> r == Status(true, s)
    ensures !r.ok ==> r.stream.input == s.input
    ensures 0.5 <= speed <= 2.0 ==> r.ok
  {
    if |s.input| < s.maxRequired then Status(true, s)
    else SpeedLoop(s, 0, speed)
  }

  // ----------------------------------------------------------- adjustPitch

  /** The outcome of `adjustPitch`: the adjusted stream, or the point where a
      separation longer than the frames held would read past the pitch
      buffer's contents. */
  datatype PitchOutcome = Pitched(stream: Stream) | ReadsPastBuffer

  /** The length a period of `period` frames is re-synthesised to. Raising
      the pitch shortens the period, lowering it lengthens it; from a pitch
      of 1/3 up the new period is at most three times the old. */
  function NewPeriod(period: int, pitch: real): (r: int)
    requires pitch > 0.0
    ensures period >= 1 && pitch >= 1.0 ==> 0 <= r <= period
    ensures period >= 1 && pitch < 1.0 ==> r >= period
    ensures period >= 1 && 3.0 * pitch >= 1.0 ==> r <= 3 * period
  {
    var t := Trunc(period as real / pitch);
    if period < 1 then t
    else if pitch >= 1.0 then
      DivShrinks(period as real, pitch);
      TruncAtMost(period as real / pitch, period);
      TruncAtLeast(period as real / pitch, 0);
      t
    else
      DivGrows(period as real, pitch);
      TruncAtLeast(period as real / pitch, period);
      if 3.0 * pitch >= 1.0 then
        DivAtMostTriple(period as real, pitch);
        TruncAtMost(period as real / pitch, 3 * period);
        t
      else t
  }

  /** The frames one pitch period at `position` is re-synthesised to. */
  function PitchFrames(s: Stream, position: int, period: int): (r: seq<Frame>)
    requires Valid(s) && s.pitch > 0.0 && 1 <= period <= s.maxPeriod
    requires 0 <= position && position + s.maxRequired <= |s.pitchBuffer|
    requires s.pitch < 1.0 ==> NewPeriod(period, s.pitch) - period <= |s.pitchBuffer| - position
    ensures |r| == NewPeriod(period, s.pitch) && FramesOk(r, s.numChannels)
    ensures s.pitch == 1.0 ==> r == s.pitchBuffer[position..position + period]
  {
    PeriodFacts(s);
    var newPeriod := NewPeriod(period, s.pitch);
    var held := s.pitchBuffer[position..];
    FramesOkSlice(s.pitchBuffer, position, |s.pitchBuffer|, s.numChannels);
    if s.pitch == 1.0 then
      assert newPeriod == period by { TruncAtLeast(period as real / s.pitch, period); }
      OverlapAddSame(newPeriod, s.numChannels, held);
      OverlapAdd(newPeriod, s.numChannels, held, held[period - newPeriod..])
    else if s.pitch >= 1.0 then
      FramesOkSlice(held, period - newPeriod, |held|, s.numChannels);
      OverlapAdd(newPeriod, s.numChannels, held, held[period - newPeriod..])
    else
      OverlapAddWithSeparation(period, s.numChannels, newPeriod - period, held, held)
  }

  /** The stream differs from `s` at most in its output, its pitch buffer
      and the remembered period. */
  predicate PitchSide(s: Stream, r: Stream)
  {
    r == s.(output := r.output, outputSize := r.outputSize, pitchBuffer := r.pitchBuffer,
            prevPeriod := r.prevPeriod, prevMinDiff := r.prevMinDiff)
  }

  lemma PitchSideTrans(a: Stream, b: Stream, c: Stream)
    requires PitchSide(a, b) && PitchSide(b, c)
    ensures PitchSide(a, c)
  {
  }

  /** One period of the re-synthesis loop: the period detected at
      `position` and the stream with its re-synthesised frames appended, or
      the point where the separation would run past the frames held. */
  datatype Resynthesis = Resynthesis(period: int, stream: Stream) | Overrun

  /** One pass of the re-synthesis loop at `position`. */
  function PitchStep(s: Stream, position: int): (r: Resynthesis)
    requires Valid(s) && s.pitch > 0.0 && 0 <= position && position + s.maxRequired <= |s.pitchBuffer|
    ensures r.Resynthesis? ==> Valid(r.stream) && Extends(s, r.stream)
    ensures r.Resynthesis? ==> 1 <= r.period <= s.maxPeriod
    ensures r.Resynthesis? ==> |r.stream.output| == |s.output| + NewPeriod(r.period, s.pitch)
    ensures r.Resynthesis? ==> PitchSide(s, r.stream) && r.stream.pitchBuffer == s.pitchBuffer
    ensures 3.0 * s.pitch >= 1.0 ==> r.Resynthesis?
    ensures s.pitch == 1.0 ==> r.Resynthesis? && Appends(s, position, r.period, r.stream)
    ensures StepResult(s, position, r)
  {
    FramesOkSlice(s.pitchBuffer, position, |s.pitchBuffer|, s.numChannels);
    var d := FindPitchPeriod(s, s.pitchBuffer[position..], false);
    var period := d.period;
    PeriodFacts(s);
    var newPeriod := NewPeriod(period, s.pitch);
    if s.pitch < 1.0 && newPeriod - period > |s.pitchBuffer| - position then Overrun
    else
      var t := d.stream;
      assert t.pitch == s.pitch && t.pitchBuffer == s.pitchBuffer && t.output == s.output;
      var u := CopyToOutput(t, PitchFrames(t, position, period));
      assert u.output[..|s.output|] == s.output;
      Resynthesis(period, u)
  }

  /** What the re-synthesis loop from `position` promises: on success a
      valid stream whose output extends the old one, whose pitch buffer is a
      suffix of the old one from `position` on and holds less than
      maxRequired frames, and which differs from `s` only in output, pitch
      buffer and remembered period; success is certain from a pitch of 1/3
      up, and at pitch 1 nothing is lost or invented. */
  predicate LoopResult(s: Stream, position: int, r: PitchOutcome)
    requires 0 <= position <= |s.pitchBuffer|
  {
    && (r.Pitched? ==> Valid(r.stream) && Extends(s, r.stream))
    && (r.Pitched? ==> |r.stream.pitchBuffer| < s.maxRequired)
    && (r.Pitched? ==> |r.stream.pitchBuffer| <= |s.pitchBuffer| - position)
    && (r.Pitched? ==> r.stream.pitchBuffer == s.pitchBuffer[|s.pitchBuffer| - |r.stream.pitchBuffer|..])
    && (r.Pitched? ==> PitchSide(s, r.stream))
    && (3.0 * s.pitch >= 1.0 ==> r.Pitched?)
    && (s.pitch == 1.0 ==> r.Pitched? && Conserves(s, position, r.stream))
  }

  /** What one pass of the loop at `position` promises (see PitchStep). */
  predicate StepResult(s: Stream, position: int, r: Resynthesis)
  {
    && (r.Resynthesis? ==>
          && Valid(r.stream) && Extends(s, r.stream) && PitchSide(s, r.stream)
          && r.stream.pitchBuffer == s.pitchBuffer
          && 1 <= r.period <= s.maxPeriod)
    && (3.0 * s.pitch >= 1.0 ==> r.Resynthesis?)
    && (s.pitch == 1.0 ==> r.Resynthesis? && Appends(s, position, r.period, r.stream))
  }

  /** The re-synthesis loop of `adjustPitch` from `position` in the pitch
      buffer: each detected period is replaced by one of the new length, and
      the frames consumed are then dropped from the pitch buffer. */
  function PitchLoop(s: Stream, position: int): (r: PitchOutcome)
    requires Valid(s) && s.pitch > 0.0 && 0 <= position <= |s.pitchBuffer|
    ensures LoopResult(s, position, r)
    decreases |s.pitchBuffer| - position, 1
  {
    if |s.pitchBuffer| - position >= s.maxRequired then
      PitchContinue(s, position, PitchStep(s, position))
    else
      var r := RemovePitchSamples(s, position);
      assert Conserves(s, position, r);
      Pitched(r)
  }

  /** The loop after the pass at `position` has produced `step`. */
  function PitchContinue(s: Stream, position: int, step: Resynthesis): (r: PitchOutcome)
    requires Valid(s) && s.pitch > 0.0 && 0 <= position && position + s.maxRequired <= |s.pitchBuffer|
    requires StepResult(s, position, step)
    ensures LoopResult(s, position, r)
    decreases |s.pitchBuffer| - position, 0
  {
    if step.Overrun? then ReadsPastBuffer
    else
      PeriodFacts(s);
      var t := step.stream;
      assert t.pitch == s.pitch && t.pitchBuffer == s.pitchBuffer && t.maxRequired == s.maxRequired;
      var r := PitchLoop(t, position + step.period);
      LoopResultLink(s, position, step, r);
      r
  }

  /** A pass of the loop at `position` and the rest of the loop after it
      keep the promise of the loop at `position`. */
  lemma LoopResultLink(s: Stream, position: int, step: Resynthesis, r: PitchOutcome)
    requires Valid(s) && 0 <= position && position + s.maxRequired <= |s.pitchBuffer|
    requires step.Resynthesis? && StepResult(s, position, step)
    requires LoopResult(step.stream, position + step.period, r)
    ensures LoopResult(s, position, r)
  {
    var t := step.stream;
    PeriodFacts(s);
    assert t.pitch == s.pitch && t.pitchBuffer == s.pitchBuffer && t.maxRequired == s.maxRequired;
    PitchLoopLinks(s, t, r);
    if s.pitch == 1.0 {
      ConservesLink(s, position, t, step.period, r.stream);
    }
  }

  /** `r`'s output is that of `s` with the `period` frames of the pitch
      buffer at `position` appended unchanged. */
  predicate Appends(s: Stream, position: int, period: int, r: Stream)
  {
    0 <= position && 0 <= period && position + period <= |s.pitchBuffer| &&
    r.output == s.output + s.pitchBuffer[position..position + period]
  }

  /** The output followed by the pitch buffer of `r` is that of `s` with
      the pitch buffer read from `position`: nothing lost, nothing invented. */
  predicate Conserves(s: Stream, position: int, r: Stream)
    requires 0 <= position <= |s.pitchBuffer|
  {
    r.output + r.pitchBuffer == s.output + s.pitchBuffer[position..]
  }

  /** A pass that appends the period it consumed composes with a
      conserving rest of the loop. */
  lemma ConservesLink(s: Stream, position: int, t: Stream, period: int, r: Stream)
    requires 0 <= position && 0 <= period && position + period <= |s.pitchBuffer|
    requires t.pitchBuffer == s.pitchBuffer && Appends(s, position, period, t)
    requires Conserves(t, position + period, r)
    ensures Conserves(s, position, r)
  {
    var next := position + period;
    assert s.pitchBuffer[position..] == s.pitchBuffer[position..next] + s.pitchBuffer[next..];
  }

  /** What one pass of the loop and the rest of it compose to. */
  lemma PitchLoopLinks(s: Stream, t: Stream, r: PitchOutcome)
    requires Extends(s, t) && PitchSide(s, t)
    requires r.Pitched? ==> Extends(t, r.stream) && PitchSide(t, r.stream)
    ensures r.Pitched? ==> Extends(s, r.stream) && PitchSide(s, r.stream)
  {
    if r.Pitched? {
      ExtendsTrans(s, t, r.stream);
      PitchSideTrans(s, t, r.stream);
    }
  }

  /** adjustPitch: move the frames this call produced into the pitch buffer
      and re-synthesise them period by period; unchanged when the call
      produced nothing. */
  function AdjustPitch(s: Stream, originalNumOutputSamples: int): (r: PitchOutcome)
    requires Valid(s) && s.pitch > 0.0 && 0 <= originalNumOutputSamples <= |s.output|
    ensures r.Pitched? ==> Valid(r.stream)
    ensures r.Pitched? ==> |r.stream.output| >= originalNumOutputSamples
    ensures r.Pitched? ==> r.stream.output[..originalNumOutputSamples] == s.output[..originalNumOutputSamples]
    ensures r.Pitched? ==> |r.stream.pitchBuffer| < s.maxRequired || r.stream == s
    ensures r.Pitched? ==> r.stream.input == s.input && SameSettings(s, r.stream)
    ensures |s.output| == originalNumOutputSamples ==> r == Pitched(s)
    ensures 3.0 * s.pitch >= 1.0 ==> r.Pitched?
  {
    if |s.output| == originalNumOutputSamples then Pitched(s)
    else
      var t := MoveNewSamplesToPitchBuffer(s, originalNumOutputSamples);
      var r := PitchLoop(t, 0);
      if r.Pitched? then
        assert r.stream.output[..originalNumOutputSamples] == s.output[..originalNumOutputSamples] by {
          assert r.stream.output[..|t.output|] == t.output;
        }
        r
      else r
  }

  /** At pitch 1 the re-synthesis loses and invents nothing: output followed
      by pitch buffer is what it was before, with the new frames last. */
  lemma PitchOneConserves(s: Stream, originalNumOutputSamples: int)
    requires Valid(s) && s.pitch == 1.0 && 0 <= originalNumOutputSamples <= |s.output|
    ensures AdjustPitch(s, originalNumOutputSamples).Pitched?
    ensures var r := AdjustPitch(s, originalNumOutputSamples).stream;
            r.output + r.pitchBuffer == s.output[..originalNumOutputSamples] + s.pitchBuffer + s.output[originalNumOutputSamples..]
  {
    if |s.output| != originalNumOutputSamples {
      var t := MoveNewSamplesToPitchBuffer(s, originalNumOutputSamples);
      assert t.pitchBuffer[0..] == t.pitchBuffer;
    } else {
      assert s.output[..originalNumOutputSamples] == s.output;
      assert s.output[originalNumOutputSamples..] == [];
    }
  }
}
