/**
 * The processing pipeline of the Sonic engine (src/sonic.cpp): every write
 * runs the buffered input through the speed stage, then the pitch or rate
 * stage, then the volume stage, each working only on the frames the write
 * produced; a flush pads the input with silence to push everything out and
 * trims the output to the length the factors predict.
 */
module SonicProcess {
  import opened Base
  import opened Arith
  import opened SonicKernels
  import opened SonicStream
  import opened SonicRate
  import opened SonicSpeed

  /** The outcome of a write or a flush: the source's success flag with the
      stream as far as it got, or one of the points where the model of the
      C code stops (the resampler's consistency exit, a table index outside
      the sinc table, a zero old rate, a read past the pitch buffer). */
  datatype Outcome = Written(ok: bool, stream: Stream) | Exited | OutsideTable | Unbounded | ReadsPastBuffer

  /** A stream the pipeline can run on: positive speed, pitch and rate. */
  predicate Usable(s: Stream)
  {
    Valid(s) && s.speed > 0.0 && s.pitch > 0.0 && s.rate > 0.0
  }

  /** The tempo factor left for the speed stage once pitch is taken out. */
  function StageSpeed(s: Stream): real
    requires s.pitch > 0.0
  {
    s.speed / s.pitch
  }

  /** The resampling factor of the rate stage: outside chord mode the pitch
      is obtained by resampling, so it multiplies the rate. */
  function StageRate(s: Stream): real
  {
    if s.useChordPitch then s.rate else s.rate * s.pitch
  }

  /** Within 0.00001 of 1 the speed stage copies instead of cutting periods. */
  predicate NearUnity(x: real)
  {
    0.99999 <= x <= 1.00001
  }

  lemma PositiveRatio(a: real, b: real)
    requires a > 0.0 && b > 0.0
    ensures a / b > 0.0
  {
    assert (a / b) * b == a;
    if a / b <= 0.0 {
      RealMulLe(a / b, 0.0, b);
    }
  }

  lemma PositiveProduct(a: real, b: real)
    requires a > 0.0 && b > 0.0
    ensures a * b > 0.0
  {
    RealMulLt(0.0, a, b);
  }

  /** The speed stage: the whole input is copied to the output near speed 1,
      otherwise `changeSpeed` cuts or repeats pitch periods. It touches only
      the input and output side, and a success leaves less than maxRequired
      frames of the input's tail. */
  function SpeedStage(s: Stream): (r: Status)
    requires Usable(s)
    ensures Valid(r.stream) && SpeedSide(s, r.stream) && Extends(s, r.stream)
    ensures |r.stream.input| <= |s.input|
    ensures r.ok ==> |r.stream.input| < s.maxRequired
    ensures r.ok ==> r.stream.input == s.input[|s.input| - |r.stream.input|..]
    ensures !r.ok ==> r.stream.input == s.input
    ensures NearUnity(StageSpeed(s)) ==> r.ok && r.stream.output == s.output + s.input && r.stream.input == []
    ensures 0.5 <= StageSpeed(s) <= 2.0 ==> r.ok
  {
    PositiveRatio(s.speed, s.pitch);
    PeriodFacts(s);
    if NearUnity(StageSpeed(s)) then
      var t := CopyToOutput(s, s.input);
      assert s.input[|s.input|..] == [];
      Status(true, t.(input := []))
    else
      ChangeSpeed(s, StageSpeed(s))
  }

  /** The pitch or rate stage on the frames produced since `orig`: in chord
      mode `adjustPitch` re-synthesises them unless the pitch is 1, otherwise
      `adjustRate` resamples them unless the combined rate is 1. A success
      keeps the output before `orig`, the input and the settings. */
  function AdjustStage(t: Stream, orig: int): (r: Outcome)
    requires Usable(t) && 0 <= orig <= |t.output|
    ensures r.Written? ==> r.ok && Valid(r.stream)
    ensures r.Written? ==> |r.stream.output| >= orig && r.stream.output[..orig] == t.output[..orig]
    ensures r.Written? ==> r.stream.input == t.input && SameSettings(t, r.stream)
    ensures (if t.useChordPitch then t.pitch == 1.0 else StageRate(t) == 1.0) ==> r == Written(true, t)
    ensures t.useChordPitch && 3.0 * t.pitch >= 1.0 ==> r.Written?
  {
    if t.useChordPitch then
      if t.pitch != 1.0 then
        match AdjustPitch(t, orig)
        case Pitched(u) => Written(true, u)
        case ReadsPastBuffer => Outcome.ReadsPastBuffer
      else Written(true, t)
    else if StageRate(t) != 1.0 then
      PositiveProduct(t.rate, t.pitch);
      AdjustRateShape(t, StageRate(t), orig);
      match AdjustRate(t, StageRate(t), orig)
      case Adjusted(u) => Written(true, u)
      case Exited => Outcome.Exited
      case OutsideTable => Outcome.OutsideTable
      case Unbounded => Outcome.Unbounded
    else Written(true, t)
  }

  /** The volume stage: away from volume 1 every sample produced since
      `orig` is scaled by the fixed-point volume; nothing else changes. */
  function VolumeStage(t: Stream, orig: int, volume: real): (r: Stream)
    requires Valid(t) && 0 <= orig <= |t.output|
    ensures Valid(r) && r == t.(output := r.output)
    ensures |r.output| == |t.output| && r.output[..orig] == t.output[..orig]
    ensures volume == 1.0 ==> r == t
    ensures volume != 1.0 ==>
              forall i, c | orig <= i < |r.output| && 0 <= c < t.numChannels ::
                r.output[i][c] == ScaleSample(t.output[i][c], FixedPointVolume(volume))
  {
    if volume != 1.0 then
      var tail := t.output[orig..];
      var scaled := ScaleSamples(tail, volume);
      FramesOkSlice(t.output, orig, |t.output|, t.numChannels);
      FramesOkSlice(t.output, 0, orig, t.numChannels);
      assert FramesOk(scaled, t.numChannels);
      FramesOkAppend(t.output[..orig], scaled, t.numChannels);
      var r := t.(output := t.output[..orig] + scaled);
      assert forall i | orig <= i < |r.output| :: r.output[i] == scaled[i - orig];
      r
    else t
  }

  /** processStreamInput: the three stages in turn, each on the frames this
      call produced. Output written before the call is never touched; a
      success leaves less than maxRequired frames of the input's tail; a
      failure of the speed stage leaves the input as it was. */
  function ProcessStreamInput(s: Stream): (r: Outcome)
    requires Usable(s)
    ensures r.Written? ==> Usable(r.stream) && SameSettings(s, r.stream) && Extends(s, r.stream)
    ensures r.Written? ==> |r.stream.input| <= |s.input|
    ensures r.Written? && r.ok ==> |r.stream.input| < s.maxRequired
    ensures r.Written? && r.ok ==> r.stream.input == s.input[|s.input| - |r.stream.input|..]
    ensures r.Written? && !r.ok ==> r.stream.input == s.input
  {
    var orig := |s.output|;
    var sp := SpeedStage(s);
    if !sp.ok then Written(false, sp.stream)
    else
      var a := AdjustStage(sp.stream, orig);
      if a.Written? then
        var v := VolumeStage(a.stream, orig, s.volume);
        assert v.output[..orig] == a.stream.output[..orig] == sp.stream.output[..orig] == s.output;
        Written(true, v)
      else a
  }

  /** sonicWriteShortToStream: append the frames to the input, then process. */
  function WriteShortToStream(s: Stream, samples: seq<Frame>): (r: Outcome)
    requires Usable(s) && FramesOk(samples, s.numChannels)
    ensures r.Written? ==> Usable(r.stream) && SameSettings(s, r.stream) && Extends(s, r.stream)
    ensures r.Written? ==> |r.stream.input| <= |s.input| + |samples|
    ensures r.Written? && r.ok ==> |r.stream.input| < s.maxRequired
    ensures r.Written? && !r.ok ==> r.stream.input == s.input + samples
  {
    ProcessStreamInput(AddShortSamples(s, samples))
  }

  // -------------------------------------------------------- process laws

  /** With every factor at 1 a write is a pass-through: the input moves to
      the end of the output unchanged and the input empties. */
  lemma ProcessUnity(s: Stream)
    requires Usable(s) && s.speed == 1.0 && s.pitch == 1.0 && s.rate == 1.0 && s.volume == 1.0
    ensures var r := ProcessStreamInput(s);
            r.Written? && r.ok && r.stream.output == s.output + s.input && r.stream.input == []
  {
    assert StageSpeed(s) == 1.0;
    assert StageRate(s) == 1.0;
  }

  /** At unit factors, what is written can be read back: the frames read
      after a write are the earlier output, the buffered input and the new
      frames, in that order, and every buffer is then empty. */
  lemma WriteReadRoundTrip(s: Stream, samples: seq<Frame>)
    requires Usable(s) && s.speed == 1.0 && s.pitch == 1.0 && s.rate == 1.0 && s.volume == 1.0
    requires FramesOk(samples, s.numChannels)
    ensures var w := WriteShortToStream(s, samples);
            && w.Written? && w.ok
            && var n := |s.output| + |s.input| + |samples|;
               var rd := ReadShortFromStream(w.stream, n);
               rd.samples == s.output + s.input + samples && rd.stream.output == [] && rd.stream.input == []
  {
    var a := AddShortSamples(s, samples);
    ProcessUnity(a);
    var w := ProcessStreamInput(a);
    assert w.stream.output == s.output + (s.input + samples);
  }

  /** The player's use: pitch and rate at 1 and a speed between 0.5 and 2
      always succeed, whatever the volume and input. */
  lemma PlayerSpeedSucceeds(s: Stream)
    requires Usable(s) && s.pitch == 1.0 && s.rate == 1.0 && 0.5 <= s.speed <= 2.0
    ensures var r := ProcessStreamInput(s); r.Written? && r.ok
  {
    assert StageSpeed(s) == s.speed;
    assert StageRate(s) == 1.0;
  }

  // ---------------------------------------------------------------- flush

  lemma NonNegativeRatio(a: real, b: real)
    requires a >= 0.0 && b > 0.0
    ensures a / b >= 0.0
  {
    assert (a / b) * b == a;
  }

  /** The output length a flush aims at: what is already output plus the
      buffered input at the effective speed and the pitch buffer, both at
      the combined rate, rounded to the nearest frame. The combined rate here
      is rate times pitch even in chord mode. */
  function ExpectedOutput(s: Stream): (r: int)
    requires Usable(s)
    ensures r >= |s.output|
  {
    PositiveRatio(s.speed, s.pitch);
    PositiveProduct(s.rate, s.pitch);
    NonNegativeRatio(|s.input| as real, s.speed / s.pitch);
    NonNegativeRatio(|s.input| as real / (s.speed / s.pitch) + |s.pitchBuffer| as real, s.rate * s.pitch);
    |s.output| + Trunc((|s.input| as real / (s.speed / s.pitch) + |s.pitchBuffer| as real) / (s.rate * s.pitch) + 0.5)
  }

  /** The input followed by 2 * maxRequired frames of silence, with room
      made for them as the source asks (for the input count again plus the
      silence). */
  function PadWithSilence(s: Stream): (r: Stream)
    requires Usable(s)
    ensures Usable(r) && SameSettings(s, r)
    ensures r.input == s.input + Silence(2 * s.maxRequired, s.numChannels)
    ensures r == s.(input := r.input, inputSize := r.inputSize)
  {
    var silence := Silence(2 * s.maxRequired, s.numChannels);
    var e := EnlargeInputBuffer(s, |s.input| + 2 * s.maxRequired);
    FramesOkAppend(e.input, silence, s.numChannels);
    e.(input := e.input + silence)
  }

  /** The end of a flush after a successful write: the output cut back to
      `expected` frames if longer, input, frames to copy and pitch buffer
      cleared. */
  function TrimAndClear(t: Stream, expected: int): (r: Stream)
    requires Usable(t) && expected >= 0
    ensures Usable(r) && SameSettings(t, r)
    ensures r.output == if |t.output| > expected then t.output[..expected] else t.output
    ensures r.input == [] && r.pitchBuffer == [] && r.remainingInputToCopy == 0
  {
    var out := if |t.output| > expected then t.output[..expected] else t.output;
    FramesOkSlice(t.output, 0, |out|, t.numChannels);
    t.(output := out, input := [], remainingInputToCopy := 0, pitchBuffer := [])
  }

  /** sonicFlushStream: pad the input with 2 * maxRequired frames of silence,
      process, cut the output back to the expected length if the silence made
      it longer, and empty the input and the pitch buffer. */
  function FlushStream(s: Stream): (r: Outcome)
    requires Usable(s)
    ensures r.Written? ==> Usable(r.stream) && SameSettings(s, r.stream) && Extends(s, r.stream)
    ensures r.Written? && r.ok ==> |r.stream.output| <= ExpectedOutput(s)
    ensures r.Written? && r.ok ==> r.stream.input == [] && r.stream.pitchBuffer == [] && r.stream.remainingInputToCopy == 0
  {
    var expected := ExpectedOutput(s);
    var w := WriteShortToStream(PadWithSilence(s), []);
    if w.Written? && w.ok then
      var r := TrimAndClear(w.stream, expected);
      assert r.output[..|s.output|] == w.stream.output[..|s.output|];
      Written(true, r)
    else w
  }

  /** At unit factors and with nothing held for pitch, a flush outputs the
      buffered input unchanged, and the silence it added is all cut off. */
  lemma FlushUnity(s: Stream)
    requires Usable(s) && s.speed == 1.0 && s.pitch == 1.0 && s.rate == 1.0 && s.volume == 1.0
    requires s.pitchBuffer == []
    ensures var r := FlushStream(s);
            r.Written? && r.ok && r.stream.output == s.output + s.input
  {
    var n := |s.input|;
    assert ExpectedOutput(s) == |s.output| + Trunc(n as real + 0.5);
    TruncAtMost(n as real + 0.5, n);
    TruncAtLeast(n as real + 0.5, n);
    var p := PadWithSilence(s);
    var a := AddShortSamples(p, []);
    assert a == p;
    ProcessUnity(p);
    var t := ProcessStreamInput(p).stream;
    var silence := Silence(2 * s.maxRequired, s.numChannels);
    assert t.output == (s.output + s.input) + silence;
    assert t.output[..|s.output| + n] == s.output + s.input;
  }

  /** The player's flush: pitch and rate at 1 and a speed between 0.5 and 2
      always succeed and leave every buffer but the output empty. */
  lemma PlayerFlushSucceeds(s: Stream)
    requires Usable(s) && s.pitch == 1.0 && s.rate == 1.0 && 0.5 <= s.speed <= 2.0
    ensures var r := FlushStream(s);
            r.Written? && r.ok && r.stream.input == [] && r.stream.pitchBuffer == []
  {
    var p := PadWithSilence(s);
    assert AddShortSamples(p, []) == p;
    PlayerSpeedSucceeds(p);
  }
}
