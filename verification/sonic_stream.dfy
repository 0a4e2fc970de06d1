/**
 * The Sonic stream record (src/sonic.cpp) and its buffer bookkeeping: the
 * input, output and pitch buffers are sequences of frames whose length is the
 * sample count of the source; their capacities are kept alongside, so that the
 * growth policy and the reallocation on a format change can be stated.
 * Allocation never fails in this model.
 */
module SonicStream {
  import opened Base
  import opened Arith
  import opened SonicKernels

  /** Lowest and highest pitch the period search looks for, in Hz. */
  const SONIC_MIN_PITCH: int := 65
  const SONIC_MAX_PITCH: int := 400
  /** The rate, in Hz, the coarse pitch search down-samples towards. */
  const SONIC_AMDF_FREQ: int := 4000

  datatype Stream = Stream(
    input: seq<Frame>, inputSize: int,
    output: seq<Frame>, outputSize: int,
    pitchBuffer: seq<Frame>, pitchSize: int,
    speed: real, volume: real, pitch: real, rate: real,
    oldRatePosition: int, newRatePosition: int,
    useChordPitch: bool, quality: int,
    numChannels: int, sampleRate: int,
    minPeriod: int, maxPeriod: int, maxRequired: int,
    remainingInputToCopy: int,
    prevPeriod: int, prevMinDiff: int,
    sincTable: seq<int>)   // the static table the rate changer reads, SincTable(SINC_TABLE_SIZE) from creation on

  /** The period limits that a sample rate determines. */
  predicate PeriodsFor(s: Stream, sampleRate: int)
  {
    && s.minPeriod == sampleRate / SONIC_MAX_PITCH
    && s.maxPeriod == sampleRate / SONIC_MIN_PITCH
    && s.maxRequired == 2 * s.maxPeriod
  }

  /** What every operation keeps: well-formed buffers within their capacities,
      period limits derived from the sample rate, and a remembered period that
      is either absent (0) or within the limits. */
  predicate Valid(s: Stream)
  {
    && s.numChannels >= 1
    && s.sampleRate >= SONIC_MAX_PITCH
    && PeriodsFor(s, s.sampleRate)
    && |s.input| <= s.inputSize
    && |s.output| <= s.outputSize
    && |s.pitchBuffer| <= s.pitchSize
    && FramesOk(s.input, s.numChannels)
    && FramesOk(s.output, s.numChannels)
    && FramesOk(s.pitchBuffer, s.numChannels)
    && s.remainingInputToCopy >= 0
    && (s.prevPeriod == 0 || s.minPeriod <= s.prevPeriod <= s.maxPeriod)
    && s.prevMinDiff >= 0
    && s.oldRatePosition >= 0 && s.newRatePosition >= 0
    && TableOk(s.sincTable)
  }

  /** The limits are ordered and leave room for at least one period. */
  lemma PeriodFacts(s: Stream)
    requires Valid(s)
    ensures 1 <= s.minPeriod <= s.maxPeriod
    ensures s.maxRequired == 2 * s.maxPeriod && s.maxRequired >= 2
  {
    DivAntiMono(s.sampleRate, SONIC_MIN_PITCH, SONIC_MAX_PITCH);
  }

  /** `n` frames of silence, as `calloc` and `memset` leave them. */
  function Silence(n: nat, channels: nat): (r: seq<Frame>)
    ensures |r| == n && FramesOk(r, channels)
    ensures forall i, c | 0 <= i < n && 0 <= c < channels :: r[i][c] == 0
  {
    seq(n, i => seq(channels, c => 0))
  }

  // ----------------------------------------------------------- life cycle

  /** A fresh stream: buffers empty with room for `maxRequired` frames each,
      every factor at 1.0, no remembered period. */
  function CreateStream(sampleRate: int, numChannels: int): (r: Stream)
    requires sampleRate >= SONIC_MAX_PITCH && numChannels >= 1
    ensures Valid(r) && RatePhaseReset(r)
    ensures r.sampleRate == sampleRate && r.numChannels == numChannels
    ensures r.input == [] && r.output == [] && r.pitchBuffer == []
    ensures r.inputSize == r.outputSize == r.pitchSize == r.maxRequired
    ensures r.speed == 1.0 && r.pitch == 1.0 && r.volume == 1.0 && r.rate == 1.0
    ensures !r.useChordPitch && r.quality == 0 && r.prevPeriod == 0
  {
    var maxPeriod := sampleRate / SONIC_MIN_PITCH;
    Stream([], 2 * maxPeriod, [], 2 * maxPeriod, [], 2 * maxPeriod,
           1.0, 1.0, 1.0, 1.0, 0, 0, false, 0, numChannels, sampleRate,
           sampleRate / SONIC_MAX_PITCH, maxPeriod, 2 * maxPeriod, 0, 0, 0, SincTable(SINC_TABLE_SIZE))
  }

  /** `r` has the parameters, format and period limits of `s`. */
  predicate SameSettings(s: Stream, r: Stream)
  {
    && r.speed == s.speed && r.volume == s.volume && r.pitch == s.pitch && r.rate == s.rate
    && r.useChordPitch == s.useChordPitch && r.quality == s.quality
    && r.numChannels == s.numChannels && r.sampleRate == s.sampleRate
    && r.minPeriod == s.minPeriod && r.maxPeriod == s.maxPeriod && r.maxRequired == s.maxRequired
  }

  /** The rate resampler's phase counters are both at zero. */
  predicate RatePhaseReset(s: Stream)
  {
    s.oldRatePosition == 0 && s.newRatePosition == 0
  }

  /** Buffer allocation for a new format as the source does it: capacities
      and period limits are recomputed, the phase and the remembered period
      are cleared, but the sample counts are left as they were, so the
      buffers still claim that many (now zeroed) frames. */
  function AllocateStreamBuffers(s: Stream, sampleRate: int, numChannels: int): (r: Stream)
    requires sampleRate >= SONIC_MAX_PITCH && numChannels >= 1
    ensures PeriodsFor(r, sampleRate) && RatePhaseReset(r) && r.prevPeriod == 0
    ensures r.inputSize == r.outputSize == r.pitchSize == r.maxRequired
    ensures |r.input| == |s.input| && |r.output| == |s.output| && |r.pitchBuffer| == |s.pitchBuffer|
  {
    var maxPeriod := sampleRate / SONIC_MIN_PITCH;
    s.(input := Silence(|s.input|, numChannels), inputSize := 2 * maxPeriod,
       output := Silence(|s.output|, numChannels), outputSize := 2 * maxPeriod,
       pitchBuffer := Silence(|s.pitchBuffer|, numChannels), pitchSize := 2 * maxPeriod,
       sampleRate := sampleRate, numChannels := numChannels,
       oldRatePosition := 0, newRatePosition := 0,
       minPeriod := sampleRate / SONIC_MAX_PITCH, maxPeriod := maxPeriod,
       maxRequired := 2 * maxPeriod, prevPeriod := 0)
  }

  /** `sonicSetSampleRate` as written: a reallocation that keeps the counts. */
  function SetSampleRateAsWritten(s: Stream, sampleRate: int): (r: Stream)
    requires sampleRate >= SONIC_MAX_PITCH && s.numChannels >= 1
    ensures r.sampleRate == sampleRate && |r.input| == |s.input|
  {
    AllocateStreamBuffers(s, sampleRate, s.numChannels)
  }

  /** `sonicSetNumChannels` as written: a reallocation that keeps the counts. */
  function SetNumChannelsAsWritten(s: Stream, numChannels: int): (r: Stream)
    requires s.sampleRate >= SONIC_MAX_PITCH && numChannels >= 1
    ensures r.numChannels == numChannels && |r.input| == |s.input|
  {
    AllocateStreamBuffers(s, s.sampleRate, numChannels)
  }

  /** A stream that has buffered 1000 frames at 44100 Hz claims, after the
      switch to 8000 Hz, more input frames than its new input buffer holds:
      the next append writes past the end of the buffer. */
  lemma SetSampleRateKeepsStaleCount()
    ensures var s := AddShortSamples(CreateStream(44100, 1), Silence(1000, 1));
            Valid(s) && !Valid(SetSampleRateAsWritten(s, 8000))
            && |SetSampleRateAsWritten(s, 8000).input| > SetSampleRateAsWritten(s, 8000).inputSize
  {
    var s := AddShortSamples(CreateStream(44100, 1), Silence(1000, 1));
    assert |s.input| == 1000;
    assert SetSampleRateAsWritten(s, 8000).inputSize == 246;
  }

  /** The same happens on a change of channel count: 2000 buffered stereo
      frames at 44100 Hz exceed the 1356 frames the new mono buffer holds. */
  lemma SetNumChannelsKeepsStaleCount()
    ensures var s := AddShortSamples(CreateStream(44100, 2), Silence(2000, 2));
            Valid(s) && !Valid(SetNumChannelsAsWritten(s, 1))
            && |SetNumChannelsAsWritten(s, 1).input| > SetNumChannelsAsWritten(s, 1).inputSize
  {
    var s := AddShortSamples(CreateStream(44100, 2), Silence(2000, 2));
    assert |s.input| == 2000;
    assert SetNumChannelsAsWritten(s, 1).inputSize == 1356;
  }

  /** The documented behaviour of a format change: buffered samples are
      dropped, everything else except the format-derived fields is kept. */
  function ResetForFormat(s: Stream, sampleRate: int, numChannels: int): (r: Stream)
    requires Valid(s) && sampleRate >= SONIC_MAX_PITCH && numChannels >= 1
    ensures Valid(r) && RatePhaseReset(r) && r.prevPeriod == 0
    ensures r.sampleRate == sampleRate && r.numChannels == numChannels
    ensures r.input == [] && r.output == [] && r.pitchBuffer == [] && r.remainingInputToCopy == 0
    ensures r.speed == s.speed && r.pitch == s.pitch && r.rate == s.rate && r.volume == s.volume
    ensures r.quality == s.quality && r.useChordPitch == s.useChordPitch
  {
    var a := AllocateStreamBuffers(s, sampleRate, numChannels);
    DivAntiMono(sampleRate, SONIC_MIN_PITCH, SONIC_MAX_PITCH);
    a.(input := [], output := [], pitchBuffer := [], remainingInputToCopy := 0)
  }

  /** `sonicSetSampleRate` with the counts cleared as its comment promises. */
  function SetSampleRate(s: Stream, sampleRate: int): (r: Stream)
    requires Valid(s) && sampleRate >= SONIC_MAX_PITCH
    ensures Valid(r) && r.sampleRate == sampleRate && r.numChannels == s.numChannels
    ensures r.input == [] && r.output == [] && r.pitchBuffer == []
  {
    ResetForFormat(s, sampleRate, s.numChannels)
  }

  /** `sonicSetNumChannels` with the counts cleared as its comment promises. */
  function SetNumChannels(s: Stream, numChannels: int): (r: Stream)
    requires Valid(s) && numChannels >= 1
    ensures Valid(r) && r.numChannels == numChannels && r.sampleRate == s.sampleRate
    ensures r.input == [] && r.output == [] && r.pitchBuffer == []
  {
    ResetForFormat(s, s.sampleRate, numChannels)
  }

  // ------------------------------------------------------------- setters

  /** `sonicSetSpeed`: only the speed changes. */
  function SetSpeed(s: Stream, speed: real): (r: Stream)
    ensures Valid(s) ==> Valid(r)
    ensures r.speed == speed && r.(speed := s.speed) == s
  {
    s.(speed := speed)
  }

  /** `sonicSetPitch` as written: only the factor changes. Outside chord
      mode the pitch multiplies the rate the resampler works at, yet the
      resampler's phase is left as the previous rate left it. */
  function SetPitchAsWritten(s: Stream, pitch: real): (r: Stream)
    ensures Valid(s) ==> Valid(r)
    ensures r.pitch == pitch && r.(pitch := s.pitch) == s
  {
    s.(pitch := pitch)
  }

  /** The pitch setter with the phase restarted, as the rate setter does,
      since a new pitch is a new resampling rate. */
  function SetPitch(s: Stream, pitch: real): (r: Stream)
    ensures Valid(s) ==> Valid(r)
    ensures r.pitch == pitch && RatePhaseReset(r)
    ensures r.(pitch := s.pitch, oldRatePosition := s.oldRatePosition, newRatePosition := s.newRatePosition) == s
  {
    s.(pitch := pitch, oldRatePosition := 0, newRatePosition := 0)
  }

  /** `sonicSetVolume`: only the volume changes. */
  function SetVolume(s: Stream, volume: real): (r: Stream)
    ensures Valid(s) ==> Valid(r)
    ensures r.volume == volume && r.(volume := s.volume) == s
  {
    s.(volume := volume)
  }

  /** `sonicSetQuality`: only the quality changes. */
  function SetQuality(s: Stream, quality: int): (r: Stream)
    ensures Valid(s) ==> Valid(r)
    ensures r.quality == quality && r.(quality := s.quality) == s
  {
    s.(quality := quality)
  }

  /** `sonicSetChordPitch`: only the chord-pitch flag changes. */
  function SetChordPitch(s: Stream, useChordPitch: bool): (r: Stream)
    ensures Valid(s) ==> Valid(r)
    ensures r.useChordPitch == useChordPitch && r.(useChordPitch := s.useChordPitch) == s
  {
    s.(useChordPitch := useChordPitch)
  }

  /** Changing the rate also restarts the resampler's phase. */
  function SetRate(s: Stream, rate: real): (r: Stream)
    ensures Valid(s) ==> Valid(r)
    ensures r.rate == rate && RatePhaseReset(r)
    ensures r.(rate := s.rate, oldRatePosition := s.oldRatePosition, newRatePosition := s.newRatePosition) == s
  {
    s.(rate := rate, oldRatePosition := 0, newRatePosition := 0)
  }

  /** Every setter keeps the stream valid and its buffered audio; the rate
      setter and the corrected pitch setter restart the resampler phase, the
      others leave it alone. */
  lemma SettersKeepStream(s: Stream, x: real, q: int, b: bool)
    requires Valid(s)
    ensures Valid(SetSpeed(s, x)) && Valid(SetPitch(s, x)) && Valid(SetVolume(s, x))
    ensures Valid(SetQuality(s, q)) && Valid(SetChordPitch(s, b)) && Valid(SetRate(s, x))
    ensures SetRate(s, x).input == s.input && SetRate(s, x).output == s.output
    ensures SetRate(s, x).pitchBuffer == s.pitchBuffer && SetRate(s, x).rate == x
    ensures RatePhaseReset(SetRate(s, x))
    ensures Valid(SetPitchAsWritten(s, x)) && RatePhaseReset(SetPitch(s, x))
    ensures SetPitchAsWritten(s, x).oldRatePosition == s.oldRatePosition
    ensures SetPitchAsWritten(s, x).newRatePosition == s.newRatePosition
    ensures SetSpeed(s, x).oldRatePosition == s.oldRatePosition
  {
  }

  // ------------------------------------------------------------- buffers

  /** The capacity after making room for `n` more frames: unchanged when they
      fit, otherwise grown by half plus `n`. */
  function GrownSize(count: int, size: int, n: int): (r: int)
    requires 0 <= count <= size && n >= 0
    ensures count + n <= r && size <= r
    ensures r == size <==> count + n <= size
    ensures count + n > size ==> r == size + size / 2 + n
  {
    if count + n > size then size + ShiftRight(size, 1) + n else size
  }

  function EnlargeInputBuffer(s: Stream, n: int): (r: Stream)
    requires Valid(s) && n >= 0
    ensures Valid(r) && r == s.(inputSize := r.inputSize)
    ensures |s.input| + n <= r.inputSize && s.inputSize <= r.inputSize
    ensures |s.input| + n <= s.inputSize ==> r.inputSize == s.inputSize
    ensures |s.input| + n > s.inputSize ==> r.inputSize == s.inputSize + s.inputSize / 2 + n
  {
    s.(inputSize := GrownSize(|s.input|, s.inputSize, n))
  }

  function EnlargeOutputBuffer(s: Stream, n: int): (r: Stream)
    requires Valid(s) && n >= 0
    ensures Valid(r) && r == s.(outputSize := r.outputSize)
    ensures |s.output| + n <= r.outputSize && s.outputSize <= r.outputSize
    ensures |s.output| + n <= s.outputSize ==> r.outputSize == s.outputSize
    ensures |s.output| + n > s.outputSize ==> r.outputSize == s.outputSize + s.outputSize / 2 + n
  {
    s.(outputSize := GrownSize(|s.output|, s.outputSize, n))
  }

  /** Append frames to the input buffer. */
  function AddShortSamples(s: Stream, samples: seq<Frame>): (r: Stream)
    requires Valid(s) && FramesOk(samples, s.numChannels)
    ensures Valid(r) && r.input == s.input + samples
    ensures r == s.(input := r.input, inputSize := r.inputSize)
  {
    if |samples| == 0 then
      assert s.input + samples == s.input;
      s
    else
      var e := EnlargeInputBuffer(s, |samples|);
      FramesOkAppend(s.input, samples, s.numChannels);
      e.(input := e.input + samples)
  }

  /** Drop the first `position` input frames. */
  function RemoveInputSamples(s: Stream, position: int): (r: Stream)
    requires Valid(s) && 0 <= position <= |s.input|
    ensures Valid(r) && r == s.(input := r.input)
    ensures s.input == s.input[..position] + r.input
  {
    FramesOkSlice(s.input, position, |s.input|, s.numChannels);
    s.(input := s.input[position..])
  }

  /** The input buffer is first-in first-out: removing what was there before an
      append leaves exactly the appended frames. */
  lemma InputFifo(s: Stream, samples: seq<Frame>)
    requires Valid(s) && FramesOk(samples, s.numChannels)
    ensures RemoveInputSamples(AddShortSamples(s, samples), |s.input|).input == samples
  {
    var a := AddShortSamples(s, samples);
    assert a.input[|s.input|..] == samples;
  }

  /** Append frames to the output buffer. */
  function CopyToOutput(s: Stream, samples: seq<Frame>): (r: Stream)
    requires Valid(s) && FramesOk(samples, s.numChannels)
    ensures Valid(r) && r.output == s.output + samples
    ensures r == s.(output := r.output, outputSize := r.outputSize)
  {
    var e := EnlargeOutputBuffer(s, |samples|);
    FramesOkAppend(s.output, samples, s.numChannels);
    e.(output := e.output + samples)
  }

  datatype Copied = Copied(count: int, stream: Stream)

  /** Pass up to `maxRequired` of the frames still owed unchanged from input
      position `position` to the output. */
  function CopyInputToOutput(s: Stream, position: int): (r: Copied)
    requires Valid(s) && 0 <= position
    requires position + Min(s.remainingInputToCopy, s.maxRequired) <= |s.input|
    ensures Valid(r.stream)
    ensures r.count == Min(s.remainingInputToCopy, s.maxRequired)
    ensures r.stream.output == s.output + s.input[position..position + r.count]
    ensures r.stream.remainingInputToCopy + r.count == s.remainingInputToCopy
    ensures r.stream == s.(output := r.stream.output, outputSize := r.stream.outputSize,
                           remainingInputToCopy := r.stream.remainingInputToCopy)
  {
    var n := Min(s.remainingInputToCopy, s.maxRequired);
    FramesOkSlice(s.input, position, position + n, s.numChannels);
    var c := CopyToOutput(s, s.input[position..position + n]);
    Copied(n, c.(remainingInputToCopy := c.remainingInputToCopy - n))
  }

  datatype ReadResult = ReadResult(count: int, samples: seq<Frame>, stream: Stream)

  /** Take up to `maxSamples` frames from the front of the output buffer. An
      empty buffer yields nothing, which is not an error. */
  function ReadShortFromStream(s: Stream, maxSamples: int): (r: ReadResult)
    requires Valid(s) && maxSamples >= 0
    ensures Valid(r.stream)
    ensures r.count == Min(|s.output|, maxSamples) && |r.samples| == r.count
    ensures r.samples + r.stream.output == s.output
    ensures r.stream == s.(output := r.stream.output)
  {
    if |s.output| == 0 then
      ReadResult(0, [], s)
    else
      var n := Min(|s.output|, maxSamples);
      FramesOkSlice(s.output, n, |s.output|, s.numChannels);
      assert s.output[..n] + s.output[n..] == s.output;
      ReadResult(n, s.output[..n], s.(output := s.output[n..]))
  }

  /** Reading in two steps yields what one read of the combined size yields. */
  lemma ReadSplits(s: Stream, a: nat, b: nat)
    requires Valid(s)
    ensures var r1 := ReadShortFromStream(s, a);
            var r2 := ReadShortFromStream(r1.stream, b);
            var r := ReadShortFromStream(s, a + b);
            r1.samples + r2.samples == r.samples && r2.stream == r.stream
  {
    var r1 := ReadShortFromStream(s, a);
    var r2 := ReadShortFromStream(r1.stream, b);
    var r := ReadShortFromStream(s, a + b);
    var o := s.output;
    assert r1.samples + r1.stream.output == o;
    assert r2.samples + r2.stream.output == r1.stream.output;
    assert r.samples + r.stream.output == o;
    assert r.samples == o[..|r.samples|];
    assert r1.samples + r2.samples == o[..|r1.samples| + |r2.samples|] by {
      assert r1.samples + (r2.samples + r2.stream.output) == o;
    }
    assert r.stream.output == o[|r.samples|..];
    assert r2.stream.output == o[|r1.samples| + |r2.samples|..] by {
      assert (r1.samples + r2.samples) + r2.stream.output == o;
    }
  }

  // --------------------------------------------------------- pitch buffer

  /** Move the output frames produced since `originalNumOutputSamples` to the
      end of the pitch buffer, growing it as the output buffer grows. */
  function MoveNewSamplesToPitchBuffer(s: Stream, originalNumOutputSamples: int): (r: Stream)
    requires Valid(s) && 0 <= originalNumOutputSamples <= |s.output|
    ensures Valid(r)
    ensures r.output == s.output[..originalNumOutputSamples]
    ensures r.pitchBuffer == s.pitchBuffer + s.output[originalNumOutputSamples..]
    ensures r.output + r.pitchBuffer[|s.pitchBuffer|..] == s.output
    ensures r == s.(output := r.output, pitchBuffer := r.pitchBuffer, pitchSize := r.pitchSize)
  {
    var moved := s.output[originalNumOutputSamples..];
    FramesOkSlice(s.output, originalNumOutputSamples, |s.output|, s.numChannels);
    FramesOkSlice(s.output, 0, originalNumOutputSamples, s.numChannels);
    FramesOkAppend(s.pitchBuffer, moved, s.numChannels);
    var r := s.(pitchSize := GrownSize(|s.pitchBuffer|, s.pitchSize, |moved|),
                pitchBuffer := s.pitchBuffer + moved,
                output := s.output[..originalNumOutputSamples]);
    assert r.pitchBuffer[|s.pitchBuffer|..] == moved;
    assert r.output + moved == s.output;
    r
  }

  /** Drop the first `n` frames of the pitch buffer. */
  function RemovePitchSamples(s: Stream, n: int): (r: Stream)
    requires Valid(s) && 0 <= n <= |s.pitchBuffer|
    ensures Valid(r) && r == s.(pitchBuffer := r.pitchBuffer)
    ensures s.pitchBuffer == s.pitchBuffer[..n] + r.pitchBuffer
  {
    FramesOkSlice(s.pitchBuffer, n, |s.pitchBuffer|, s.numChannels);
    if n == 0 then s else s.(pitchBuffer := s.pitchBuffer[n..])
  }
}
