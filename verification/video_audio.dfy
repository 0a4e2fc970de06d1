/**
 * The controller's audio side (src/videoctl.cpp): the fallback sequence
 * audio_open walks when the device refuses a format, and the way the audio
 * callback puts decoded 16-bit audio through a Sonic stream when the
 * playback rate is not normal. The device is an oracle `accepts`.
 */
module VideoAudio {
  import opened Base
  import opened SonicKernels
  import opened SonicStream
  import opened SonicProcess
  import opened VideoControl

  // ------------------------------------------------------------ audio_open

  /** The channel count to try after a refusal, indexed by min(7, count). */
  const NEXT_NB_CHANNELS: seq<int> := [0, 0, 1, 6, 2, 6, 4, 6]
  /** The sample rates to fall back to, tried from the highest below the
      wanted one downwards; 0 ends the search. */
  const NEXT_SAMPLE_RATES: seq<int> := [0, 44100, 48000, 96000, 192000]

  datatype AudioOpen = Opened(channels: int, freq: int) | Invalid | NoCombination

  function NextChannels(ch: int): (r: int)
    requires ch >= 1
    ensures r in NEXT_NB_CHANNELS
    ensures ChannelRank(r) < ChannelRank(ch)
  {
    NEXT_NB_CHANNELS[Min(7, ch)]
  }

  /** How many refusals take a channel count to 0 along NEXT_NB_CHANNELS. */
  function ChannelRank(ch: int): nat
  {
    if ch <= 0 then 0
    else if ch == 1 then 1
    else if ch == 2 then 2
    else if ch == 4 then 3
    else if ch == 6 then 4
    else 5
  }

  /** The first fallback index: step down from the top while the rate there
      is at least the wanted one. */
  function RateIndexFrom(idx: int, freq: int): (r: int)
    requires 0 <= idx < |NEXT_SAMPLE_RATES|
    ensures 0 <= r <= idx
    ensures r == 0 || NEXT_SAMPLE_RATES[r] < freq
    ensures forall j | r < j <= idx :: NEXT_SAMPLE_RATES[j] >= freq
  {
    if idx > 0 && NEXT_SAMPLE_RATES[idx] >= freq then RateIndexFrom(idx - 1, freq) else idx
  }

  /** The retry loop: on a refusal move the channel count along the chain;
      when it reaches 0, take the next lower sample rate with the wanted
      channel count, and give up at the 0 sentinel. */
  function OpenLoop(accepts: (int, int) -> bool, ch: int, freq: int, idx: int, wantedCh: int): (r: AudioOpen)
    requires ch >= 1 && wantedCh >= 1 && 0 <= idx < |NEXT_SAMPLE_RATES|
    ensures r != Invalid
    ensures r.Opened? ==> accepts(r.channels, r.freq)
    ensures r.Opened? ==> r.freq == freq || r.freq in NEXT_SAMPLE_RATES[1..idx + 1]
    ensures r.NoCombination? ==> !accepts(ch, freq)
    ensures r.NoCombination? ==> forall j | 1 <= j <= idx :: !accepts(wantedCh, NEXT_SAMPLE_RATES[j])
    decreases idx, ChannelRank(ch)
  {
    if accepts(ch, freq) then Opened(ch, freq)
    else
      var next := NextChannels(ch);
      if next != 0 then OpenLoop(accepts, next, freq, idx, wantedCh)
      else
        var f := NEXT_SAMPLE_RATES[idx];
        if f == 0 then NoCombination
        else OpenLoop(accepts, wantedCh, f, idx - 1, wantedCh)
  }

  /** audio_open's negotiation, from the channel count the layout checks
      settle on: reject a non-positive rate or count, else run the retry
      loop from the wanted format. */
  function AudioOpenFallback(accepts: (int, int) -> bool, wantedCh: int, wantedFreq: int): (r: AudioOpen)
    ensures r.Invalid? <==> wantedFreq <= 0 || wantedCh <= 0
    ensures r.Opened? ==> accepts(r.channels, r.freq)
    ensures r.Opened? ==> r.freq == wantedFreq || (r.freq in NEXT_SAMPLE_RATES && 0 < r.freq < wantedFreq)
  {
    if wantedFreq <= 0 || wantedCh <= 0 then Invalid
    else
      var idx := RateIndexFrom(|NEXT_SAMPLE_RATES| - 1, wantedFreq);
      LowerRates(idx, wantedFreq);
      OpenLoop(accepts, wantedCh, wantedFreq, idx, wantedCh)
  }

  /** The fallback rates from the first index down are the standard rates
      below the wanted one. */
  lemma LowerRates(idx: int, freq: int)
    requires idx == RateIndexFrom(|NEXT_SAMPLE_RATES| - 1, freq)
    ensures forall x | x in NEXT_SAMPLE_RATES[1..idx + 1] :: x in NEXT_SAMPLE_RATES && 0 < x < freq
  {
    var rates := NEXT_SAMPLE_RATES;
    if idx == 1 { assert rates[1..2] == [44100]; }
    else if idx == 2 { assert rates[1..3] == [44100, 48000]; }
    else if idx == 3 { assert rates[1..4] == [44100, 48000, 96000]; }
    else if idx == 4 { assert rates[1..5] == [44100, 48000, 96000, 192000]; }
  }

  /** A device that takes the wanted format gets it on the first try; a
      failure means the device refused the wanted channel count at the
      wanted rate and at every standard rate below it. */
  lemma AudioOpenFirstTryAndExhaustive(accepts: (int, int) -> bool, wantedCh: int, wantedFreq: int)
    requires wantedCh >= 1 && wantedFreq >= 1
    ensures accepts(wantedCh, wantedFreq) ==> AudioOpenFallback(accepts, wantedCh, wantedFreq) == Opened(wantedCh, wantedFreq)
    ensures AudioOpenFallback(accepts, wantedCh, wantedFreq).NoCombination? ==>
              && !accepts(wantedCh, wantedFreq)
              && forall j | 1 <= j < |NEXT_SAMPLE_RATES| && NEXT_SAMPLE_RATES[j] < wantedFreq ::
                   !accepts(wantedCh, NEXT_SAMPLE_RATES[j])
  {
    var idx := RateIndexFrom(|NEXT_SAMPLE_RATES| - 1, wantedFreq);
    var r := OpenLoop(accepts, wantedCh, wantedFreq, idx, wantedCh);
    assert AudioOpenFallback(accepts, wantedCh, wantedFreq) == r;
  }

  /** Worked example: a device that only plays stereo at 48 kHz, asked for
      5.1 at 96 kHz, is opened in stereo at 48 kHz after the chain
      6, 4, 2, 1 has been refused at 96 kHz and 6, 4 at 48 kHz. */
  lemma StereoOnlyDeviceFallsBack()
    ensures AudioOpenFallback((c, f) => c == 2 && f == 48000, 6, 96000) == Opened(2, 48000)
  {
    var acc := (c: int, f: int) => c == 2 && f == 48000;
    assert RateIndexFrom(4, 96000) == 2;
    assert OpenLoop(acc, 2, 48000, 1, 6) == Opened(2, 48000);
    assert OpenLoop(acc, 4, 48000, 1, 6) == Opened(2, 48000);
    assert OpenLoop(acc, 6, 48000, 1, 6) == Opened(2, 48000);
    assert OpenLoop(acc, 1, 96000, 2, 6) == Opened(2, 48000);
    assert OpenLoop(acc, 2, 96000, 2, 6) == Opened(2, 48000);
    assert OpenLoop(acc, 4, 96000, 2, 6) == Opened(2, 48000);
  }

  /** The fallback only ever goes down in rate: a device that only plays at
      48 kHz cannot be opened for a 44.1 kHz stream. */
  lemma HigherRatesAreNeverTried()
    ensures AudioOpenFallback((c, f) => f == 48000, 2, 44100) == NoCombination
  {
    var acc := (c: int, f: int) => f == 48000;
    assert RateIndexFrom(4, 44100) == 0;
    assert OpenLoop(acc, 1, 44100, 0, 2) == NoCombination;
  }

  // ------------------------------------------------- speed in the callback

  /** The playback-rate state and the callback's Sonic stream, if made. */
  datatype AudioSpeed = AudioSpeed(control: RateControl, sonic: Option<Stream>)

  /** What one refill of the callback's buffer gives: the buffer to play
      (None is silence after a decode error) and the new state, or the
      Sonic outcome that stops the program. */
  datatype Refill = Refill(buffer: Option<seq<Frame>>, speed: AudioSpeed) | Stopped(why: Outcome)

  /** The stream the callback builds for a rate: a fresh stream at the
      device format, the rate as its speed, pitch and rate 1. */
  function SpeedStream(freq: int, channels: int, rate: real): (r: Stream)
    requires freq >= SONIC_MAX_PITCH && channels >= 1
    ensures Valid(r) && r.speed == rate && r.pitch == 1.0 && r.rate == 1.0 && r.volume == 1.0
    ensures r.numChannels == channels && r.input == [] && r.output == [] && r.pitchBuffer == []
  {
    SetRate(SetPitch(SetSpeed(CreateStream(freq, channels), rate), 1.0), 1.0)
  }

  /** When the rate has changed, clear the flag and replace the stream. */
  function RebuildIfChanged(a: AudioSpeed, freq: int, channels: int): (r: AudioSpeed)
    requires freq >= SONIC_MAX_PITCH && channels >= 1
    ensures !r.control.changed && r.control.rate == a.control.rate
    ensures a.control.changed ==> r.sonic == Some(SpeedStream(freq, channels, a.control.rate))
    ensures !a.control.changed ==> r == a
  {
    if a.control.changed then
      AudioSpeed(a.control.(changed := false), Some(SpeedStream(freq, channels, a.control.rate)))
    else a
  }

  /** The conversion of one decoded buffer: at a normal rate, or after a
      decode error, the buffer plays as decoded; otherwise it is written to
      the stream and, when the write reports success, everything the stream
      has produced is read back and played instead. */
  function ConvertBuffer(a: AudioSpeed, decoded: Option<seq<Frame>>): (r: Refill)
    requires !IsNormalPlaybackRate(a.control.rate) && decoded.Some? ==>
               a.sonic.Some? && Usable(a.sonic.value) && FramesOk(decoded.value, a.sonic.value.numChannels)
    ensures IsNormalPlaybackRate(a.control.rate) || decoded.None? ==> r == Refill(decoded, a)
    ensures r.Refill? ==> r.speed.control == a.control
    ensures !IsNormalPlaybackRate(a.control.rate) && decoded.Some? ==>
              var w := WriteShortToStream(a.sonic.value, decoded.value);
              && (w.Written? && w.ok ==>
                    && r.Refill? && r.buffer == Some(w.stream.output)
                    && r.speed.sonic.Some? && r.speed.sonic.value == w.stream.(output := []))
              && (w.Written? && !w.ok ==> r == Refill(decoded, a.(sonic := Some(w.stream))))
              && (!w.Written? ==> r == Stopped(w))
  {
    if IsNormalPlaybackRate(a.control.rate) || decoded.None? then Refill(decoded, a)
    else
      var w := WriteShortToStream(a.sonic.value, decoded.value);
      if w.Written? then
        if w.ok then
          var rd := ReadShortFromStream(w.stream, |w.stream.output|);
          assert rd.samples == w.stream.output && rd.stream.output == [];
          Refill(Some(rd.samples), a.(sonic := Some(rd.stream)))
        else Refill(decoded, a.(sonic := Some(w.stream)))
      else Stopped(w)
  }

  /** One refill of the callback: rebuild the stream if the rate changed,
      then convert. The callback keeps its state ready, and with the
      player's rates the Sonic stream never stops the program and never
      refuses a buffer: at a rate that needs conversion a decoded buffer is
      replaced by all the audio the stream has produced, which leaves the
      stream's output empty. */
  function RefillBuffer(a: AudioSpeed, decoded: Option<seq<Frame>>, freq: int, channels: int): (r: Refill)
    requires freq >= SONIC_MAX_PITCH && channels >= 1
    requires Ready(a, channels) && (decoded.Some? ==> FramesOk(decoded.value, channels))
    ensures r.Refill? && Ready(r.speed, channels)
    ensures !r.speed.control.changed && r.speed.control.rate == a.control.rate
    ensures IsNormalPlaybackRate(a.control.rate) || decoded.None? ==> r.buffer == decoded
    ensures !IsNormalPlaybackRate(a.control.rate) && decoded.Some? ==>
              r.buffer.Some? && FramesOk(r.buffer.value, channels)
    ensures !IsNormalPlaybackRate(a.control.rate) && decoded.Some? ==>
              r.buffer == Some(WriteShortToStream(RebuildIfChanged(a, freq, channels).sonic.value,
                                                  decoded.value).stream.output)
  {
    var b := RebuildIfChanged(a, freq, channels);
    ReadyAfterRebuild(a, freq, channels);
    if !IsNormalPlaybackRate(a.control.rate) && decoded.Some? then
      var s := b.sonic.value;
      var t := AddShortSamples(s, decoded.value);
      PlayerSpeedSucceeds(t);
      var w := WriteShortToStream(s, decoded.value);
      assert w.Written? && w.ok;
      var rd := ReadShortFromStream(w.stream, |w.stream.output|);
      assert rd.samples == w.stream.output;
      assert rd.stream.output == [];
      ConvertBuffer(b, decoded)
    else ConvertBuffer(b, decoded)
  }

  /** The state the callback keeps between refills: the rate is on the
      ladder; a stream, if made, is usable at the device's channel count,
      converts with pitch and rate 1 at a speed between 0.5 and 2, and has
      handed out all its output; and unless a rebuild is pending, a rate
      that needs conversion is the stream's speed. */
  predicate Ready(a: AudioSpeed, channels: int)
  {
    && OnLadder(a.control.rate)
    && (a.sonic.Some? ==>
          var s := a.sonic.value;
          && Usable(s) && s.numChannels == channels && s.pitch == 1.0 && s.rate == 1.0
          && 0.5 <= s.speed <= 2.0 && s.output == [])
    && (!a.control.changed && !IsNormalPlaybackRate(a.control.rate) ==>
          a.sonic.Some? && a.sonic.value.speed == a.control.rate)
  }

  lemma ReadyAfterRebuild(a: AudioSpeed, freq: int, channels: int)
    requires freq >= SONIC_MAX_PITCH && channels >= 1 && Ready(a, channels)
    ensures Ready(RebuildIfChanged(a, freq, channels), channels)
  {
  }

  /** Pressing the speed button keeps the callback's state ready. */
  lemma OnSpeedKeepsReady(a: AudioSpeed, channels: int)
    requires Ready(a, channels)
    ensures Ready(a.(control := OnSpeed(a.control)), channels)
  {
  }
}
