/**
 * The user-facing state rules of the controller (src/videoctl.cpp): the
 * playback-rate ladder, the single pending seek, pause and resume across the
 * three clocks, the waveform ring buffer, the reader's back-pressure test and
 * the volume steps.
 */
module VideoControl {
  import opened Base
  import opened VideoClock
  import opened VideoState
  import Arith

  // ------------------------------------------------------- playback rate

  /** The playback-rate ladder the speed button steps through. */
  const PLAYBACK_RATE_MIN: real := 0.5
  const PLAYBACK_RATE_MAX: real := 2.0
  const PLAYBACK_RATE_SCALE: real := 0.5

  /** The controller's playback rate and the flag that tells the audio
      callback to rebuild its Sonic stream. */
  datatype RateControl = RateControl(rate: real, changed: bool)

  predicate OnLadder(rate: real)
  {
    PLAYBACK_RATE_MIN <= rate <= PLAYBACK_RATE_MAX
  }

  /** OnSpeed: one step up the ladder, back to the bottom past the top; the
      change is always flagged. */
  function OnSpeed(c: RateControl): (r: RateControl)
    ensures r.changed
    ensures OnLadder(c.rate) ==> OnLadder(r.rate)
    ensures r.rate == c.rate + PLAYBACK_RATE_SCALE || r.rate == PLAYBACK_RATE_MIN
    ensures r.rate == PLAYBACK_RATE_MIN && c.rate + PLAYBACK_RATE_SCALE != PLAYBACK_RATE_MIN ==>
              c.rate + PLAYBACK_RATE_SCALE > PLAYBACK_RATE_MAX
  {
    var rate := c.rate + PLAYBACK_RATE_SCALE;
    RateControl(if rate > PLAYBACK_RATE_MAX then PLAYBACK_RATE_MIN else rate, true)
  }

  /** ffp_set_playback_rate: any rate, flagged as changed. */
  function SetPlaybackRate(c: RateControl, rate: real): (r: RateControl)
    ensures r.rate == rate && r.changed
  {
    RateControl(rate, true)
  }

  /** is_normal_playback_rate: within 0.01 of 1, where no speed change is
      applied to the audio. */
  predicate IsNormalPlaybackRate(rate: real)
    ensures IsNormalPlaybackRate(rate) <==> RealAbs(rate - 1.0) < 0.01
    ensures IsNormalPlaybackRate(rate) ==> OnLadder(rate)
  {
    0.99 < rate < 1.01
  }

  function PressSpeed(c: RateControl, n: nat): RateControl
    decreases n
  {
    if n == 0 then c else PressSpeed(OnSpeed(c), n - 1)
  }

  /** From the bottom of the ladder the button visits 1, 1.5 and 2, and the
      fourth press returns to the bottom. */
  lemma SpeedLadderCycles(changed: bool)
    ensures var c := RateControl(PLAYBACK_RATE_MIN, changed);
            && PressSpeed(c, 1).rate == 1.0
            && PressSpeed(c, 2).rate == 1.5
            && PressSpeed(c, 3).rate == 2.0
            && PressSpeed(c, 4) == RateControl(PLAYBACK_RATE_MIN, true)
  {
    var c := RateControl(PLAYBACK_RATE_MIN, changed);
    assert PressSpeed(c, 4) == PressSpeed(OnSpeed(c), 3);
  }

  /** Of the four rates the button reaches, only 1 plays unconverted: the
      callback converts at 0.5, 1.5 and 2. */
  lemma OnlyUnitRateIsNormal(changed: bool)
    ensures var c := RateControl(PLAYBACK_RATE_MIN, changed);
            forall n | 0 <= n < 4 :: IsNormalPlaybackRate(PressSpeed(c, n).rate) <==> n == 1
  {
    SpeedLadderCycles(changed);
    var c := RateControl(PLAYBACK_RATE_MIN, changed);
    assert PressSpeed(c, 0).rate == PLAYBACK_RATE_MIN;
  }

  // ----------------------------------------------------------------- seek

  /** stream_seek: record the target and raise the request, with byte
      seeking cleared, only when no request is pending. */
  function StreamSeek(p: Player, pos: int, rel: int): (r: Player)
    ensures p.seekReq ==> r == p
    ensures !p.seekReq ==> r == p.(seekReq := true, seekPos := pos, seekRel := rel, seekFlags := r.seekFlags)
    ensures !p.seekReq ==> r.seekFlags & AVSEEK_FLAG_BYTE == 0
    ensures !p.seekReq ==> r.seekFlags | AVSEEK_FLAG_BYTE == p.seekFlags | AVSEEK_FLAG_BYTE
  {
    if !p.seekReq then
      p.(seekPos := pos, seekRel := rel, seekFlags := p.seekFlags & !AVSEEK_FLAG_BYTE, seekReq := true)
    else p
  }

  /** A pending seek is never overwritten: of two seeks before the reader
      takes the request, the first wins. */
  lemma FirstSeekWins(p: Player, pos1: int, rel1: int, pos2: int, rel2: int)
    ensures StreamSeek(StreamSeek(p, pos1, rel1), pos2, rel2) == StreamSeek(p, pos1, rel1)
    ensures !p.seekReq ==> StreamSeek(StreamSeek(p, pos1, rel1), pos2, rel2).seekPos == pos1
  {
  }

  // ---------------------------------------------------------------- pause

  /** stream_toggle_pause: on resume the frame timer moves on by the time
      since the video clock was last set, the video clock is unpaused (unless
      the demuxer cannot pause) and re-seated at its reading; the external
      clock is re-seated at its reading; then the player and all three
      clocks take the opposite of the old pause state. */
  function StreamTogglePause(p: Player, now: real): (r: Player)
    ensures r.paused == !p.paused
    ensures r.vidclk.paused == r.audclk.paused == r.extclk.paused == !p.paused
    ensures r.audclk == p.audclk.(paused := !p.paused)
    ensures ExternalTime(r, now) == ExternalTime(p, now)
    ensures !p.paused ==> r.vidclk == p.vidclk.(paused := true) && r.frameTimer == p.frameTimer
    ensures p.paused ==> r.frameTimer == p.frameTimer + (now - p.vidclk.lastUpdated)
  {
    var q :=
      if p.paused then
        var v := if !p.readPauseUnsupported then p.vidclk.(paused := false) else p.vidclk;
        p.(frameTimer := p.frameTimer + (now - p.vidclk.lastUpdated),
           vidclk := SetClock(v, GetClock(v, p.videoqSerial, now), v.serial, now))
      else p;
    var e := SetClock(q.extclk, GetClock(q.extclk, q.extclk.serial, now), q.extclk.serial, now);
    var flipped := !p.paused;
    ExternalReseat(q.extclk, now, flipped);
    q.(extclk := e.(paused := flipped), paused := flipped,
       audclk := q.audclk.(paused := flipped), vidclk := q.vidclk.(paused := flipped))
  }

  /** Re-seating a clock at its own reading and then pausing or unpausing it
      does not change its reading at that moment. */
  lemma ExternalReseat(c: Clock, now: real, paused: bool)
    ensures var v := GetClock(c, c.serial, now);
            GetClock(SetClock(c, v, c.serial, now).(paused := paused), c.serial, now) == v
  {
    var v := GetClock(c, c.serial, now);
    var e := SetClock(c, v, c.serial, now).(paused := paused);
    if !paused && v.Some? {
      assert e.lastUpdated == now && e.ptsDrift == Some(v.value - now);
      ReadAtUpdate(e, now);
    }
  }

  /** toggle_pause: toggle and leave frame-step mode. */
  function TogglePause(p: Player, now: real): (r: Player)
    ensures r == StreamTogglePause(p, now).(step := false)
    ensures r.paused == !p.paused && !r.step
    ensures ExternalTime(r, now) == ExternalTime(p, now)
  {
    StreamTogglePause(p, now).(step := false)
  }

  /** OnPause: toggle the open file, if any; the new pause state is what the
      controller reports. */
  function OnPause(p: Option<Player>, now: real): (r: Option<Player>)
    ensures r.Some? <==> p.Some?
    ensures p.Some? ==> r.value.paused == !p.value.paused && !r.value.step
  {
    match p
    case None => None
    case Some(q) => Some(TogglePause(q, now))
  }

  /** Two toggles restore the pause state of the player and of every clock. */
  lemma ToggleTwiceRestoresPause(p: Player, t1: real, t2: real)
    ensures var r := StreamTogglePause(StreamTogglePause(p, t1), t2);
            r.paused == p.paused && r.vidclk.paused == r.audclk.paused == r.extclk.paused == p.paused
  {
  }

  /** The external clock does not advance through a pause: read when play
      resumes it shows what it showed when play was paused. */
  lemma PauseFreezesExternalClock(p: Player, t1: real, t2: real)
    requires !p.paused
    ensures ExternalTime(StreamTogglePause(StreamTogglePause(p, t1), t2), t2) == ExternalTime(p, t1)
  {
    var q := StreamTogglePause(p, t1);
    assert q.extclk.paused;
    PausedClockStandsStill(q.extclk, q.extclk.serial, t1, t2);
  }

  /** The video clock, by contrast, is unpaused before it is read on resume,
      so it reads as if it had been running through the pause: the time
      paused counts, at the clock's speed, as time played. */
  lemma ResumeCountsPauseForVideo(p: Player, t1: real, t2: real, pts: real)
    requires !p.paused && !p.readPauseUnsupported && !p.vidclk.paused
    requires p.vidclk.serial == p.videoqSerial && p.vidclk.ptsDrift == Some(pts - p.vidclk.lastUpdated)
    ensures var r := StreamTogglePause(StreamTogglePause(p, t1), t2);
            VideoTime(p, t1).Some? && VideoTime(r, t2).Some? &&
            VideoTime(r, t2).value == VideoTime(p, t1).value + (t2 - t1) * p.vidclk.speed
  {
    var c := p.vidclk;
    var q := StreamTogglePause(p, t1);
    var r := StreamTogglePause(q, t2);
    var u := c.(paused := false);
    assert q.vidclk.(paused := false) == u;
    var v := GetClock(u, p.videoqSerial, t2);
    assert v.value == (pts - c.lastUpdated) + t2 - (t2 - c.lastUpdated) * (1.0 - c.speed);
    assert VideoTime(p, t1).value == (pts - c.lastUpdated) + t1 - (t1 - c.lastUpdated) * (1.0 - c.speed);
    SetThenGet(u, v, u.serial, t2);
    assert (t2 - c.lastUpdated) * (1.0 - c.speed) - (t1 - c.lastUpdated) * (1.0 - c.speed)
        == (t2 - t1) - (t2 - t1) * c.speed;
  }

  // ------------------------------------------------------ waveform buffer

  /** The number of samples the waveform ring holds. */
  const SAMPLE_ARRAY_SIZE: int := 8 * 65536

  /** The waveform ring and its write index. */
  datatype Ring = Ring(samples: seq<int>, index: int)

  predicate RingOk(ring: Ring)
  {
    0 <= ring.index < |ring.samples|
  }

  /** The slot just before the write index: where the newest sample is. */
  function Newest(ring: Ring): (j: int)
    requires RingOk(ring)
    ensures 0 <= j < |ring.samples|
    ensures (j + 1) % |ring.samples| == ring.index
  {
    if ring.index == 0 then |ring.samples| - 1 else ring.index - 1
  }

  /** The reference ring write: one sample at the index, which then moves on
      by one and wraps to 0 at the end. */
  function WriteSample(ring: Ring, x: int): (r: Ring)
    requires RingOk(ring)
    ensures RingOk(r) && |r.samples| == |ring.samples|
    ensures r.index == (ring.index + 1) % |ring.samples|
    ensures r.samples[Newest(r)] == x
    ensures forall j | 0 <= j < |ring.samples| && j != ring.index :: r.samples[j] == ring.samples[j]
  {
    var next := ring.index + 1;
    Ring(ring.samples[ring.index := x], if next == |ring.samples| then 0 else next)
  }

  /** The reference ring write of many samples, one after the other. */
  function WriteSamples(ring: Ring, xs: seq<int>): (r: Ring)
    requires RingOk(ring)
    ensures RingOk(r) && |r.samples| == |ring.samples|
    decreases |xs|
  {
    if |xs| == 0 then ring else WriteSamples(WriteSample(ring, xs[0]), xs[1..])
  }

  /** After a sample-by-sample write the index has moved on by the number of
      samples, modulo the ring size, and the newest sample sits just before it. */
  lemma {:induction false} WriteSamplesIndex(ring: Ring, xs: seq<int>)
    requires RingOk(ring)
    ensures var r := WriteSamples(ring, xs);
            && r.index == (ring.index + |xs|) % |ring.samples|
            && (|xs| > 0 ==> r.samples[Newest(r)] == xs[|xs| - 1])
    decreases |xs|
  {
    if |xs| == 0 {
      Arith.ModUnique(ring.index, 0, ring.index, |ring.samples|);
    } else {
      var w := WriteSample(ring, xs[0]);
      WriteSamplesIndex(w, xs[1..]);
      Arith.ModAddLeft(ring.index + 1, |xs| - 1, |ring.samples|);
      if |xs| == 1 {
        assert WriteSamples(w, xs[1..]) == w;
      }
    }
  }

  /** Writing a run that fits before the end of the ring, sample by sample,
      replaces that stretch of the ring. */
  lemma {:induction false} RunIsSampleBySample(ring: Ring, run: seq<int>)
    requires RingOk(ring) && ring.index + |run| <= |ring.samples|
    ensures var i := ring.index;
            && WriteSamples(ring, run).samples == ring.samples[..i] + run + ring.samples[i + |run|..]
            && WriteSamples(ring, run).index == if i + |run| == |ring.samples| then 0 else i + |run|
    decreases |run|
  {
    var i := ring.index;
    if |run| > 0 {
      var w := WriteSample(ring, run[0]);
      assert WriteSamples(ring, run) == WriteSamples(w, run[1..]);
      if |run| > 1 {
        assert w.index == i + 1 && w.samples == ring.samples[i := run[0]];
        RunIsSampleBySample(w, run[1..]);
        Splice(ring.samples, i, run);
      } else {
        assert WriteSamples(w, run[1..]) == w;
      }
    }
  }

  /** Overwriting slot i with the first value of a run and then the slots
      after it with the rest is overwriting the slots from i with the run. */
  lemma Splice(s: seq<int>, i: int, run: seq<int>)
    requires 0 <= i && |run| > 0 && i + |run| <= |s|
    ensures var t := s[i := run[0]];
            t[..i + 1] + run[1..] + t[i + |run|..] == s[..i] + run + s[i + |run|..]
  {
    var t := s[i := run[0]];
    assert t[..i + 1] == s[..i] + [run[0]];
    assert t[i + |run|..] == s[i + |run|..];
    assert [run[0]] + run[1..] == run;
  }

  /** Writing `a` then `b` is writing `a + b`. */
  lemma {:induction false} WriteSamplesAppend(ring: Ring, a: seq<int>, b: seq<int>)
    requires RingOk(ring)
    ensures WriteSamples(WriteSamples(ring, a), b) == WriteSamples(ring, a + b)
    decreases |a|
  {
    if |a| > 0 {
      var w := WriteSample(ring, a[0]);
      WriteSamplesAppend(w, a[1..], b);
      assert (a + b)[0] == a[0];
      assert (a + b)[1..] == a[1..] + b;
    } else {
      assert a + b == b;
    }
  }

  /** update_sample_display: copy the samples into the ring in runs that
      stop at its end, wrapping the index to 0 there. The result is the
      sample-by-sample write (so WriteSamplesIndex applies to it). */
  function UpdateSampleDisplay(ring: Ring, samples: seq<int>): (r: Ring)
    requires RingOk(ring)
    ensures r == WriteSamples(ring, samples)
    decreases |samples|
  {
    var n := |ring.samples|;
    if |samples| == 0 then ring
    else
      var len := Min(n - ring.index, |samples|);
      var written := ring.samples[..ring.index] + samples[..len] + ring.samples[ring.index + len..];
      var next := if ring.index + len >= n then 0 else ring.index + len;
      var first := Ring(written, next);
      RunIsSampleBySample(ring, samples[..len]);
      assert first == WriteSamples(ring, samples[..len]);
      WriteSamplesAppend(ring, samples[..len], samples[len..]);
      assert samples[..len] + samples[len..] == samples;
      UpdateSampleDisplay(first, samples[len..])
  }

  // -------------------------------------------------------- back-pressure

  /** Packets a queue needs before it counts as full enough. */
  const MIN_FRAMES: int := 25
  /** Bytes across all queues above which the reader waits regardless. */
  const MAX_QUEUE_SIZE: int := 15 * 1024 * 1024

  /** What stream_has_enough_packets looks at for one stream. */
  datatype QueueView = QueueView(streamId: int, abortRequest: bool, attachedPic: bool,
                                 nbPackets: int, duration: int, timeBase: real, size: int)

  /** stream_has_enough_packets: an absent or aborted stream or a cover
      picture needs nothing; otherwise more than MIN_FRAMES packets, and more
      than a second of them unless the queue's duration is unknown (0). */
  predicate HasEnoughPackets(q: QueueView)
    ensures q.streamId < 0 || q.abortRequest || q.attachedPic ==> HasEnoughPackets(q)
    ensures q.streamId >= 0 && !q.abortRequest && !q.attachedPic && q.nbPackets <= MIN_FRAMES ==>
              !HasEnoughPackets(q)
    ensures q.nbPackets > MIN_FRAMES && q.duration == 0 ==> HasEnoughPackets(q)
  {
    q.streamId < 0 || q.abortRequest || q.attachedPic ||
    (q.nbPackets > MIN_FRAMES && (q.duration == 0 || QueueSeconds(q) > 1.0))
  }

  /** The queue's duration in seconds. */
  function QueueSeconds(q: QueueView): real
  {
    (q.duration as real) * q.timeBase
  }

  /** The reader's wait condition: without an infinite buffer, wait when the
      queues hold more than MAX_QUEUE_SIZE bytes together or every stream
      has enough packets. */
  predicate ReaderWaits(infiniteBuffer: int, audio: QueueView, video: QueueView, subtitle: QueueView)
    ensures infiniteBuffer >= 1 ==> !ReaderWaits(infiniteBuffer, audio, video, subtitle)
    ensures infiniteBuffer < 1 && audio.size + video.size + subtitle.size > MAX_QUEUE_SIZE ==>
              ReaderWaits(infiniteBuffer, audio, video, subtitle)
    ensures audio.size + video.size + subtitle.size <= MAX_QUEUE_SIZE &&
            !(HasEnoughPackets(audio) && HasEnoughPackets(video) && HasEnoughPackets(subtitle)) ==>
              !ReaderWaits(infiniteBuffer, audio, video, subtitle)
  {
    infiniteBuffer < 1 &&
    (audio.size + video.size + subtitle.size > MAX_QUEUE_SIZE ||
     (HasEnoughPackets(audio) && HasEnoughPackets(video) && HasEnoughPackets(subtitle)))
  }

  /** More packets never turn an "enough" into "not enough", and neither does
      a longer known duration. */
  lemma EnoughPacketsMonotone(q: QueueView, morePackets: int, moreDuration: int)
    requires q.timeBase >= 0.0 && q.duration > 0 && morePackets >= q.nbPackets && moreDuration >= q.duration
    ensures HasEnoughPackets(q) ==> HasEnoughPackets(q.(nbPackets := morePackets, duration := moreDuration))
  {
    var m := q.(nbPackets := morePackets, duration := moreDuration);
    Arith.RealMulLe(q.duration as real, moreDuration as real, q.timeBase);
    assert QueueSeconds(m) >= QueueSeconds(q);
  }

  /** A reader never waits on a queue that is starving: if a present, live,
      non-picture stream has MIN_FRAMES packets or fewer and the queues are
      small, the reader keeps reading. */
  lemma StarvingQueueKeepsReader(infiniteBuffer: int, audio: QueueView, video: QueueView, subtitle: QueueView)
    requires audio.streamId >= 0 && !audio.abortRequest && !audio.attachedPic && audio.nbPackets <= MIN_FRAMES
    requires audio.size + video.size + subtitle.size <= MAX_QUEUE_SIZE
    ensures !ReaderWaits(infiniteBuffer, audio, video, subtitle)
  {
  }

  // --------------------------------------------------------------- volume

  /** SDL's full volume. */
  const SDL_MIX_MAXVOLUME: int := 128

  /** OnPlayVolume: the percent (0 to 1) scaled to SDL volume and truncated. */
  function PlayVolume(percent: real): (r: int)
    ensures 0.0 <= percent <= 1.0 ==> 0 <= r <= SDL_MIX_MAXVOLUME
  {
    Arith.FractionOf(percent, SDL_MIX_MAXVOLUME as real);
    Trunc(percent * SDL_MIX_MAXVOLUME as real)
  }

  /** The percent UpdateVolume reports for an SDL volume. */
  function VolumePercent(volume: int): (r: real)
    ensures 0 <= volume <= SDL_MIX_MAXVOLUME ==> 0.0 <= r <= 1.0
  {
    volume as real / SDL_MIX_MAXVOLUME as real
  }

  /** A reported percent fed back as the volume gives the same volume. */
  lemma VolumeRoundTrip(volume: int)
    requires 0 <= volume <= SDL_MIX_MAXVOLUME
    ensures PlayVolume(VolumePercent(volume)) == volume
  {
    assert VolumePercent(volume) * SDL_MIX_MAXVOLUME as real == volume as real;
  }

  /** The clamp of UpdateVolume: `computed` is the volume the decibel step
      gives; when it equals the current volume the volume moves by `sign`
      instead; the result is clamped into [0, SDL_MIX_MAXVOLUME]. */
  function UpdateVolume(volume: int, sign: int, computed: int): (r: int)
    ensures 0 <= r <= SDL_MIX_MAXVOLUME
  {
    Clip(if volume == computed then volume + sign else computed, 0, SDL_MIX_MAXVOLUME)
  }

  /** A volume step never gets stuck: when the decibel step rounds the
      other way or back to the same volume, the volume still moves one unit
      in the step's direction, up to the clamp. */
  lemma VolumeStepProgresses(volume: int, computed: int)
    requires 0 <= volume <= SDL_MIX_MAXVOLUME
    ensures volume < SDL_MIX_MAXVOLUME && computed >= volume ==> UpdateVolume(volume, 1, computed) > volume
    ensures volume > 0 && computed <= volume ==> UpdateVolume(volume, -1, computed) < volume
    ensures volume == SDL_MIX_MAXVOLUME ==> UpdateVolume(volume, 1, computed) <= volume
    ensures volume == 0 ==> UpdateVolume(volume, -1, computed) >= volume
  {
  }
}
