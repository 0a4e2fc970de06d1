/**
 * Audio/video synchronisation rules of the controller (src/videoctl.cpp):
 * which clock is the master, how long to show a video frame so that video
 * follows the master, how fast to run the external clock so that the packet
 * queues neither drain nor overflow, and how many audio samples to ask for so
 * that audio follows a master other than itself.
 */
module VideoSync {
  import opened Base
  import opened Arith
  import opened VideoClock
  import opened VideoState

  /** The synchronisation thresholds of the player, in seconds. */
  const AV_SYNC_THRESHOLD_MIN: real := 0.04
  const AV_SYNC_THRESHOLD_MAX: real := 0.1
  const AV_SYNC_FRAMEDUP_THRESHOLD: real := 0.1

  /** The external clock's speed controller: packet-count limits and the
      speed range and step. */
  const EXTERNAL_CLOCK_MIN_FRAMES: int := 2
  const EXTERNAL_CLOCK_MAX_FRAMES: int := 10
  const EXTERNAL_CLOCK_SPEED_MIN: real := 0.900
  const EXTERNAL_CLOCK_SPEED_MAX: real := 1.010
  const EXTERNAL_CLOCK_SPEED_STEP: real := 0.001

  /** At most this percentage of samples is added or removed per frame. */
  const SAMPLE_CORRECTION_PERCENT_MAX: int := 10
  /** Measurements before the audio drift average is trusted. */
  const AUDIO_DIFF_AVG_NB: int := 20

  datatype SyncType = AudioMaster | VideoMaster | ExternalClock

  // ------------------------------------------------------------- master

  /** get_master_sync_type: the requested master, except that video falls
      back to audio without a video stream, audio falls back to the external
      clock without an audio stream, and anything else is the external clock. */
  function MasterSyncType(p: Player): (r: SyncType)
    ensures r == VideoMaster ==> p.avSyncType == AV_SYNC_VIDEO_MASTER && p.hasVideo
    ensures r == AudioMaster ==> p.avSyncType == AV_SYNC_VIDEO_MASTER || p.hasAudio
    ensures p.avSyncType != AV_SYNC_VIDEO_MASTER && p.avSyncType != AV_SYNC_AUDIO_MASTER ==> r == ExternalClock
    ensures p.avSyncType == AV_SYNC_VIDEO_MASTER && !p.hasVideo ==> r == AudioMaster
    ensures p.avSyncType == AV_SYNC_AUDIO_MASTER ==> (r == AudioMaster <==> p.hasAudio)
  {
    if p.avSyncType == AV_SYNC_VIDEO_MASTER then
      if p.hasVideo then VideoMaster else AudioMaster
    else if p.avSyncType == AV_SYNC_AUDIO_MASTER then
      if p.hasAudio then AudioMaster else ExternalClock
    else ExternalClock
  }

  /** get_master_clock: the reading of the master's clock. */
  function MasterClock(p: Player, now: real): (r: Option<real>)
    ensures MasterSyncType(p) == VideoMaster ==> r == VideoTime(p, now)
    ensures MasterSyncType(p) == AudioMaster ==> r == AudioTime(p, now)
    ensures MasterSyncType(p) == ExternalClock ==> r == ExternalTime(p, now)
  {
    match MasterSyncType(p)
    case VideoMaster => VideoTime(p, now)
    case AudioMaster => AudioTime(p, now)
    case ExternalClock => ExternalTime(p, now)
  }

  // -------------------------------------------------------- frame timing

  /** The sync threshold for a frame of nominal `delay`: the delay clamped
      into [AV_SYNC_THRESHOLD_MIN, AV_SYNC_THRESHOLD_MAX]. */
  function SyncThreshold(delay: real): (r: real)
    ensures AV_SYNC_THRESHOLD_MIN <= r <= AV_SYNC_THRESHOLD_MAX
    ensures AV_SYNC_THRESHOLD_MIN <= delay <= AV_SYNC_THRESHOLD_MAX ==> r == delay
  {
    RealMax(AV_SYNC_THRESHOLD_MIN, RealMin(AV_SYNC_THRESHOLD_MAX, delay))
  }

  /** The correction of compute_target_delay for a video clock `diff`
      seconds ahead of the master: behind by the threshold or more, show the
      frame shorter (never negative); ahead, show it longer, by the whole
      lead when frames are long and by doubling otherwise. NaN, differences
      within the threshold and differences of max_frame_duration or more
      leave the delay alone. */
  function CorrectDelay(delay: real, diff: Option<real>, maxFrameDuration: real): (r: real)
    ensures delay >= 0.0 ==> r >= 0.0
    ensures diff.None? || RealAbs(diff.value) >= maxFrameDuration ==> r == delay
    ensures diff.Some? && RealAbs(diff.value) < SyncThreshold(delay) ==> r == delay
    ensures delay >= 0.0 && diff.Some? && diff.value <= 0.0 ==> delay + diff.value <= r <= delay
    ensures delay >= 0.0 && diff.Some? && diff.value >= 0.0 ==> delay <= r <= delay + RealMax(delay, diff.value)
    ensures diff.Some? && RealAbs(diff.value) < maxFrameDuration && diff.value <= -SyncThreshold(delay) ==>
              r == RealMax(0.0, delay + diff.value) && (delay > 0.0 ==> r < delay)
    ensures (diff.Some? && RealAbs(diff.value) < maxFrameDuration && diff.value >= SyncThreshold(delay) &&
             delay > AV_SYNC_FRAMEDUP_THRESHOLD) ==> r == delay + diff.value && r > delay
    ensures (diff.Some? && RealAbs(diff.value) < maxFrameDuration && diff.value >= SyncThreshold(delay) &&
             delay <= AV_SYNC_FRAMEDUP_THRESHOLD) ==> r == 2.0 * delay && (delay > 0.0 ==> r > delay)
  {
    var threshold := SyncThreshold(delay);
    if diff.Some? && RealAbs(diff.value) < maxFrameDuration then
      if diff.value <= -threshold then RealMax(0.0, delay + diff.value)
      else if diff.value >= threshold && delay > AV_SYNC_FRAMEDUP_THRESHOLD then delay + diff.value
      else if diff.value >= threshold then 2.0 * delay
      else delay
    else delay
  }

  /** compute_target_delay: the delay unchanged when video is the master,
      otherwise corrected by how far the video clock is from the master. */
  function ComputeTargetDelay(delay: real, p: Player, now: real): (r: real)
    ensures MasterSyncType(p) == VideoMaster ==> r == delay
    ensures MasterSyncType(p) != VideoMaster ==>
              r == CorrectDelay(delay, Minus(VideoTime(p, now), MasterClock(p, now)), p.maxFrameDuration)
    ensures delay >= 0.0 ==> r >= 0.0
  {
    if MasterSyncType(p) != VideoMaster then
      CorrectDelay(delay, Minus(VideoTime(p, now), MasterClock(p, now)), p.maxFrameDuration)
    else delay
  }

  /** vp_duration: how long a frame is shown, at playback rate `rate`. Zero
      across a serial change; otherwise the gap to the next frame's pts, or
      the frame's own duration when that gap is NaN, not positive or longer
      than max_frame_duration. */
  function FrameDuration(vpSerial: int, vpPts: Option<real>, vpDuration: real,
                         nextSerial: int, nextPts: Option<real>,
                         maxFrameDuration: real, rate: real): (r: real)
    requires rate > 0.0
    ensures vpSerial != nextSerial ==> r == 0.0
    ensures vpSerial == nextSerial ==>
              var gap := Minus(nextPts, vpPts);
              if gap.Some? && 0.0 < gap.value <= maxFrameDuration then r * rate == gap.value
              else r * rate == vpDuration
  {
    if vpSerial == nextSerial then
      var gap := Minus(nextPts, vpPts);
      if gap.None? || gap.value <= 0.0 || gap.value > maxFrameDuration then vpDuration / rate
      else gap.value / rate
    else 0.0
  }

  /** Whatever the timestamps, a frame is shown for a positive time no longer
      than the longer of max_frame_duration and its own duration, both
      scaled by the playback rate. */
  lemma FrameDurationBounded(vpSerial: int, vpPts: Option<real>, vpDuration: real,
                             nextPts: Option<real>, maxFrameDuration: real, rate: real)
    requires rate > 0.0 && vpDuration > 0.0
    ensures var r := FrameDuration(vpSerial, vpPts, vpDuration, vpSerial, nextPts, maxFrameDuration, rate);
            0.0 < r * rate <= RealMax(maxFrameDuration, vpDuration) && r > 0.0
  {
    var r := FrameDuration(vpSerial, vpPts, vpDuration, vpSerial, nextPts, maxFrameDuration, rate);
    if r <= 0.0 {
      RealMulLe(r, 0.0, rate);
    }
  }

  // ------------------------------------------------------ external clock

  /** A present stream's queue is nearly empty. */
  predicate Starving(p: Player)
  {
    (p.videoStream >= 0 && p.videoPackets <= EXTERNAL_CLOCK_MIN_FRAMES) ||
    (p.audioStream >= 0 && p.audioPackets <= EXTERNAL_CLOCK_MIN_FRAMES)
  }

  /** Every present stream's queue is full enough. */
  predicate Saturated(p: Player)
  {
    (p.videoStream < 0 || p.videoPackets > EXTERNAL_CLOCK_MAX_FRAMES) &&
    (p.audioStream < 0 || p.audioPackets > EXTERNAL_CLOCK_MAX_FRAMES)
  }

  /** The speed check_external_clock_speed sets, or None when it leaves the
      clock alone: slower by a step when a queue starves, faster by a step
      when all are full enough, and otherwise a step back toward 1. */
  function ExternalClockSpeed(p: Player): (r: Option<real>)
    ensures r.None? <==> !Starving(p) && !Saturated(p) && p.extclk.speed == 1.0
    ensures Starving(p) ==> r.Some? && EXTERNAL_CLOCK_SPEED_MIN <= r.value
    ensures !Starving(p) && Saturated(p) ==> r.Some? && r.value <= EXTERNAL_CLOCK_SPEED_MAX
  {
    var speed := p.extclk.speed;
    if Starving(p) then
      Some(RealMax(EXTERNAL_CLOCK_SPEED_MIN, speed - EXTERNAL_CLOCK_SPEED_STEP))
    else if Saturated(p) then
      Some(RealMin(EXTERNAL_CLOCK_SPEED_MAX, speed + EXTERNAL_CLOCK_SPEED_STEP))
    else if speed != 1.0 then
      Some(speed + EXTERNAL_CLOCK_SPEED_STEP * (1.0 - speed) / RealAbs(1.0 - speed))
    else None
  }

  /** The controller keeps the external clock's speed within
      [EXTERNAL_CLOCK_SPEED_MIN, EXTERNAL_CLOCK_SPEED_MAX] once it is there;
      it never speeds up while a queue starves nor slows down while all are
      full; in between it moves one step closer to 1, and leaves 1 alone. */
  lemma ExternalClockSpeedBounded(p: Player)
    requires EXTERNAL_CLOCK_SPEED_MIN <= p.extclk.speed <= EXTERNAL_CLOCK_SPEED_MAX
    ensures var r := ExternalClockSpeed(p);
            r.Some? ==> EXTERNAL_CLOCK_SPEED_MIN <= r.value <= EXTERNAL_CLOCK_SPEED_MAX
    ensures Starving(p) ==> ExternalClockSpeed(p).Some? && ExternalClockSpeed(p).value <= p.extclk.speed
    ensures !Starving(p) && Saturated(p) ==> ExternalClockSpeed(p).Some? && ExternalClockSpeed(p).value >= p.extclk.speed
    ensures !Starving(p) && !Saturated(p) ==>
              (ExternalClockSpeed(p).None? <==> p.extclk.speed == 1.0)
    ensures !Starving(p) && !Saturated(p) && RealAbs(p.extclk.speed - 1.0) >= EXTERNAL_CLOCK_SPEED_STEP ==>
              RealAbs(ExternalClockSpeed(p).value - 1.0) == RealAbs(p.extclk.speed - 1.0) - EXTERNAL_CLOCK_SPEED_STEP
  {
    var speed := p.extclk.speed;
    if speed != 1.0 {
      var a := RealAbs(1.0 - speed);
      if speed < 1.0 {
        ScaledUnit(EXTERNAL_CLOCK_SPEED_STEP, 1.0 - speed);
      } else {
        assert 1.0 - speed == -a;
        ScaledUnit(-EXTERNAL_CLOCK_SPEED_STEP, a);
      }
    }
  }

  lemma ScaledUnit(k: real, a: real)
    requires a > 0.0
    ensures k * a / a == k
  {
    var q := k * a / a;
    assert q * a == k * a;
    if q < k {
      RealMulLt(q, k, a);
    } else if q > k {
      RealMulLt(k, q, a);
    }
  }

  /** check_external_clock_speed: re-seat the external clock at its reading
      with the new speed, if there is one. */
  function CheckExternalClockSpeed(p: Player, now: real): (r: Player)
    ensures r == p.(extclk := r.extclk)
    ensures ExternalTime(r, now) == ExternalTime(p, now)
    ensures ExternalClockSpeed(p).Some? ==> r.extclk.speed == ExternalClockSpeed(p).value
  {
    match ExternalClockSpeed(p)
    case None => p
    case Some(speed) =>
      SpeedChangeIsContinuous(p.extclk, speed, p.extclk.serial, now);
      p.(extclk := SetClockSpeed(p.extclk, speed, p.extclk.serial, now))
  }

  // ----------------------------------------------------- audio correction

  /** `av_clip` as the C macro computes it, for any bounds. */
  function AvClip(a: int, amin: int, amax: int): int
  {
    if a < amin then amin else if a > amax then amax else a
  }

  /** The fewest and most samples a correction may ask for, in C integer
      arithmetic. */
  function MinSamples(nb: int): int { TruncDiv(nb * (100 - SAMPLE_CORRECTION_PERCENT_MAX), 100) }

  function MaxSamples(nb: int): int { TruncDiv(nb * (100 + SAMPLE_CORRECTION_PERCENT_MAX), 100) }

  datatype AudioSync = AudioSync(wanted: int, player: Player)

  /** synchronize_audio: with audio as the master the sample count is kept.
      Otherwise a finite audio-to-master difference under
      AV_NOSYNC_THRESHOLD feeds the running average; once AUDIO_DIFF_AVG_NB
      measurements are in and the average reaches the threshold, the count
      is corrected by the difference in samples, clamped to within
      SAMPLE_CORRECTION_PERCENT_MAX percent. Any other difference resets the
      average. */
  function SynchronizeAudio(p: Player, nbSamples: int, now: real): (r: AudioSync)
    ensures r.player == p.(audioDiffCum := r.player.audioDiffCum, audioDiffAvgCount := r.player.audioDiffAvgCount)
    ensures MasterSyncType(p) == AudioMaster ==> r == AudioSync(nbSamples, p)
    ensures nbSamples >= 0 ==> MinSamples(nbSamples) <= r.wanted <= MaxSamples(nbSamples)
    ensures p.audioDiffAvgCount <= AUDIO_DIFF_AVG_NB ==> r.player.audioDiffAvgCount <= AUDIO_DIFF_AVG_NB
    ensures MasterSyncType(p) != AudioMaster ==>
              var diff := Minus(AudioTime(p, now), MasterClock(p, now));
              (diff.None? || RealAbs(diff.value) >= AV_NOSYNC_THRESHOLD) ==>
                r == AudioSync(nbSamples, p.(audioDiffAvgCount := 0, audioDiffCum := 0.0))
    ensures r.wanted != nbSamples ==> r.player.audioDiffAvgCount >= AUDIO_DIFF_AVG_NB
  {
    SampleBounds(nbSamples);
    if MasterSyncType(p) != AudioMaster then
      var diff := Minus(AudioTime(p, now), MasterClock(p, now));
      if diff.Some? && RealAbs(diff.value) < AV_NOSYNC_THRESHOLD then
        var cum := diff.value + p.audioDiffAvgCoef * p.audioDiffCum;
        if p.audioDiffAvgCount < AUDIO_DIFF_AVG_NB then
          AudioSync(nbSamples, p.(audioDiffCum := cum, audioDiffAvgCount := p.audioDiffAvgCount + 1))
        else
          var avgDiff := cum * (1.0 - p.audioDiffAvgCoef);
          var q := p.(audioDiffCum := cum);
          if RealAbs(avgDiff) >= p.audioDiffThreshold then
            var wanted := nbSamples + Trunc(diff.value * p.audioSrcFreq as real);
            AudioSync(AvClip(wanted, MinSamples(nbSamples), MaxSamples(nbSamples)), q)
          else AudioSync(nbSamples, q)
      else AudioSync(nbSamples, p.(audioDiffAvgCount := 0, audioDiffCum := 0.0))
    else AudioSync(nbSamples, p)
  }

  /** For a non-negative count the correction window contains the count. */
  lemma SampleBounds(nb: int)
    ensures nb >= 0 ==> MinSamples(nb) <= nb <= MaxSamples(nb)
  {
    if nb >= 0 {
      var lo := nb * (100 - SAMPLE_CORRECTION_PERCENT_MAX);
      var hi := nb * (100 + SAMPLE_CORRECTION_PERCENT_MAX);
      TruncDivBounds(lo, 100, 0, nb);
      TruncDivBounds(hi, 100, nb, 2 * nb);
    }
  }
}
