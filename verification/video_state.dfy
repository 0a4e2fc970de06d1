/**
 * The part of the controller's per-file state (`VideoState` in
 * src/videoctl.cpp) that its decision rules read and write. Streams and
 * packet queues appear only through what the rules look at: whether a
 * stream is open, its index, the queue's serial and packet count.
 */
module VideoState {
  import opened Base
  import opened VideoClock

  /** The three synchronisation types, in the order of their C constants. */
  const AV_SYNC_AUDIO_MASTER: int := 0
  const AV_SYNC_VIDEO_MASTER: int := 1
  const AV_SYNC_EXTERNAL_CLOCK: int := 2

  /** `AVSEEK_FLAG_BYTE`: seek by byte position instead of time. */
  const AVSEEK_FLAG_BYTE: bv32 := 2

  datatype Player = Player(
    vidclk: Clock, audclk: Clock, extclk: Clock,
    videoqSerial: int, audioqSerial: int,
    avSyncType: int,
    hasVideo: bool, hasAudio: bool,       // video_st / audio_st present
    videoStream: int, audioStream: int,   // stream indexes, negative when absent
    videoPackets: int, audioPackets: int,
    maxFrameDuration: real,
    paused: bool, step: bool, frameTimer: real,
    readPauseUnsupported: bool,           // av_read_pause answered ENOSYS
    seekReq: bool, seekPos: int, seekRel: int, seekFlags: bv32,
    audioDiffCum: real, audioDiffAvgCoef: real, audioDiffAvgCount: int,
    audioDiffThreshold: real, audioSrcFreq: int,
    sampleArray: seq<int>, sampleArrayIndex: int,
    audioVolume: int)

  /** The readings of the three clocks, each against its own queue's serial
      (the external clock has no queue and checks its own). */
  function VideoTime(p: Player, now: real): Option<real> { GetClock(p.vidclk, p.videoqSerial, now) }

  function AudioTime(p: Player, now: real): Option<real> { GetClock(p.audclk, p.audioqSerial, now) }

  function ExternalTime(p: Player, now: real): Option<real> { GetClock(p.extclk, p.extclk.serial, now) }
}
