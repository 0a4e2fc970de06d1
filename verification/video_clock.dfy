/**
 * The playback clocks of the controller (src/videoctl.cpp): a clock holds the
 * presentation time it was last set to, when that was, and how fast it runs;
 * it reads as NaN once its packet queue has moved to a newer serial, and a
 * paused clock stands still. "Now" is a parameter; a NaN double is `None`.
 */
module VideoClock {
  import opened Base

  /** Above this divergence (seconds) a clock is re-seated on another. */
  const AV_NOSYNC_THRESHOLD: real := 10.0

  datatype Clock = Clock(
    pts: Option<real>,        // the time the clock was last set to
    ptsDrift: Option<real>,   // pts minus the moment it was set
    lastUpdated: real,
    speed: real,
    serial: int,              // the queue serial the pts belongs to
    paused: bool)

  /** NaN-propagating difference of two doubles. */
  function Minus(a: Option<real>, b: Option<real>): (r: Option<real>)
    ensures r.Some? <==> a.Some? && b.Some?
    ensures r.Some? ==> r.value + b.value == a.value
  {
    if a.Some? && b.Some? then Some(a.value - b.value) else None
  }

  /** get_clock: NaN when the clock's serial is not that of its queue; the
      stored time while paused; otherwise the stored time advanced by the
      time elapsed since, at the clock's speed. */
  function GetClock(c: Clock, queueSerial: int, now: real): (r: Option<real>)
    ensures queueSerial != c.serial ==> r == None
    ensures queueSerial == c.serial && c.paused ==> r == c.pts
  {
    if queueSerial != c.serial then None
    else if c.paused then c.pts
    else match c.ptsDrift
      case None => None
      case Some(drift) => Some(drift + now - (now - c.lastUpdated) * (1.0 - c.speed))
  }

  /** set_clock_at: seat the clock at `pts` for `serial` at time `time`. */
  function SetClockAt(c: Clock, pts: Option<real>, serial: int, time: real): (r: Clock)
    ensures r.pts == pts && r.serial == serial && r.lastUpdated == time
    ensures r.ptsDrift == Minus(pts, Some(time))
    ensures r.speed == c.speed && r.paused == c.paused
  {
    c.(pts := pts, lastUpdated := time, ptsDrift := Minus(pts, Some(time)), serial := serial)
  }

  /** set_clock: set_clock_at with the current time, so that a reading
      taken at once, for the same serial, gives back `pts`. */
  function SetClock(c: Clock, pts: Option<real>, serial: int, now: real): (r: Clock)
    ensures r == SetClockAt(c, pts, serial, now)
    ensures GetClock(r, serial, now) == pts
    ensures r.serial == serial && r.speed == c.speed && r.paused == c.paused
  {
    SetThenGet(c, pts, serial, now);
    SetClockAt(c, pts, serial, now)
  }

  /** set_clock_speed: re-seat the clock at its current reading, then change
      its speed. */
  function SetClockSpeed(c: Clock, speed: real, queueSerial: int, now: real): (r: Clock)
    ensures r.speed == speed && r.serial == c.serial && r.paused == c.paused
  {
    SetClock(c, GetClock(c, queueSerial, now), c.serial, now).(speed := speed)
  }

  /** init_clock: speed 1, running, and NaN at serial -1. */
  function InitClock(now: real): (r: Clock)
    ensures r.speed == 1.0 && !r.paused && r.serial == -1 && r.pts == None
  {
    SetClock(Clock(None, None, 0.0, 1.0, 0, false), None, -1, now)
  }

  /** sync_clock_to_slave: when the other clock reads a number and this one
      reads NaN or differs from it by more than AV_NOSYNC_THRESHOLD, seat
      this clock at the other's reading and serial. */
  function SyncClockToSlave(c: Clock, queueSerial: int, slave: Clock, slaveQueueSerial: int, now: real): (r: Clock)
    ensures var clock := GetClock(c, queueSerial, now);
            var slaveClock := GetClock(slave, slaveQueueSerial, now);
            if slaveClock.Some? && (clock.None? || RealAbs(clock.value - slaveClock.value) > AV_NOSYNC_THRESHOLD)
            then r.serial == slave.serial && GetClock(r, slave.serial, now) == slaveClock
                 && r.speed == c.speed && r.paused == c.paused
            else r == c
  {
    var clock := GetClock(c, queueSerial, now);
    var slaveClock := GetClock(slave, slaveQueueSerial, now);
    if slaveClock.Some? && (clock.None? || RealAbs(clock.value - slaveClock.value) > AV_NOSYNC_THRESHOLD) then
      SetClock(c, slaveClock, slave.serial, now)
    else c
  }

  // ----------------------------------------------------------- clock laws

  /** Reading a clock right after setting it gives back the time it was set to. */
  lemma SetThenGet(c: Clock, pts: Option<real>, serial: int, time: real)
    ensures GetClock(SetClockAt(c, pts, serial, time), serial, time) == pts
  {
    var r := SetClockAt(c, pts, serial, time);
    if !c.paused && pts.Some? {
      assert GetClock(r, serial, time).value == r.ptsDrift.value + time - (time - r.lastUpdated) * (1.0 - r.speed);
      assert (time - r.lastUpdated) * (1.0 - r.speed) == 0.0;
      assert r.ptsDrift.value + time == pts.value;
    }
  }

  /** A running clock advances at its speed: `d` seconds after being set to
      `p` it reads p + d * speed. */
  lemma ClockRunsAtSpeed(c: Clock, p: real, serial: int, time: real, d: real)
    requires !c.paused
    ensures GetClock(SetClockAt(c, Some(p), serial, time), serial, time + d) == Some(p + d * c.speed)
  {
    var r := SetClockAt(c, Some(p), serial, time);
    assert r.ptsDrift.value == p - time;
    assert GetClock(r, serial, time + d).value == r.ptsDrift.value + (time + d) - ((time + d) - r.lastUpdated) * (1.0 - r.speed);
    assert ((time + d) - r.lastUpdated) * (1.0 - r.speed) == d - d * c.speed;
  }

  /** A running clock read at the moment it was last updated reads its
      drift plus that moment. */
  lemma ReadAtUpdate(c: Clock, now: real)
    requires !c.paused && c.lastUpdated == now && c.ptsDrift.Some?
    ensures GetClock(c, c.serial, now) == Some(c.ptsDrift.value + now)
  {
    var d := c.ptsDrift.value;
    assert GetClock(c, c.serial, now).Some?;
    assert GetClock(c, c.serial, now).value == d + now - (now - c.lastUpdated) * (1.0 - c.speed);
    var p := (now - c.lastUpdated) * (1.0 - c.speed);
    ZeroTimes(now - c.lastUpdated, 1.0 - c.speed);
    assert p == 0.0;
  }

  lemma ZeroTimes(z: real, x: real)
    requires z == 0.0
    ensures z * x == 0.0
  {
  }

  /** A paused clock reads the same at every moment. */
  lemma PausedClockStandsStill(c: Clock, queueSerial: int, t1: real, t2: real)
    requires c.paused
    ensures GetClock(c, queueSerial, t1) == GetClock(c, queueSerial, t2)
  {
  }

  /** Changing a clock's speed does not make it jump: read at the moment of
      the change, it shows what it showed just before. */
  lemma SpeedChangeIsContinuous(c: Clock, speed: real, queueSerial: int, now: real)
    ensures GetClock(SetClockSpeed(c, speed, queueSerial, now), queueSerial, now) == GetClock(c, queueSerial, now)
  {
    var v := GetClock(c, queueSerial, now);
    var seated := SetClockAt(c, v, c.serial, now);
    var r := SetClockSpeed(c, speed, queueSerial, now);
    assert r == seated.(speed := speed);
    assert r.pts == v && r.lastUpdated == now && r.ptsDrift == Minus(v, Some(now));
    if queueSerial == c.serial && !c.paused && v.Some? {
      var drift := r.ptsDrift.value;
      assert drift + now == v.value;
      assert now - r.lastUpdated == 0.0;
      ZeroTimes(now - r.lastUpdated, 1.0 - r.speed);
      assert r.serial == queueSerial && !r.paused;
      assert r.ptsDrift == Some(drift);
      assert GetClock(r, queueSerial, now).Some?;
      assert GetClock(r, queueSerial, now).value == drift + now - (now - r.lastUpdated) * (1.0 - r.speed);
      assert GetClock(r, queueSerial, now).value == v.value;
    }
  }

  /** After a sync, a clock on the same serial as its slave reads a number
      within AV_NOSYNC_THRESHOLD of the slave's reading whenever the slave
      reads a number; and it is either untouched or seated at that reading. */
  lemma SyncBoundsDivergence(c: Clock, queueSerial: int, slave: Clock, slaveQueueSerial: int, now: real)
    requires slave.serial == queueSerial
    ensures var r := SyncClockToSlave(c, queueSerial, slave, slaveQueueSerial, now);
            var s := GetClock(slave, slaveQueueSerial, now);
            && (r == c || (r.pts == s && r.serial == slave.serial))
            && (s.Some? ==>
                  var v := GetClock(r, queueSerial, now);
                  v.Some? && RealAbs(v.value - s.value) <= AV_NOSYNC_THRESHOLD)
  {
    var s := GetClock(slave, slaveQueueSerial, now);
    var r := SyncClockToSlave(c, queueSerial, slave, slaveQueueSerial, now);
    if s.Some? && r != c {
      SetThenGet(c, s, slave.serial, now);
    }
  }
}
