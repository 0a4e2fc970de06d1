/**
 * The control bar (src/ctrlbar.cpp): the hours-minutes-seconds display of
 * a second count, the volume slider with its mute button, and the reset when
 * playback stops. Widgets are fields of a record; a signal the bar emits is
 * a returned value.
 */
module CtrlBar {
  import opened Base
  import Arith

  /** The sliders' maximum; the header that defines it is not part of this
      model, 65536 is assumed and only its positivity is used. */
  const MAX_SLIDER_VALUE: int := 65536

  /** A QTime's three fields. */
  datatype Hms = Hms(h: int, m: int, s: int)

  datatype Bar = Bar(
    volumeSlider: int,
    lastVolume: real,      // the last volume percent shown, restored on unmute
    mutedIcon: bool,       // the volume button shows the muted glyph
    playSlider: int,
    totalTime: Hms, playTime: Hms,
    playIcon: bool,        // the play/pause button shows the play glyph
    totalSeconds: int)

  /** The split of OnVideoTotalSeconds and OnVideoPlaySeconds, with C's
      truncating division and remainder: hours, minutes left over from the
      hours, seconds left over from the minutes. The parts add back up to
      the count; for a count that is not negative the minutes and seconds
      are clock digits, and a count below a day gives a time of day. */
  function SplitSeconds(n: int): (r: Hms)
    ensures r.h * 3600 + r.m * 60 + r.s == n
    ensures n >= 0 ==> r.h >= 0 && 0 <= r.m < 60 && 0 <= r.s < 60
    ensures n < 0 ==> r.h <= 0 && -60 < r.m <= 0 && -60 < r.s <= 0
    ensures 0 <= n < 24 * 3600 ==> r.h < 24
  {
    var rest := TruncRem(n, 3600);
    var m := TruncDiv(rest, 60);
    RemainderOfRemainder(n, rest, m);
    Hms(TruncDiv(n, 3600), m, TruncRem(n, 60))
  }

  /** The seconds left over after the minutes of what is left over after the
      hours are the seconds left over after the minutes of the whole count. */
  lemma RemainderOfRemainder(n: int, rest: int, m: int)
    requires rest == TruncRem(n, 3600) && m == TruncDiv(rest, 60)
    ensures m * 60 + TruncRem(n, 60) == rest
    ensures -60 < m < 60
  {
    var h := TruncDiv(n, 3600);
    var t := TruncRem(rest, 60);
    var q := TruncDiv(n, 60);
    var t2 := TruncRem(n, 60);
    assert rest == m * 60 + t;
    assert n == (h * 60 + m) * 60 + t;
    assert n == q * 60 + t2;
    assert (h * 60 + m - q) * 60 == t2 - t;
    Arith.MultipleBelow(h * 60 + m - q, 60);
    assert -3600 < rest < 3600;
    assert -60 < m < 60 by {
      if m >= 60 { Arith.MulLeMono(60, m, 60); }
      if m <= -60 { Arith.MulLeMono(m, -60, 60); }
    }
  }

  /** What a slider holds after setValue with a double: the value truncated
      to an int, then bounded to the slider's range. */
  function SliderValue(x: real): (r: int)
    ensures 0 <= r <= MAX_SLIDER_VALUE
    ensures 0.0 <= x < MAX_SLIDER_VALUE as real + 1.0 ==> r == Trunc(x)
  {
    Clip(Trunc(x), 0, MAX_SLIDER_VALUE)
  }

  /** QTime(h, m, s) is a valid time of day. */
  predicate ValidTime(t: Hms)
  {
    0 <= t.h < 24 && 0 <= t.m < 60 && 0 <= t.s < 60
  }

  /** The split of a count is a valid time exactly for a count of less than
      a day that is not negative. */
  lemma SplitValid(n: int)
    ensures ValidTime(SplitSeconds(n)) <==> 0 <= n < 24 * 3600
  {
    var t := SplitSeconds(n);
    if ValidTime(t) {
      assert t.h * 3600 <= 23 * 3600;
    }
  }

  /** QTimeEdit::setTime: an invalid time is ignored, so the edit keeps what
      it showed. */
  function SetTime(shown: Hms, t: Hms): (r: Hms)
    ensures ValidTime(t) ==> r == t
    ensures !ValidTime(t) ==> r == shown
  {
    if ValidTime(t) then t else shown
  }

  /** OnVideoTotalSeconds: remember the total and show it split; a total of
      a day or more, or a negative one, leaves the display as it was. */
  function OnVideoTotalSeconds(bar: Bar, n: int): (r: Bar)
    ensures r.totalSeconds == n
    ensures 0 <= n < 24 * 3600 ==>
              r.totalTime.h * 3600 + r.totalTime.m * 60 + r.totalTime.s == n && ValidTime(r.totalTime)
    ensures !(0 <= n < 24 * 3600) ==> r.totalTime == bar.totalTime
    ensures r == bar.(totalSeconds := n, totalTime := r.totalTime)
  {
    SplitValid(n);
    bar.(totalSeconds := n, totalTime := SetTime(bar.totalTime, SplitSeconds(n)))
  }

  /** OnVideoPlaySeconds: show the position split, and put the progress
      slider at the position's share of the total. A position of a day or
      more leaves the time display as it was; with no total known the slider
      is left where it is. */
  function OnVideoPlaySeconds(bar: Bar, n: int): (r: Bar)
    ensures 0 <= n < 24 * 3600 ==>
              r.playTime.h * 3600 + r.playTime.m * 60 + r.playTime.s == n && ValidTime(r.playTime)
    ensures !(0 <= n < 24 * 3600) ==> r.playTime == bar.playTime
    ensures r == bar.(playTime := r.playTime, playSlider := r.playSlider)
    ensures 0 <= r.playSlider <= MAX_SLIDER_VALUE || r.playSlider == bar.playSlider
    ensures 0 <= n <= bar.totalSeconds && bar.totalSeconds != 0 ==>
              r.playSlider == Trunc(n as real / bar.totalSeconds as real * MAX_SLIDER_VALUE as real)
  {
    SplitValid(n);
    var shown := SetTime(bar.playTime, SplitSeconds(n));
    if bar.totalSeconds == 0 then bar.(playTime := shown)
    else
      var share := n as real / bar.totalSeconds as real;
      ShareOfTotal(n, bar.totalSeconds);
      Arith.FractionOf(share, MAX_SLIDER_VALUE as real);
      bar.(playTime := shown, playSlider := SliderValue(share * MAX_SLIDER_VALUE as real))
  }

  /** A position within the total is a share between 0 and 1. */
  lemma ShareOfTotal(n: int, total: int)
    requires total != 0
    ensures 0 <= n <= total ==> 0.0 <= n as real / total as real <= 1.0
  {
  }

  /** At the end of the film the progress slider is full and, for a film
      shorter than a day, the play time reads as the total time. */
  lemma EndShowsTotal(bar: Bar, n: int)
    requires n > 0
    ensures var r := OnVideoPlaySeconds(OnVideoTotalSeconds(bar, n), n);
            r.playSlider == MAX_SLIDER_VALUE && (n < 24 * 3600 ==> r.playTime == r.totalTime)
  {
    var t := OnVideoTotalSeconds(bar, n);
    var share := n as real / t.totalSeconds as real;
    assert t.totalSeconds == n;
    DivSelf(n as real);
    var x := share * MAX_SLIDER_VALUE as real;
    assert x == 65536.0;
    assert Trunc(x) == MAX_SLIDER_VALUE;
    assert SliderValue(x) == MAX_SLIDER_VALUE;
  }

  lemma DivSelf(a: real)
    requires a != 0.0
    ensures a / a == 1.0
  {
  }

  /** OnVideopVolume: put the slider at the percent, remember the percent,
      and show the muted glyph exactly when the percent is 0. */
  function OnVideopVolume(bar: Bar, percent: real): (r: Bar)
    ensures r.lastVolume == percent
    ensures r.mutedIcon <==> percent == 0.0
    ensures 0.0 <= percent <= 1.0 ==> r.volumeSlider == Trunc(percent * MAX_SLIDER_VALUE as real)
    ensures r == bar.(volumeSlider := r.volumeSlider, lastVolume := percent, mutedIcon := r.mutedIcon)
  {
    Arith.FractionOf(percent, MAX_SLIDER_VALUE as real);
    bar.(volumeSlider := SliderValue(percent * MAX_SLIDER_VALUE as real), lastVolume := percent,
         mutedIcon := percent == 0.0)
  }

  /** The result of a bar event that may emit a volume percent. */
  datatype Emitted = Emitted(bar: Bar, volume: real)

  /** OnVolumeSliderValueChanged: emit the slider's position as a percent and
      show that percent. */
  function OnVolumeSliderValueChanged(bar: Bar): (r: Emitted)
    requires 0 <= bar.volumeSlider <= MAX_SLIDER_VALUE
    ensures r.volume == bar.volumeSlider as real / MAX_SLIDER_VALUE as real
    ensures 0.0 <= r.volume <= 1.0
    ensures r.bar.volumeSlider == bar.volumeSlider
    ensures r.bar.mutedIcon <==> bar.volumeSlider == 0
    ensures r.bar == OnVideopVolume(bar, r.volume)
  {
    var percent := bar.volumeSlider as real / MAX_SLIDER_VALUE as real;
    assert percent * MAX_SLIDER_VALUE as real == bar.volumeSlider as real;
    Emitted(OnVideopVolume(bar, percent), percent)
  }

  /** on_VolumeBtn_clicked: with the volume glyph shown, switch to the muted
      glyph, put the slider at 0 and emit 0; otherwise switch back, put the
      slider at the remembered percent and emit that percent. The remembered
      percent is never touched. */
  function OnVolumeButtonClicked(bar: Bar): (r: Emitted)
    ensures r.bar.lastVolume == bar.lastVolume
    ensures r.bar.mutedIcon == !bar.mutedIcon
    ensures !bar.mutedIcon ==> r.volume == 0.0 && r.bar.volumeSlider == 0
    ensures bar.mutedIcon ==> r.volume == bar.lastVolume
    ensures bar.mutedIcon ==> r.bar.volumeSlider == SliderValue(bar.lastVolume * MAX_SLIDER_VALUE as real)
    ensures r.bar == bar.(mutedIcon := r.bar.mutedIcon, volumeSlider := r.bar.volumeSlider)
  {
    if !bar.mutedIcon then
      Emitted(bar.(mutedIcon := true, volumeSlider := 0), 0.0)
    else
      Emitted(bar.(mutedIcon := false, volumeSlider := SliderValue(bar.lastVolume * MAX_SLIDER_VALUE as real)),
              bar.lastVolume)
  }

  /** A bar as OnVideopVolume leaves it for a non-zero percent. */
  predicate ShowsVolume(bar: Bar)
  {
    !bar.mutedIcon && bar.volumeSlider == SliderValue(bar.lastVolume * MAX_SLIDER_VALUE as real)
  }

  /** Mute then unmute gives the bar back as it was and emits 0 then the
      remembered percent. */
  lemma MuteUnmuteRoundTrip(bar: Bar)
    requires ShowsVolume(bar)
    ensures var muted := OnVolumeButtonClicked(bar);
            var back := OnVolumeButtonClicked(muted.bar);
            muted.volume == 0.0 && back.volume == bar.lastVolume && back.bar == bar
  {
  }

  /** Every non-zero percent shown leaves the bar ready for that round trip. */
  lemma VolumeShownCanBeMuted(bar: Bar, percent: real)
    requires percent != 0.0
    ensures ShowsVolume(OnVideopVolume(bar, percent))
  {
  }

  /** Moving the volume slider settles at once: a second slider event at the
      same position changes nothing and emits the same percent. */
  lemma SliderEventSettles(bar: Bar)
    requires 0 <= bar.volumeSlider <= MAX_SLIDER_VALUE
    ensures var e := OnVolumeSliderValueChanged(bar);
            OnVolumeSliderValueChanged(e.bar) == e
  {
  }

  /** OnPauseStat: the play glyph while paused, the pause glyph while playing. */
  function OnPauseStat(bar: Bar, paused: bool): (r: Bar)
    ensures r.playIcon == paused
    ensures r.(playIcon := bar.playIcon) == bar
  {
    bar.(playIcon := paused)
  }

  /** The pause state is the only thing OnPauseStat shows: the last report
      wins, and reporting the state the glyph already shows changes nothing. */
  lemma PauseStatLastWins(bar: Bar, first: bool, second: bool)
    ensures OnPauseStat(OnPauseStat(bar, first), second) == OnPauseStat(bar, second)
    ensures OnPauseStat(bar, bar.playIcon) == bar
  {
  }

  /** OnStopFinished: the progress slider at 0, both times at 00:00:00, and
      the play glyph; the volume side is untouched. */
  function OnStopFinished(bar: Bar): (r: Bar)
    ensures r.playSlider == 0 && r.playIcon && r.totalTime == r.playTime
    ensures r.volumeSlider == bar.volumeSlider && r.lastVolume == bar.lastVolume && r.mutedIcon == bar.mutedIcon
    ensures r.totalSeconds == bar.totalSeconds
  {
    bar.(playSlider := 0, totalTime := Hms(0, 0, 0), playTime := Hms(0, 0, 0), playIcon := true)
  }

  /** After a stop both times read as a count of zero seconds. */
  lemma StopShowsZero(bar: Bar)
    ensures OnStopFinished(bar).totalTime == SplitSeconds(0)
  {
    ZeroSplit();
  }

  /** No seconds show as 00:00:00. */
  lemma ZeroSplit()
    ensures SplitSeconds(0) == Hms(0, 0, 0)
  {
    var z := SplitSeconds(0);
    assert z.h * 3600 + z.m * 60 + z.s == 0 && z.h >= 0 && 0 <= z.m && 0 <= z.s;
  }
}
