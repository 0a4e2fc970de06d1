/**
 * Rate change of the Sonic engine (src/sonic.cpp): resampling of the pitch
 * buffer with a 12-point windowed-sinc filter read from a fixed table, and the
 * phase counters that decide how many output frames each input frame yields.
 */
module SonicRate {
  import opened Base
  import opened Arith
  import opened SonicKernels
  import opened SonicStream

  const SINC_FILTER_POINTS: int := 12
  /** Where the table is read for filter point i: the entry to the left of the
      exact position, `(SINC_TABLE_SIZE - 1) / SINC_FILTER_POINTS` = 50 entries
      per point. */
  function SincLeft(i: int, ratio: int, width: int): int
    requires width > 0
  {
    i * 50 + (ratio * 50) / width
  }

  /** The coefficient computed from any table of the right shape; the weight
      lies between twice the two entries it interpolates. */
  function SincCoefficientIn(table: seq<int>, i: int, ratio: int, width: int): (r: int)
    requires TableOk(table)
    requires 0 <= i < SINC_FILTER_POINTS && 0 <= ratio < width
    ensures var left := SincLeft(i, ratio, width);
            0 <= left < SINC_TABLE_SIZE - 1 &&
            2 * Min(table[left], table[left + 1]) <= r <= 2 * Max(table[left], table[left + 1])
    ensures -12350 <= r <= 65534
  {
    var lobePoints := (SINC_TABLE_SIZE - 1) / SINC_FILTER_POINTS;
    SincIndex(i, ratio, width);
    var left := i * lobePoints + (ratio * lobePoints) / width;
    var right := left + 1;
    var position := i * lobePoints * width + ratio * lobePoints - left * width;
    SincPosition(i, ratio, width);
    SincWeightBounds(table[left], table[right], width, position);
    SincInterp(table[left], table[right], width, position)
  }

  /** Linear interpolation between two table entries, doubled, truncated. */
  function SincInterp(leftVal: int, rightVal: int, width: int, position: int): int
    requires width > 0
  {
    TruncDiv((leftVal * (width - position) + rightVal * position) * 2, width)
  }

  /** The fractional position inside the lobe is the remainder of ratio * 50. */
  lemma SincPosition(i: int, ratio: int, width: int)
    requires 0 <= i < SINC_FILTER_POINTS && 0 <= ratio < width
    ensures var q := (ratio * 50) / width;
            i * 50 * width + ratio * 50 - (i * 50 + q) * width == ratio * 50 - q * width
  {
    var q := (ratio * 50) / width;
    MulAddRight(i * 50, q, width);
  }

  lemma MulAddRight(a: int, b: int, c: int)
    ensures (a + b) * c == a * c + b * c
  {
  }

  lemma SincWeightBounds(leftVal: int, rightVal: int, width: int, position: int)
    requires 0 <= position < width
    ensures 2 * Min(leftVal, rightVal) <= SincInterp(leftVal, rightVal, width, position) <= 2 * Max(leftVal, rightVal)
  {
    var lo := Min(leftVal, rightVal);
    var hi := Max(leftVal, rightVal);
    var sum := leftVal * (width - position) + rightVal * position;
    MixSumBounds(leftVal, rightVal, width - position, position, width, lo, hi);
    assert (2 * lo) * width <= sum * 2 <= (2 * hi) * width;
    TruncDivBounds(sum * 2, width, 2 * lo, 2 * hi);
  }

  lemma SincIndex(i: int, ratio: int, width: int)
    requires 0 <= i < SINC_FILTER_POINTS && 0 <= ratio < width
    ensures 0 <= (ratio * 50) / width < 50
    ensures 0 <= ratio * 50 - ((ratio * 50) / width) * width < width
  {
    MulLeMono(ratio, width, 50);
    assert ratio * 50 < width * 50 by { MulLeMono(ratio + 1, width, 50); }
    DivUpper(ratio * 50, width, 50);
    DivMulBounds(ratio * 50, width);
  }

  /** At the start of a lobe the weight is exactly twice the table entry. */
  lemma SincAtTablePoint(table: seq<int>, i: int, width: int)
    requires TableOk(table) && 0 <= i < SINC_FILTER_POINTS && width > 0
    ensures SincCoefficientIn(table, i, 0, width) == 2 * table[50 * i]
  {
    assert (0 * 50) / width == 0;
    TruncDivExact(2 * table[50 * i], width);
    assert (table[50 * i] * (width - 0) + table[50 * i + 1] * 0) * 2 == 2 * table[50 * i] * width;
  }

  function GetSign(value: int): (r: int)
    ensures r == 1 <==> value >= 0
    ensures r == -1 <==> value < 0
  {
    if value >= 0 then 1 else -1
  }

  /** The accumulator of the filter: a 32-bit total and a count of the
      overflows detected by a change of sign. */
  datatype Accumulator = Accumulator(total: int, overflowCount: int)

  /** The samples of one channel the filter reads: 12 consecutive frames. */
  function Window(pitchBuffer: seq<Frame>, channels: int, position: int, c: int): (r: seq<int>)
    requires 0 <= position && position + SINC_FILTER_POINTS <= |pitchBuffer|
    requires FramesOk(pitchBuffer, channels) && 0 <= c < channels
    ensures |r| == SINC_FILTER_POINTS && Int16s(r)
    ensures forall k | 0 <= k < |r| :: r[k] == pitchBuffer[position + k][c]
  {
    seq(SINC_FILTER_POINTS, k requires 0 <= k < SINC_FILTER_POINTS => pitchBuffer[position + k][c])
  }

  predicate Int16s(xs: seq<int>)
  {
    forall k | 0 <= k < |xs| :: IsInt16(xs[k])
  }

  /** A 16-bit sample times a filter weight fits in 32 bits. */
  lemma WeightedSampleFits(x: int, w: int)
    requires IsInt16(x) && -12350 <= w <= 65534
    ensures IsInt32(x * w)
  {
    if x >= 0 {
      MulLeMono(x, 32767, w + 12350);
      assert x * w <= 32767 * 65534 by {
        if w >= 0 { MulLeMono(x, 32767, w); MulLeMono(w, 65534, 32767); }
      }
      assert x * w >= -32767 * 12350 by {
        if w < 0 { MulLeMono(x, 32767, -w); MulLeMono(-w, 12350, 32767); }
      }
    } else {
      assert x * w >= -32768 * 65534 by {
        if w >= 0 { MulLeMono(-x, 32768, w); MulLeMono(w, 65534, 32768); }
      }
      assert x * w <= 32768 * 12350 by {
        if w < 0 { MulLeMono(-x, 32768, -w); MulLeMono(-w, 12350, 32768); }
      }
    }
  }

  /** The 12 filter weights for a phase of `ratio` out of `width`. */
  function Weights(table: seq<int>, ratio: int, width: int): (ws: seq<int>)
    requires TableOk(table) && 0 <= ratio < width
    ensures |ws| == SINC_FILTER_POINTS && WeightsOk(ws)
    ensures forall k | 0 <= k < SINC_FILTER_POINTS :: ws[k] == SincCoefficientIn(table, k, ratio, width)
  {
    seq(SINC_FILTER_POINTS, k requires 0 <= k < SINC_FILTER_POINTS => SincCoefficientIn(table, k, ratio, width))
  }

  predicate WeightsOk(ws: seq<int>)
  {
    forall k | 0 <= k < |ws| :: -12350 <= ws[k] <= 65534
  }

  /** The contribution of filter point k: sample times weight, which always
      fits in 32 bits. */
  function Term(xs: seq<int>, ws: seq<int>, k: int): (v: int)
    requires |xs| == |ws| == SINC_FILTER_POINTS && Int16s(xs) && WeightsOk(ws) && 0 <= k < SINC_FILTER_POINTS
    ensures IsInt32(v)
  {
    WeightedSampleFits(xs[k], ws[k]);
    xs[k] * ws[k]
  }

  /** One step of the accumulation: the 32-bit wrapped sum, and a change of
      sign caused by a term of the old sign counted as an overflow in that
      direction. */
  function AddTerm(acc: Accumulator, value: int): Accumulator
  {
    var oldSign := GetSign(acc.total);
    var total := Wrap32(acc.total + value);
    var count := if oldSign != GetSign(total) && GetSign(value) == oldSign
                 then acc.overflowCount + oldSign else acc.overflowCount;
    Accumulator(total, count)
  }

  /** Filter points 0 .. k-1 accumulated in order from an empty accumulator. */
  function AccumulateTo(xs: seq<int>, ws: seq<int>, k: int): (acc: Accumulator)
    requires |xs| == |ws| == SINC_FILTER_POINTS && Int16s(xs) && WeightsOk(ws) && 0 <= k <= SINC_FILTER_POINTS
    ensures IsInt32(acc.total)
    ensures -k <= acc.overflowCount <= k
  {
    if k == 0 then Accumulator(0, 0)
    else AddTerm(AccumulateTo(xs, ws, k - 1), Term(xs, ws, k - 1))
  }

  /** The sample the filter yields for given weights. */
  function InterpolateWith(xs: seq<int>, ws: seq<int>): (r: int)
    requires |xs| == |ws| == SINC_FILTER_POINTS && Int16s(xs) && WeightsOk(ws)
    ensures IsInt16(r)
  {
    var acc := AccumulateTo(xs, ws, SINC_FILTER_POINTS);
    if acc.overflowCount > 0 then INT16_MAX
    else if acc.overflowCount < 0 then INT16_MIN
    else HighHalf(acc.total)
  }

  /** The top 16 bits of a 32-bit value, `>> 16`. */
  function HighHalf(total: int): (r: int)
    requires IsInt32(total)
    ensures IsInt16(r)
    ensures r == total / 65536
  {
    Pow2Sixteen();
    DivMulBounds(total, 65536);
    ShiftRight(total, 16)
  }

  lemma Pow2Sixteen()
    ensures Pow2(16) == 65536
  {
    assert Pow2(4) == 16;
    assert Pow2(8) == 256;
    assert Pow2(12) == 4096;
  }

  /** Adding a term that keeps the exact sum in range wraps nothing and
      counts no overflow. */
  lemma AddTermExact(acc: Accumulator, value: int)
    requires acc.overflowCount == 0 && IsInt32(acc.total) && IsInt32(acc.total + value)
    ensures AddTerm(acc, value) == Accumulator(acc.total + value, 0)
  {
  }

  /** One output sample of the resampler: the filtered value scaled down by
      2^16, or the extreme short value in the direction of a detected
      overflow. */
  function Interpolate(table: seq<int>, xs: seq<int>, ratio: int, width: int): (r: int)
    requires TableOk(table) && |xs| == SINC_FILTER_POINTS && Int16s(xs) && 0 <= ratio < width
    ensures IsInt16(r)
  {
    InterpolateWith(xs, Weights(table, ratio, width))
  }

  /** The exact filter sum over the first k points. */
  function ExactSum(xs: seq<int>, ws: seq<int>, k: int): int
    requires |xs| == |ws| == SINC_FILTER_POINTS && Int16s(xs) && WeightsOk(ws) && 0 <= k <= SINC_FILTER_POINTS
  {
    if k == 0 then 0 else ExactSum(xs, ws, k - 1) + Term(xs, ws, k - 1)
  }

  /** No partial sum of the filter leaves the 32-bit range. */
  predicate NoOverflow(xs: seq<int>, ws: seq<int>)
    requires |xs| == |ws| == SINC_FILTER_POINTS && Int16s(xs) && WeightsOk(ws)
  {
    forall k | 0 <= k <= SINC_FILTER_POINTS :: IsInt32(ExactSum(xs, ws, k))
  }

  /** Without a partial-sum overflow the accumulator holds the exact sum and
      no overflow is counted. */
  lemma {:induction false} AccumulateExact(xs: seq<int>, ws: seq<int>, k: int)
    requires |xs| == |ws| == SINC_FILTER_POINTS && Int16s(xs) && WeightsOk(ws) && 0 <= k <= SINC_FILTER_POINTS
    requires NoOverflow(xs, ws)
    ensures AccumulateTo(xs, ws, k) == Accumulator(ExactSum(xs, ws, k), 0)
  {
    if k > 0 {
      AccumulateExact(xs, ws, k - 1);
      assert IsInt32(ExactSum(xs, ws, k));
      AddTermExact(AccumulateTo(xs, ws, k - 1), Term(xs, ws, k - 1));
    }
  }

  /** When no partial sum overflows, the output sample is exactly the filter
      sum divided by 2^16 and rounded down: the overflow logic never fires. */
  lemma InterpolateExact(xs: seq<int>, ws: seq<int>)
    requires |xs| == |ws| == SINC_FILTER_POINTS && Int16s(xs) && WeightsOk(ws)
    requires NoOverflow(xs, ws)
    ensures InterpolateWith(xs, ws) == ExactSum(xs, ws, SINC_FILTER_POINTS) / 65536
  {
    AccumulateExact(xs, ws, SINC_FILTER_POINTS);
  }

  /** Silence in gives silence out, whatever the weights. */
  lemma InterpolateSilence(xs: seq<int>, ws: seq<int>)
    requires |xs| == |ws| == SINC_FILTER_POINTS && Int16s(xs) && WeightsOk(ws)
    requires forall k | 0 <= k < |xs| :: xs[k] == 0
    ensures InterpolateWith(xs, ws) == 0
  {
    forall k | 0 <= k <= SINC_FILTER_POINTS
      ensures ExactSum(xs, ws, k) == 0
    {
      ExactSumSilent(xs, ws, k);
    }
    InterpolateExact(xs, ws);
  }

  lemma {:induction false} ExactSumSilent(xs: seq<int>, ws: seq<int>, k: int)
    requires |xs| == |ws| == SINC_FILTER_POINTS && Int16s(xs) && WeightsOk(ws) && 0 <= k <= SINC_FILTER_POINTS
    requires forall j | 0 <= j < |xs| :: xs[j] == 0
    ensures ExactSum(xs, ws, k) == 0
  {
    if k > 0 {
      ExactSumSilent(xs, ws, k - 1);
    }
  }

  // ------------------------------------------------------------ rate loop

  /** The largest rate the phase arithmetic works with, 2^14. */
  const RATE_LIMIT: int := 16384

  /** The two rates after the shared halving, and how many halvings it took. */
  datatype Rates = Rates(newRate: int, oldRate: int, shifts: nat)

  /** Both rates are halved together until neither exceeds 2^14; no halving
      happens when both are within that limit already. */
  function HalveRates(n: int, o: int): (r: Rates)
    requires n >= 0 && o >= 0
    ensures 0 <= r.newRate <= RATE_LIMIT && 0 <= r.oldRate <= RATE_LIMIT
    ensures r.shifts == 0 <==> n <= RATE_LIMIT && o <= RATE_LIMIT
    decreases n + o
  {
    if n > RATE_LIMIT || o > RATE_LIMIT then
      // `>>= 1` on a non-negative value
      var h := HalveRates(n / 2, o / 2);
      Rates(h.newRate, h.oldRate, h.shifts + 1)
    else
      Rates(n, o, 0)
  }

  /** Each halved rate is the original divided by the same power of two, and
      no fewer halvings would have brought both within the limit. */
  lemma {:induction false} HalveRatesExact(n: int, o: int)
    requires n >= 0 && o >= 0
    ensures var r := HalveRates(n, o);
            && r.newRate == n / Pow2(r.shifts) && r.oldRate == o / Pow2(r.shifts)
            && (r.shifts > 0 ==> n / Pow2(r.shifts - 1) > RATE_LIMIT || o / Pow2(r.shifts - 1) > RATE_LIMIT)
    decreases n + o
  {
    if n > RATE_LIMIT || o > RATE_LIMIT {
      assert Pow2(1) == 2;
      var h := HalveRates(n / 2, o / 2);
      HalveRatesExact(n / 2, o / 2);
      HalveStep(n, h.shifts);
      HalveStep(o, h.shifts);
      if h.shifts > 0 {
        HalveStep(n, h.shifts - 1);
        HalveStep(o, h.shifts - 1);
      }
    }
  }

  /** Halving and then dividing by 2^k is dividing by 2^(k+1). */
  lemma HalveStep(x: int, k: nat)
    requires x >= 0
    ensures (x / 2) / Pow2(k) == x / Pow2(k + 1)
  {
    DivDiv(x, 2, Pow2(k));
  }

  /** Dividing twice is dividing by the product. */
  lemma DivDiv(x: int, a: int, b: int)
    requires x >= 0 && a > 0 && b > 0
    ensures (x / a) / b == x / (a * b)
  {
    var q := x / a;
    var q2 := q / b;
    var r1 := x - a * q;
    var r2 := q - b * q2;
    DivMulBounds(x, a);
    DivMulBounds(q, b);
    assert 0 <= r1 < a && 0 <= r2 < b;
    NestedRemainder(x, a, b, q, q2, r1, r2);
    DivLower(x, a * b, q2);
    DivUpper(x, a * b, q2 + 1);
  }

  lemma NestedRemainder(x: int, a: int, b: int, q: int, q2: int, r1: int, r2: int)
    requires a > 0 && b > 0 && 0 <= r1 < a && 0 <= r2 < b
    requires x == a * q + r1 && q == b * q2 + r2
    ensures q2 * (a * b) <= x < (q2 + 1) * (a * b)
  {
    assert a * q == (a * b) * q2 + a * r2;
    MulLeMono(r2, b - 1, a);
    assert (b - 1) * a == a * b - a;
  }

  /** How a call of the rate changer ends: with the stream adjusted; at the
      source's consistency check, which stops the process; with a read past
      the end of the sinc table; or in a loop that never stops emitting,
      which happens when the old rate has been halved to zero. */
  datatype RateOutcome = Adjusted(stream: Stream) | Exited | OutsideTable | Unbounded

  /** The phase invariant of the resampler for old rate o and new rate n:
      the new position brackets the old one scaled by n/o. */
  predicate RatePhaseOk(oldPos: int, newPos: int, o: int, n: int)
  {
    0 <= oldPos < o && 0 <= newPos && oldPos * n <= newPos * o < oldPos * n + o
  }

  /** The output frame interpolated at `position` for a phase of `ratio` out
      of `width`, one channel at a time. */
  function RateFrame(table: seq<int>, pitchBuffer: seq<Frame>, channels: int, position: int, ratio: int, width: int): (f: Frame)
    requires 0 <= position && position + SINC_FILTER_POINTS <= |pitchBuffer|
    requires FramesOk(pitchBuffer, channels) && channels >= 0 && 0 <= ratio < width && TableOk(table)
    ensures FrameOk(f, channels)
  {
    seq(channels, c requires 0 <= c < channels => Interpolate(table, Window(pitchBuffer, channels, position, c), ratio, width))
  }

  /** The inner loop at one pitch-buffer position: emit frames while the next
      old position, scaled to the new rate, is ahead of the new position. */
  function EmitFrames(s: Stream, position: int, o: int, n: int): (r: RateOutcome)
    requires Valid(s) && o >= 0 && n >= 0
    requires 0 <= position && position + SINC_FILTER_POINTS <= |s.pitchBuffer|
    ensures r.Adjusted? ==> Valid(r.stream) && Emitted(s, r.stream)
    ensures r.Adjusted? ==> (s.oldRatePosition + 1) * n <= r.stream.newRatePosition * o
    decreases if o > 0 then (s.oldRatePosition + 1) * n - s.newRatePosition * o else 0
  {
    var op := s.oldRatePosition;
    var np := s.newRatePosition;
    if (op + 1) * n <= np * o then Adjusted(s)
    else if o == 0 then Unbounded
    else
      var ratio := (op + 1) * n - np * o - 1;
      if ratio >= n then OutsideTable
      else
        var u := EmitOne(s, position, ratio, n);
        assert (np + 1) * o == np * o + o;
        var r := EmitFrames(u, position, o, n);
        if r.Adjusted? then EmittedTrans(s, u, r.stream); r else r
  }

  /** `t` is `s` with frames appended to the output and the new phase moved
      on by their number; nothing else differs. */
  predicate Emitted(s: Stream, t: Stream)
  {
    && t == s.(output := t.output, outputSize := t.outputSize, newRatePosition := t.newRatePosition)
    && |t.output| >= |s.output| && t.output[..|s.output|] == s.output
    && |t.output| - |s.output| == t.newRatePosition - s.newRatePosition
  }

  lemma EmittedTrans(s: Stream, u: Stream, t: Stream)
    requires Emitted(s, u) && Emitted(u, t)
    ensures Emitted(s, t)
  {
    assert t.output[..|s.output|] == t.output[..|u.output|][..|s.output|];
  }

  /** One output frame: interpolated at `position` for a phase of `ratio`
      out of `n`, appended to the output, and the new phase moved on. */
  function EmitOne(s: Stream, position: int, ratio: int, n: int): (u: Stream)
    requires Valid(s) && 0 <= position && position + SINC_FILTER_POINTS <= |s.pitchBuffer| && 0 <= ratio < n
    ensures Valid(u) && u.newRatePosition == s.newRatePosition + 1 && Emitted(s, u)
    ensures |u.output| == |s.output| + 1 && u.output[..|s.output|] == s.output
    ensures u == s.(output := u.output, outputSize := u.outputSize, newRatePosition := u.newRatePosition)
  {
    var frame := RateFrame(s.sincTable, s.pitchBuffer, s.numChannels, position, ratio, n);
    assert FramesOk([frame], s.numChannels);
    var t := CopyToOutput(s, [frame]);
    assert t.output[..|s.output|] == s.output;
    t.(newRatePosition := s.newRatePosition + 1)
  }

  /** The outer loop from `position` on: every position that leaves the 12
      filter points inside the buffer advances the old phase by one, which
      wraps to zero at the old rate after the source checks that the new
      phase has reached the new rate. */
  function RateLoop(s: Stream, position: int, o: int, n: int): (r: RateOutcome)
    requires Valid(s) && o >= 0 && n >= 0
    requires 0 <= position <= Max(0, |s.pitchBuffer| - SINC_FILTER_POINTS)
    ensures r.Adjusted? ==> r.stream.pitchBuffer == s.pitchBuffer[Max(0, |s.pitchBuffer| - SINC_FILTER_POINTS)..]
    decreases |s.pitchBuffer| - position
  {
    if position >= |s.pitchBuffer| - SINC_FILTER_POINTS then
      var kept := RemovePitchSamples(s, position);
      assert kept.pitchBuffer == s.pitchBuffer[position..];
      Adjusted(kept)
    else
      match EmitFrames(s, position, o, n)
      case Adjusted(t) =>
        if t.oldRatePosition + 1 == o && t.newRatePosition != n then Exited
        else
          var next := AdvancePhase(t, o);
          assert next.pitchBuffer == s.pitchBuffer;
          RateLoop(next, position + 1, o, n)
      case other => other
  }

  /** The old phase moves on by one input frame; at the old rate both phases
      wrap to zero (the caller has checked the new phase first). */
  function AdvancePhase(t: Stream, o: int): (r: Stream)
    requires Valid(t)
    ensures Valid(r) && r == t.(oldRatePosition := r.oldRatePosition, newRatePosition := r.newRatePosition)
    ensures t.oldRatePosition + 1 == o ==> r.oldRatePosition == 0 && r.newRatePosition == 0
    ensures t.oldRatePosition + 1 != o ==> r.oldRatePosition == t.oldRatePosition + 1 && r.newRatePosition == t.newRatePosition
  {
    if t.oldRatePosition + 1 == o then t.(oldRatePosition := 0, newRatePosition := 0)
    else t.(oldRatePosition := t.oldRatePosition + 1)
  }

  /** `adjustRate`: resample the output written since `originalNumOutputSamples`
      from the stream's rate to `sampleRate / rate`, through the pitch buffer,
      keeping the last 12 frames of it for the next call. */
  function AdjustRate(s: Stream, rate: real, originalNumOutputSamples: int): (r: RateOutcome)
    requires Valid(s) && rate > 0.0 && 0 <= originalNumOutputSamples <= |s.output|
    ensures |s.output| == originalNumOutputSamples ==> r == Adjusted(s)
    ensures |s.output| > originalNumOutputSamples && r.Adjusted? ==>
              var moved := s.pitchBuffer + s.output[originalNumOutputSamples..];
              r.stream.pitchBuffer == moved[Max(0, |moved| - SINC_FILTER_POINTS)..]
  {
    var rates := NewRates(s.sampleRate, rate);
    if |s.output| == originalNumOutputSamples then Adjusted(s)
    else RateLoop(MoveNewSamplesToPitchBuffer(s, originalNumOutputSamples), 0, rates.oldRate, rates.newRate)
  }

  /** The new and old rates `adjustRate` works with, after halving. */
  function NewRates(sampleRate: int, rate: real): (r: Rates)
    requires sampleRate >= 0 && rate > 0.0
    ensures 0 <= r.newRate <= RATE_LIMIT && 0 <= r.oldRate <= RATE_LIMIT
  {
    var n := Trunc(sampleRate as real / rate);
    assert n >= 0;
    HalveRates(n, sampleRate)
  }

  // ------------------------------------------------------ rate properties

  /** From a consistent phase, the inner loop finishes normally and leaves
      the new phase just past the next old position scaled to the new rate. */
  lemma {:induction false} EmitFramesPhase(s: Stream, position: int, o: int, n: int)
    requires Valid(s) && o >= 1 && n >= 0
    requires 0 <= position && position + SINC_FILTER_POINTS <= |s.pitchBuffer|
    requires s.oldRatePosition * n <= s.newRatePosition * o < (s.oldRatePosition + 1) * n + o
    ensures EmitFrames(s, position, o, n).Adjusted?
    ensures EmitFrames(s, position, o, n).stream.newRatePosition * o < (s.oldRatePosition + 1) * n + o
    decreases (s.oldRatePosition + 1) * n - s.newRatePosition * o
  {
    var op := s.oldRatePosition;
    var np := s.newRatePosition;
    if (op + 1) * n > np * o {
      var ratio := (op + 1) * n - np * o - 1;
      assert (op + 1) * n == op * n + n;
      assert ratio < n;
      var u := EmitOne(s, position, ratio, n);
      assert (np + 1) * o == np * o + o;
      EmitFramesPhase(u, position, o, n);
    }
  }

  /** What the outer loop keeps whatever the phase: the output written before
      it, and the pitch buffer from the first unprocessed position on. */
  lemma {:induction false} RateLoopShape(s: Stream, position: int, o: int, n: int)
    requires Valid(s) && o >= 0 && n >= 0
    requires 0 <= position <= Max(0, |s.pitchBuffer| - SINC_FILTER_POINTS)
    ensures var r := RateLoop(s, position, o, n);
            r.Adjusted? ==>
              && Valid(r.stream) && Kept(s, r.stream)
              && r.stream.pitchBuffer == s.pitchBuffer[Max(0, |s.pitchBuffer| - SINC_FILTER_POINTS)..]
    decreases |s.pitchBuffer| - position
  {
    if position < |s.pitchBuffer| - SINC_FILTER_POINTS {
      var e := EmitFrames(s, position, o, n);
      if e.Adjusted? && !(e.stream.oldRatePosition + 1 == o && e.stream.newRatePosition != n) {
        var next := ShapeStep(s, position, o, n);
        RateLoopShape(next, position + 1, o, n);
        ShapeThrough(s, next, position, o, n);
      }
    } else {
      ShapeEnd(s, position, o, n);
    }
  }

  /** What the rest of the loop keeps from `next` it keeps from `s`. */
  lemma ShapeThrough(s: Stream, next: Stream, position: int, o: int, n: int)
    requires Valid(s) && Valid(next) && o >= 0 && n >= 0
    requires 0 <= position < |s.pitchBuffer| - SINC_FILTER_POINTS
    requires Kept(s, next) && next.pitchBuffer == s.pitchBuffer
    requires RateLoop(s, position, o, n) == RateLoop(next, position + 1, o, n)
    requires var r := RateLoop(next, position + 1, o, n);
             r.Adjusted? ==>
               && Valid(r.stream) && Kept(next, r.stream)
               && r.stream.pitchBuffer == next.pitchBuffer[Max(0, |next.pitchBuffer| - SINC_FILTER_POINTS)..]
    ensures var r := RateLoop(s, position, o, n);
            r.Adjusted? ==>
              && Valid(r.stream) && Kept(s, r.stream)
              && r.stream.pitchBuffer == s.pitchBuffer[Max(0, |s.pitchBuffer| - SINC_FILTER_POINTS)..]
  {
    var r := RateLoop(next, position + 1, o, n);
    if r.Adjusted? {
      KeptTrans(s, next, r.stream);
    }
  }

  /** Once the filter no longer fits, the loop only trims the pitch buffer. */
  lemma ShapeEnd(s: Stream, position: int, o: int, n: int)
    requires Valid(s) && o >= 0 && n >= 0
    requires 0 <= position && |s.pitchBuffer| - SINC_FILTER_POINTS <= position <= Max(0, |s.pitchBuffer| - SINC_FILTER_POINTS)
    ensures var r := RateLoop(s, position, o, n);
            r.Adjusted? ==>
              && Valid(r.stream) && Kept(s, r.stream)
              && r.stream.pitchBuffer == s.pitchBuffer[Max(0, |s.pitchBuffer| - SINC_FILTER_POINTS)..]
  {
    var r := RateLoop(s, position, o, n).stream;
    assert r == RemovePitchSamples(s, position);
    assert s.output[..|s.output|] == s.output;
  }

  /** `t` still holds the output of `s` as a prefix, its input and its
      settings. */
  predicate Kept(s: Stream, t: Stream)
  {
    |t.output| >= |s.output| && t.output[..|s.output|] == s.output && t.input == s.input && SameSettings(s, t)
  }

  lemma KeptTrans(s: Stream, u: Stream, t: Stream)
    requires Kept(s, u) && Kept(u, t)
    ensures Kept(s, t)
  {
    PrefixOfPrefix(s.output, u.output, t.output);
  }

  /** One position of the outer loop that the source's check lets pass:
      the next stream keeps what `s` held and the loop goes on from it. */
  lemma ShapeStep(s: Stream, position: int, o: int, n: int) returns (next: Stream)
    requires Valid(s) && o >= 0 && n >= 0
    requires 0 <= position < |s.pitchBuffer| - SINC_FILTER_POINTS
    requires var e := EmitFrames(s, position, o, n);
             e.Adjusted? && !(e.stream.oldRatePosition + 1 == o && e.stream.newRatePosition != n)
    ensures Valid(next) && Kept(s, next) && next.pitchBuffer == s.pitchBuffer
    ensures RateLoop(s, position, o, n) == RateLoop(next, position + 1, o, n)
  {
    next := AdvancePhase(EmitFrames(s, position, o, n).stream, o);
  }

  lemma PrefixOfPrefix(a: seq<Frame>, b: seq<Frame>, c: seq<Frame>)
    requires |a| <= |b| <= |c| && b[..|a|] == a && c[..|b|] == b
    ensures c[..|a|] == a
  {
    assert c[..|a|] == c[..|b|][..|a|];
  }

  /** From a consistent phase the outer loop never stops the process, leaves a
      consistent phase, and keeps the link between the unwrapped positions:
      `uo` old and `un` new frames counted from any common origin stay in the
      ratio n : o up to the phase the counters hold. */
  lemma RateLoopPhase(s: Stream, position: int, o: int, n: int, uo: int, un: int)
    requires Valid(s) && o >= 1 && n >= 0
    requires 0 <= position <= Max(0, |s.pitchBuffer| - SINC_FILTER_POINTS)
    requires RatePhaseOk(s.oldRatePosition, s.newRatePosition, o, n)
    requires Linked(uo, s.oldRatePosition, un, s.newRatePosition, o, n)
    ensures var r := RateLoop(s, position, o, n);
            && r.Adjusted?
            && RatePhaseOk(r.stream.oldRatePosition, r.stream.newRatePosition, o, n)
            && Linked(uo + Max(0, |s.pitchBuffer| - SINC_FILTER_POINTS) - position, r.stream.oldRatePosition,
                      un + |r.stream.output| - |s.output|, r.stream.newRatePosition, o, n)
  {
    var uo2, un2 := RateLoopPhaseFrom(s, position, o, n, uo, un);
    var r := RateLoop(s, position, o, n).stream;
    LinkedMoved(uo2, un2, uo + Max(0, |s.pitchBuffer| - SINC_FILTER_POINTS) - position, un + |r.output| - |s.output|,
                r.oldRatePosition, r.newRatePosition, o, n);
  }

  /** The induction behind `RateLoopPhase`, which also returns the
      unwrapped positions the outer loop reaches, so that each step only
      renumbers them by linear equations. */
  lemma {:induction false} RateLoopPhaseFrom(s: Stream, position: int, o: int, n: int, uo: int, un: int)
    returns (uo2: int, un2: int)
    requires Valid(s) && o >= 1 && n >= 0
    requires 0 <= position <= Max(0, |s.pitchBuffer| - SINC_FILTER_POINTS)
    requires RatePhaseOk(s.oldRatePosition, s.newRatePosition, o, n)
    requires Linked(uo, s.oldRatePosition, un, s.newRatePosition, o, n)
    ensures RateLoop(s, position, o, n).Adjusted?
    ensures var r := RateLoop(s, position, o, n).stream;
            && RatePhaseOk(r.oldRatePosition, r.newRatePosition, o, n)
            && uo2 == uo + Max(0, |s.pitchBuffer| - SINC_FILTER_POINTS) - position
            && un2 == un + |r.output| - |s.output|
            && Linked(uo2, r.oldRatePosition, un2, r.newRatePosition, o, n)
    decreases |s.pitchBuffer| - position
  {
    if position < |s.pitchBuffer| - SINC_FILTER_POINTS {
      var next := PhaseStep(s, position, o, n, uo, un);
      uo2, un2 := RateLoopPhaseFrom(next, position + 1, o, n, uo + 1, un + |next.output| - |s.output|);
      PhaseThrough(s, next, position, o, n, uo, un, uo2, un2);
    } else {
      RateLoopEnd(s, position, o, n, uo, un);
      uo2, un2 := uo, un;
    }
  }

  /** `RatePositionStep` with only what the outer loop carries on with. */
  lemma PhaseStep(s: Stream, position: int, o: int, n: int, uo: int, un: int) returns (next: Stream)
    requires Valid(s) && o >= 1 && n >= 0
    requires 0 <= position < |s.pitchBuffer| - SINC_FILTER_POINTS
    requires RatePhaseOk(s.oldRatePosition, s.newRatePosition, o, n)
    requires Linked(uo, s.oldRatePosition, un, s.newRatePosition, o, n)
    ensures Valid(next) && next.pitchBuffer == s.pitchBuffer
    ensures RatePhaseOk(next.oldRatePosition, next.newRatePosition, o, n)
    ensures Linked(uo + 1, next.oldRatePosition, un + |next.output| - |s.output|, next.newRatePosition, o, n)
    ensures RateLoop(s, position, o, n) == RateLoop(next, position + 1, o, n)
  {
    next := RatePositionStep(s, position, o, n, uo, un);
  }

  /** What the rest of the loop promises from `next`, one position on, it
      promises from `s`: the counts just add up. */
  lemma PhaseThrough(s: Stream, next: Stream, position: int, o: int, n: int, uo: int, un: int, uo2: int, un2: int)
    requires Valid(s) && Valid(next) && o >= 1 && n >= 0
    requires 0 <= position < |s.pitchBuffer| - SINC_FILTER_POINTS
    requires next.pitchBuffer == s.pitchBuffer
    requires RateLoop(s, position, o, n) == RateLoop(next, position + 1, o, n)
    requires RateLoop(next, position + 1, o, n).Adjusted?
    requires var r := RateLoop(next, position + 1, o, n).stream;
             && RatePhaseOk(r.oldRatePosition, r.newRatePosition, o, n)
             && uo2 == uo + 1 + Max(0, |next.pitchBuffer| - SINC_FILTER_POINTS) - (position + 1)
             && un2 == un + |next.output| - |s.output| + |r.output| - |next.output|
             && Linked(uo2, r.oldRatePosition, un2, r.newRatePosition, o, n)
    ensures RateLoop(s, position, o, n).Adjusted?
    ensures var r := RateLoop(s, position, o, n).stream;
            && RatePhaseOk(r.oldRatePosition, r.newRatePosition, o, n)
            && uo2 == uo + Max(0, |s.pitchBuffer| - SINC_FILTER_POINTS) - position
            && un2 == un + |r.output| - |s.output|
            && Linked(uo2, r.oldRatePosition, un2, r.newRatePosition, o, n)
  {
  }

  /** At the last position the outer loop only drops the processed part of
      the pitch buffer: counters and output stay as they were. */
  lemma RateLoopEnd(s: Stream, position: int, o: int, n: int, uo: int, un: int)
    requires Valid(s) && o >= 1 && n >= 0
    requires 0 <= position <= Max(0, |s.pitchBuffer| - SINC_FILTER_POINTS)
    requires position >= |s.pitchBuffer| - SINC_FILTER_POINTS
    requires RatePhaseOk(s.oldRatePosition, s.newRatePosition, o, n)
    requires Linked(uo, s.oldRatePosition, un, s.newRatePosition, o, n)
    ensures var r := RateLoop(s, position, o, n);
            && r.Adjusted?
            && RatePhaseOk(r.stream.oldRatePosition, r.stream.newRatePosition, o, n)
            && Linked(uo + Max(0, |s.pitchBuffer| - SINC_FILTER_POINTS) - position, r.stream.oldRatePosition,
                      un + |r.stream.output| - |s.output|, r.stream.newRatePosition, o, n)
  {
    var last := Max(0, |s.pitchBuffer| - SINC_FILTER_POINTS);
    assert position == last;
    var r := RateLoop(s, position, o, n).stream;
    assert r == RemovePitchSamples(s, position);
    assert r.output == s.output;
    assert r.oldRatePosition == s.oldRatePosition && r.newRatePosition == s.newRatePosition;
    LinkedMoved(uo, un, uo + last - position, un + |r.output| - |s.output|,
                r.oldRatePosition, r.newRatePosition, o, n);
  }

  /** One position of the outer loop from a consistent phase: the inner loop
      finishes, the source's check passes, and the advanced stream is
      consistent and linked one old frame and the emitted frames further on. */
  lemma RatePositionStep(s: Stream, position: int, o: int, n: int, uo: int, un: int) returns (next: Stream)
    requires Valid(s) && o >= 1 && n >= 0
    requires 0 <= position < |s.pitchBuffer| - SINC_FILTER_POINTS
    requires RatePhaseOk(s.oldRatePosition, s.newRatePosition, o, n)
    requires Linked(uo, s.oldRatePosition, un, s.newRatePosition, o, n)
    ensures EmitFrames(s, position, o, n).Adjusted? && next == AdvancePhase(EmitFrames(s, position, o, n).stream, o)
    ensures Valid(next) && next.pitchBuffer == s.pitchBuffer && |next.output| >= |s.output|
    ensures RatePhaseOk(next.oldRatePosition, next.newRatePosition, o, n)
    ensures Linked(uo + 1, next.oldRatePosition, un + |next.output| - |s.output|, next.newRatePosition, o, n)
    ensures RateLoop(s, position, o, n) == RateLoop(next, position + 1, o, n)
  {
    var np := s.newRatePosition;
    assert (s.oldRatePosition + 1) * n == s.oldRatePosition * n + n;
    EmitFramesPhase(s, position, o, n);
    var t := EmitFrames(s, position, o, n).stream;
    AdvanceKeepsPhase(t, np, o, n, uo, un);
    next := AdvancePhase(t, o);
  }

  /** One position of the outer loop on a stream the inner loop has just
      left `np2 = t.newRatePosition` with: the source's check passes, and the
      advanced phase is consistent and linked one old frame further on. */
  lemma AdvanceKeepsPhase(t: Stream, np: int, o: int, n: int, uo: int, un: int)
    requires Valid(t) && o >= 1 && n >= 0
    requires RatePhaseOk(t.oldRatePosition, np, o, n) && Linked(uo, t.oldRatePosition, un, np, o, n)
    requires (t.oldRatePosition + 1) * n <= t.newRatePosition * o < (t.oldRatePosition + 1) * n + o
    ensures !(t.oldRatePosition + 1 == o && t.newRatePosition != n)
    ensures var next := AdvancePhase(t, o);
            && RatePhaseOk(next.oldRatePosition, next.newRatePosition, o, n)
            && Linked(uo + 1, next.oldRatePosition, un + t.newRatePosition - np, next.newRatePosition, o, n)
  {
    PhaseAdvance(t.oldRatePosition, np, t.newRatePosition, o, n, uo, un);
  }

  /** The link between unwrapped positions uo, un and the phases the
      counters hold: uo - oldPos old frames and un - newPos new frames are in
      the ratio n : o. */
  predicate Linked(uo: int, oldPos: int, un: int, newPos: int, o: int, n: int)
  {
    (uo - oldPos) * n == (un - newPos) * o
  }

  /** The link only depends on the values of the unwrapped positions. */
  lemma LinkedMoved(uo: int, un: int, uo2: int, un2: int, oldPos: int, newPos: int, o: int, n: int)
    requires Linked(uo, oldPos, un, newPos, o, n) && uo == uo2 && un == un2
    ensures Linked(uo2, oldPos, un2, newPos, o, n)
  {
  }

  /** One position of the outer loop on the counters alone: the old phase
      advances by one and the new phase to `np2`; the invariant and the link
      carry over, through the wrap when the old phase reaches o. */
  lemma PhaseAdvance(op: int, np: int, np2: int, o: int, n: int, uo: int, un: int)
    requires o >= 1 && n >= 0 && RatePhaseOk(op, np, o, n)
    requires (uo - op) * n == (un - np) * o
    requires (op + 1) * n <= np2 * o < (op + 1) * n + o
    ensures var e := np2 - np;
            if op + 1 == o then
              np2 == n && (uo + 1) * n == (un + e) * o
            else
              RatePhaseOk(op + 1, np2, o, n) && (uo + 1 - (op + 1)) * n == (un + e - np2) * o
  {
    if op + 1 == o {
      WrapExact(np2, o, n);
      assert (uo + 1) * n == (uo - op) * n + o * n;
      assert (un + (np2 - np)) * o == (un - np) * o + n * o;
    } else {
      assert 0 <= np2 by {
        if np2 < 0 { MulLeMono(np2, -1, o); }
      }
    }
  }

  /** When the old phase completes a cycle, the new phase has completed one
      too: o * n <= np * o < o * n + o forces np == n. */
  lemma WrapExact(np: int, o: int, n: int)
    requires o >= 1 && o * n <= np * o < o * n + o
    ensures np == n
  {
    assert n * o <= np * o;
    MulCancelLe(n, np, o);
    assert np * o < (n + 1) * o;
    MulCancelLt(np, n + 1, o);
  }

  /** The bracket the link and a consistent phase give for counts taken from
      the phase the loop started at. */
  lemma BracketFromLink(op0: int, np0: int, p: int, e: int, op: int, np: int, o: int, n: int)
    requires RatePhaseOk(op, np, o, n)
    requires Linked(op0 + p, op, np0 + e, np, o, n)
    ensures Bracketed(op0, np0, p, e, o, n)
  {
    assert (op0 + p) * n == (op0 + p - op) * n + op * n;
    assert (np0 + e) * o == (np0 + e - np) * o + np * o;
  }

  /** Counted from the phase (op, np), p old frames and e new frames keep
      the rate: (op + p) * n <= (np + e) * o < (op + p) * n + o. */
  predicate Bracketed(op: int, np: int, p: int, e: int, o: int, n: int)
  {
    (op + p) * n <= (np + e) * o < (op + p) * n + o
  }

  /** `adjustRate` from a phase consistent with the rates it works at never
      stops the process, leaves a consistent phase and keeps the output
      written before the call. */
  lemma AdjustRateConsistent(s: Stream, rate: real, orig: int)
    requires Valid(s) && rate > 0.0 && 0 <= orig <= |s.output|
    requires NewRates(s.sampleRate, rate).oldRate >= 1
    requires RatePhaseOk(s.oldRatePosition, s.newRatePosition,
                         NewRates(s.sampleRate, rate).oldRate, NewRates(s.sampleRate, rate).newRate)
    ensures var r := AdjustRate(s, rate, orig);
            && r.Adjusted? && Valid(r.stream)
            && RatePhaseOk(r.stream.oldRatePosition, r.stream.newRatePosition,
                           NewRates(s.sampleRate, rate).oldRate, NewRates(s.sampleRate, rate).newRate)
            && |r.stream.output| >= orig && r.stream.output[..orig] == s.output[..orig]
  {
    var rates := NewRates(s.sampleRate, rate);
    if |s.output| > orig {
      var m := MoveNewSamplesToPitchBuffer(s, orig);
      RateLoopShape(m, 0, rates.oldRate, rates.newRate);
      RateLoopPhase(m, 0, rates.oldRate, rates.newRate, s.oldRatePosition, s.newRatePosition);
      assert m.output == s.output[..orig];
    }
  }

  /** Whatever the phase, a resampled stream is valid, keeps the output
      written before the call, the input and the settings. */
  lemma AdjustRateShape(s: Stream, rate: real, orig: int)
    requires Valid(s) && rate > 0.0 && 0 <= orig <= |s.output|
    ensures var r := AdjustRate(s, rate, orig);
            r.Adjusted? ==>
              && Valid(r.stream)
              && |r.stream.output| >= orig && r.stream.output[..orig] == s.output[..orig]
              && r.stream.input == s.input && SameSettings(s, r.stream)
  {
    var rates := NewRates(s.sampleRate, rate);
    if |s.output| > orig {
      var m := MoveNewSamplesToPitchBuffer(s, orig);
      RateLoopShape(m, 0, rates.oldRate, rates.newRate);
      assert m.output == s.output[..orig];
    }
  }

  /** The outer loop from the start of the pitch buffer, counted from the
      phase it starts at: over P positions it emits E frames with
      (op + P) * n <= (np + E) * o < (op + P) * n + o. */
  lemma RateLoopCounts(m: Stream, o: int, n: int)
    requires Valid(m) && o >= 1 && n >= 0
    requires RatePhaseOk(m.oldRatePosition, m.newRatePosition, o, n)
    ensures RateLoop(m, 0, o, n).Adjusted?
    ensures Counted(m.oldRatePosition, m.newRatePosition, m.pitchBuffer, |m.output|, RateLoop(m, 0, o, n).stream, o, n)
  {
    RateLoopShape(m, 0, o, n);
    var uo, un := RateLoopPhaseFrom(m, 0, o, n, m.oldRatePosition, m.newRatePosition);
    CountedFromLink(m, RateLoop(m, 0, o, n).stream, uo, un, o, n);
  }

  /** A stream the loop left with a consistent phase, linked through the
      unwrapped positions `uo`, `un` to the one it started from, has the
      counts in the rate. */
  lemma CountedFromLink(m: Stream, t: Stream, uo: int, un: int, o: int, n: int)
    requires RatePhaseOk(t.oldRatePosition, t.newRatePosition, o, n)
    requires t.pitchBuffer == m.pitchBuffer[Max(0, |m.pitchBuffer| - SINC_FILTER_POINTS)..]
    requires uo == m.oldRatePosition + Max(0, |m.pitchBuffer| - SINC_FILTER_POINTS) - 0
    requires un == m.newRatePosition + |t.output| - |m.output|
    requires Linked(uo, t.oldRatePosition, un, t.newRatePosition, o, n)
    ensures Counted(m.oldRatePosition, m.newRatePosition, m.pitchBuffer, |m.output|, t, o, n)
  {
    var p := Max(0, |m.pitchBuffer| - SINC_FILTER_POINTS);
    LinkedMoved(uo, un, m.oldRatePosition + p, m.newRatePosition + |t.output| - |m.output|,
                t.oldRatePosition, t.newRatePosition, o, n);
    BracketFromLink(m.oldRatePosition, m.newRatePosition, p, |t.output| - |m.output|,
                    t.oldRatePosition, t.newRatePosition, o, n);
  }

  /** The resampler, started at phase (op, np) on pitch buffer `pb` with
      `before` output frames, has left `r`: the last 12 frames of `pb` kept,
      and the E frames emitted for the P positions stepped over in the rate
      n : o (see Bracketed). */
  predicate Counted(op: int, np: int, pb: seq<Frame>, before: int, r: Stream, o: int, n: int)
  {
    var p := Max(0, |pb| - SINC_FILTER_POINTS);
    r.pitchBuffer == pb[p..] && Bracketed(op, np, p, |r.output| - before, o, n)
  }

  /** The frames `adjustRate` emits for the P positions it steps over number
      E with (op + P) * n <= (np + E) * o < (op + P) * n + o, where op and np
      are the phase it started from: the output grows at n/o of the input.
      The pitch buffer keeps the last 12 frames for the next call. */
  lemma AdjustRateCounts(s: Stream, rate: real, orig: int)
    requires Valid(s) && rate > 0.0 && 0 <= orig < |s.output|
    requires NewRates(s.sampleRate, rate).oldRate >= 1
    requires RatePhaseOk(s.oldRatePosition, s.newRatePosition,
                         NewRates(s.sampleRate, rate).oldRate, NewRates(s.sampleRate, rate).newRate)
    ensures AdjustRate(s, rate, orig).Adjusted?
    ensures Counted(s.oldRatePosition, s.newRatePosition, s.pitchBuffer + s.output[orig..], orig,
                    AdjustRate(s, rate, orig).stream,
                    NewRates(s.sampleRate, rate).oldRate, NewRates(s.sampleRate, rate).newRate)
  {
    var rates := NewRates(s.sampleRate, rate);
    var m := MoveNewSamplesToPitchBuffer(s, orig);
    assert AdjustRate(s, rate, orig) == RateLoop(m, 0, rates.oldRate, rates.newRate);
    assert m.oldRatePosition == s.oldRatePosition && m.newRatePosition == s.newRatePosition;
    assert |m.output| == orig && m.pitchBuffer == s.pitchBuffer + s.output[orig..];
    RateLoopCounts(m, rates.oldRate, rates.newRate);
  }

  /** A new phase ahead of a full cycle of the new rate cannot be caught up:
      the inner loop emits nothing, and after o - op positions the old phase
      completes its cycle with the new phase not at n, which stops the
      process. */
  lemma {:induction false} AheadPhaseExits(s: Stream, position: int, o: int, n: int)
    requires Valid(s) && o >= 1 && n >= 0
    requires s.oldRatePosition < o && s.newRatePosition > n
    requires 0 <= position && position + (o - s.oldRatePosition) <= |s.pitchBuffer| - SINC_FILTER_POINTS
    ensures RateLoop(s, position, o, n) == Exited
    decreases o - s.oldRatePosition
  {
    var op := s.oldRatePosition;
    var np := s.newRatePosition;
    assert (op + 1) * n <= np * o by {
      MulLeMono(op + 1, o, n);
      MulLeMono(n, np, o);
    }
    assert EmitFrames(s, position, o, n) == Adjusted(s);
    if op + 1 < o {
      AheadPhaseExits(AdvancePhase(s, o), position + 1, o, n);
    }
  }

  /** The pitch setter as written, on a 16000 Hz stream at pitch 0.5 (the
      resampler runs at rate 0.5, i.e. at n : o = 16000 : 8000 after halving)
      whose phase (6000, 12000) is consistent with that rate: raising the pitch
      to 2.0 makes the next `adjustRate` run at n : o = 8000 : 16000 from the
      stale phase, and once 10000 positions are available it stops the
      process. */
  lemma PitchChangeStopsProcess(s: Stream, orig: int)
    requires Valid(s) && s.sampleRate == 16000 && s.rate == 1.0
    requires s.oldRatePosition == 6000 && s.newRatePosition == 12000
    requires 0 <= orig < |s.output| && |s.pitchBuffer| + |s.output| - orig >= 10012
    ensures NewRates(16000, 1.0 * 0.5) == Rates(16000, 8000, 1)
    ensures RatePhaseOk(6000, 12000, 8000, 16000)
    ensures var t := SetPitchAsWritten(s, 2.0);
            NewRates(16000, t.rate * t.pitch) == Rates(8000, 16000, 0) &&
            AdjustRate(t, t.rate * t.pitch, orig) == Exited
  {
    HalveOnce();
    assert Trunc(16000 as real / 2.0) == 8000;
    var t := SetPitchAsWritten(s, 2.0);
    var m := MoveNewSamplesToPitchBuffer(t, orig);
    AheadPhaseExits(m, 0, 16000, 8000);
  }

  lemma HalveOnce()
    ensures NewRates(16000, 1.0 * 0.5) == Rates(16000, 8000, 1)
  {
    assert Trunc(16000 as real / 0.5) == 32000;
    var h := HalveRates(16000, 8000);
    assert h == Rates(16000, 8000, 0);
    assert Pow2(1) == 2;
  }

  /** With the corrected pitch setter, a pitch change never stops the
      process: the restarted phase is consistent with whatever rate the
      resampler then works at. */
  lemma PitchChangeKeepsRunning(s: Stream, pitch: real, rate: real, orig: int)
    requires Valid(s) && 0 <= orig <= |s.output| && rate > 0.0
    requires NewRates(s.sampleRate, rate).oldRate >= 1
    ensures AdjustRate(SetPitch(s, pitch), rate, orig).Adjusted?
  {
    var t := SetPitch(s, pitch);
    assert Valid(t) && RatePhaseReset(t) by { SettersKeepStream(s, pitch, 0, false); }
    var rates := NewRates(t.sampleRate, rate);
    assert RatePhaseOk(0, 0, rates.oldRate, rates.newRate);
    AdjustRateConsistent(t, rate, orig);
  }
}
