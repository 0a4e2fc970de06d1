/**
 * Pitch-period detection of the Sonic engine (src/sonic.cpp): the average
 * magnitude difference function (AMDF) searched over a range of candidate
 * periods, the optional down-sampling that makes the coarse search cheaper,
 * and the rule that sometimes keeps the previously detected period.
 */
module SonicPitch {
  import opened Base
  import opened Arith
  import opened SonicKernels
  import opened SonicStream

  // ----------------------------------------------------------- down-sampling

  function FrameSum(f: Frame): int
  {
    if |f| == 0 then 0 else FrameSum(f[..|f| - 1]) + f[|f| - 1]
  }

  function BlockSum(fs: seq<Frame>): int
  {
    if |fs| == 0 then 0 else BlockSum(fs[..|fs| - 1]) + FrameSum(fs[|fs| - 1])
  }

  lemma {:induction false} FrameSumBounds(f: Frame)
    requires forall c | 0 <= c < |f| :: IsInt16(f[c])
    ensures -32768 * |f| <= FrameSum(f) <= 32767 * |f|
  {
    if |f| > 0 {
      FrameSumBounds(f[..|f| - 1]);
    }
  }

  lemma {:induction false} BlockSumBounds(fs: seq<Frame>, channels: int)
    requires FramesOk(fs, channels) && channels >= 0
    ensures -32768 * (channels * |fs|) <= BlockSum(fs) <= 32767 * (channels * |fs|)
  {
    if |fs| > 0 {
      var init := fs[..|fs| - 1];
      assert FramesOk(init, channels) by {
        forall i | 0 <= i < |init| ensures FrameOk(init[i], channels) { assert init[i] == fs[i]; }
      }
      BlockSumBounds(init, channels);
      FrameSumBounds(fs[|fs| - 1]);
      assert channels * |fs| == channels * |init| + channels;
    }
  }

  /** The mean of one block of `skip` frames over all channels, truncated. */
  function BlockMean(samples: seq<Frame>, channels: int, skip: int, i: int): (r: int)
    requires channels >= 1 && skip >= 1 && i >= 0 && (i + 1) * skip <= |samples|
    requires FramesOk(samples, channels)
    ensures IsInt16(r)
  {
    var block := samples[i * skip..(i + 1) * skip];
    FramesOkSlice(samples, i * skip, (i + 1) * skip, channels);
    BlockSumBounds(block, channels);
    assert |block| == skip;
    assert channels * skip >= 1 by { MulLeMono(1, channels, skip); }
    TruncDivBounds(BlockSum(block), channels * skip, -32768, 32767);
    TruncDiv(BlockSum(block), channels * skip)
  }

  /** `maxRequired / skip` values, each the mean of `skip` consecutive frames
      with all channels mixed. */
  function DownSample(samples: seq<Frame>, channels: int, skip: int, maxRequired: int): (r: seq<int>)
    requires channels >= 1 && skip >= 1 && maxRequired >= 0
    requires FramesOk(samples, channels) && maxRequired <= |samples|
    ensures |r| == maxRequired / skip
    ensures forall i | 0 <= i < |r| :: IsInt16(r[i])
  {
    seq(maxRequired / skip, i requires 0 <= i < maxRequired / skip =>
      (BlockFits(maxRequired, skip, i); BlockMean(samples, channels, skip, i)))
  }

  lemma BlockFits(maxRequired: int, skip: int, i: int)
    requires skip >= 1 && maxRequired >= 0 && 0 <= i < maxRequired / skip
    ensures (i + 1) * skip <= maxRequired
  {
    MulLeMono(i + 1, maxRequired / skip, skip);
  }

  /** The first channel of each frame. */
  function Channel0(samples: seq<Frame>): (r: seq<int>)
    requires forall i | 0 <= i < |samples| :: |samples[i]| >= 1
    ensures |r| == |samples|
    ensures forall i | 0 <= i < |r| :: r[i] == samples[i][0]
  {
    seq(|samples|, i requires 0 <= i < |samples| => samples[i][0])
  }

  /** For mono audio, down-sampling by one gives back the samples themselves:
      this is why the direct search on mono input needs no down-sampling. */
  lemma DownSampleMonoIdentity(samples: seq<Frame>, maxRequired: int)
    requires FramesOk(samples, 1) && 0 <= maxRequired <= |samples|
    ensures DownSample(samples, 1, 1, maxRequired) == Channel0(samples)[..maxRequired]
  {
    var d := DownSample(samples, 1, 1, maxRequired);
    forall i | 0 <= i < maxRequired ensures d[i] == samples[i][0] {
      var block := samples[i..i + 1];
      assert block == [samples[i]];
      assert BlockSum(block) == FrameSum(samples[i]);
      assert samples[i] == [samples[i][0]];
      assert FrameSum(samples[i]) == samples[i][0] by {
        assert samples[i][..0] == [];
      }
      TruncDivExact(samples[i][0], 1);
    }
  }

  // ----------------------------------------------------------------- AMDF

  /** The sum of |x[i] - x[i + period]| for i below k. */
  function DiffSum(x: seq<int>, period: nat, k: nat): (r: nat)
    requires k + period <= |x|
  {
    if k == 0 then 0 else DiffSum(x, period, k - 1) + Abs(x[k - 1] - x[k - 1 + period])
  }

  /** The magnitude difference of a period: one period of samples compared
      with the next. */
  function Amdf(x: seq<int>, period: nat): nat
    requires 2 * period <= |x|
  {
    DiffSum(x, period, period)
  }

  /** The running state of the period search: best and worst period so far
      with their raw differences. */
  datatype Search = Search(best: int, minDiff: int, worst: int, maxDiff: int)

  /** One candidate considered: it becomes the best when nothing has been
      chosen yet or its difference per sample is strictly smaller, and the
      worst when its difference per sample is strictly larger. */
  function SearchStep(st: Search, period: int, diff: int): Search
  {
    var st1 := if st.best == 0 || diff * st.best < st.minDiff * period
               then st.(minDiff := diff, best := period) else st;
    if diff * st1.worst > st1.maxDiff * period then st1.(maxDiff := diff, worst := period) else st1
  }

  /** An `unsigned long` product where that type is 32 bits wide (the
      Windows build): reduced modulo 2^32. */
  function U32(x: int): (r: int)
    ensures 0 <= r < 0x1_0000_0000
    ensures 0 <= x < 0x1_0000_0000 ==> r == x
  {
    x % 0x1_0000_0000
  }

  /** One candidate considered with the comparisons as written, where
      `diff * bestPeriod`, `minDiff * period`, `diff * worstPeriod` and
      `maxDiff * period` are 32-bit unsigned products. */
  function SearchStepAsWritten(st: Search, period: int, diff: int): (r: Search)
    ensures r.best == st.best || r.best == period
    ensures r.worst == st.worst || r.worst == period
  {
    var st1 := if st.best == 0 || U32(diff * st.best) < U32(st.minDiff * period)
               then st.(minDiff := diff, best := period) else st;
    if U32(diff * st1.worst) > U32(st1.maxDiff * period) then st1.(maxDiff := diff, worst := period) else st1
  }

  /** While no product reaches 2^32 the 32-bit comparisons are the exact
      ones. */
  lemma StepAsWrittenExact(st: Search, period: int, diff: int)
    requires st.best >= 0 && st.minDiff >= 0 && st.worst >= 1 && st.maxDiff >= 0
    requires period >= 1 && diff >= 0
    requires diff * st.best < 0x1_0000_0000 && st.minDiff * period < 0x1_0000_0000
    requires diff * period < 0x1_0000_0000 && diff * st.worst < 0x1_0000_0000
    requires st.maxDiff * period < 0x1_0000_0000
    ensures SearchStepAsWritten(st, period, diff) == SearchStep(st, period, diff)
  {
    assert 0 <= diff * st.best && 0 <= st.minDiff * period;
    assert 0 <= diff * st.worst && 0 <= st.maxDiff * period;
    var st1 := if st.best == 0 || diff * st.best < st.minDiff * period
               then st.(minDiff := diff, best := period) else st;
    assert 0 <= diff * st1.worst < 0x1_0000_0000;
    assert 0 <= st1.maxDiff * period < 0x1_0000_0000;
  }

  /** With period 600 held at a difference of 1000, candidate 601 with a
      difference of 35791395 (under 601 * 65535, so one period of 16-bit
      samples can reach it) has 600 times that wrap to 520 < 601 * 1000: the
      32-bit comparison takes a candidate whose difference per sample is
      more than 35000 times worse, which the exact comparison rejects. */
  lemma WrappedProductTakesWorsePeriod()
    ensures 35791395 <= 601 * 65535
    ensures SearchStepAsWritten(Search(600, 1000, 600, 1000), 601, 35791395).best == 601
    ensures SearchStep(Search(600, 1000, 600, 1000), 601, 35791395).best == 600
  {
    assert U32(35791395 * 600) == 520;
  }

  /** Consider candidates `period` .. `maxPeriod` in increasing order. */
  function SearchFrom(x: seq<int>, period: int, maxPeriod: int, st: Search): Search
    requires period >= 1 && 2 * maxPeriod <= |x|
    decreases maxPeriod + 1 - period
  {
    if period > maxPeriod then st
    else SearchFrom(x, period + 1, maxPeriod, SearchStep(st, period, Amdf(x, period)))
  }

  /** After the candidates in [lo, p): `best` has the smallest difference per
      sample among them, and the earliest such one. */
  ghost predicate BestInv(x: seq<int>, lo: int, hi: int, p: int, best: int, minDiff: int)
    requires 1 <= lo <= p <= hi + 1 && 2 * hi <= |x|
  {
    && (p == lo ==> best == 0)
    && (p > lo ==>
          && lo <= best < p
          && minDiff == Amdf(x, best)
          && (forall q | lo <= q < p :: Amdf(x, best) * q <= Amdf(x, q) * best)
          && (forall q | lo <= q < best :: Amdf(x, best) * q < Amdf(x, q) * best))
  }

  /** After the candidates in [lo, p): none has a larger difference per
      sample than `maxDiff` over `worst`, and `worst` is the earliest with the
      largest one, or still the initial 255 with 0 when every difference so
      far was 0. */
  ghost predicate WorstInv(x: seq<int>, lo: int, hi: int, p: int, worst: int, maxDiff: int)
    requires 1 <= lo <= p <= hi + 1 && 2 * hi <= |x|
  {
    && worst >= 1 && maxDiff >= 0
    && (forall q | lo <= q < p :: Amdf(x, q) * worst <= maxDiff * q)
    && ((worst == 255 && maxDiff == 0) ||
        (lo <= worst < p && maxDiff == Amdf(x, worst) &&
         forall q | lo <= q < worst :: Amdf(x, q) * worst < maxDiff * q))
  }

  ghost predicate SearchInv(x: seq<int>, lo: int, hi: int, p: int, st: Search)
  {
    && 1 <= lo <= p <= hi + 1 && 2 * hi <= |x|
    && BestInv(x, lo, hi, p, st.best, st.minDiff)
    && WorstInv(x, lo, hi, p, st.worst, st.maxDiff)
  }

  lemma BestStep(x: seq<int>, lo: int, hi: int, p: int, best: int, minDiff: int)
    requires 1 <= lo <= p <= hi && 2 * hi <= |x|
    requires BestInv(x, lo, hi, p, best, minDiff)
    ensures var d := Amdf(x, p);
            if best == 0 || d * best < minDiff * p then BestInv(x, lo, hi, p + 1, p, d)
            else BestInv(x, lo, hi, p + 1, best, minDiff)
  {
    var d := Amdf(x, p);
    if best == 0 || d * best < minDiff * p {
      BestTake(x, lo, hi, p, best, minDiff);
    } else {
      BestKeep(x, lo, hi, p, best, minDiff);
    }
  }

  lemma BestTake(x: seq<int>, lo: int, hi: int, p: int, best: int, minDiff: int)
    requires 1 <= lo <= p <= hi && 2 * hi <= |x|
    requires BestInv(x, lo, hi, p, best, minDiff)
    requires best == 0 || Amdf(x, p) * best < minDiff * p
    ensures BestInv(x, lo, hi, p + 1, p, Amdf(x, p))
  {
    var d := Amdf(x, p);
    forall q | lo <= q < p + 1
      ensures d * q <= Amdf(x, q) * p
      ensures q < p ==> d * q < Amdf(x, q) * p
    {
      if q < p {
        CrossLtLeTrans(d, p, Amdf(x, best), best, Amdf(x, q), q);
      }
    }
  }

  lemma BestKeep(x: seq<int>, lo: int, hi: int, p: int, best: int, minDiff: int)
    requires 1 <= lo <= p <= hi && 2 * hi <= |x|
    requires BestInv(x, lo, hi, p, best, minDiff)
    requires !(best == 0 || Amdf(x, p) * best < minDiff * p)
    ensures BestInv(x, lo, hi, p + 1, best, minDiff)
  {
    assert p > lo;
    assert Amdf(x, best) * p <= Amdf(x, p) * best;
  }

  lemma WorstStep(x: seq<int>, lo: int, hi: int, p: int, worst: int, maxDiff: int)
    requires 1 <= lo <= p <= hi && 2 * hi <= |x|
    requires WorstInv(x, lo, hi, p, worst, maxDiff)
    ensures var d := Amdf(x, p);
            if d * worst > maxDiff * p then WorstInv(x, lo, hi, p + 1, p, d)
            else WorstInv(x, lo, hi, p + 1, worst, maxDiff)
  {
    var d := Amdf(x, p);
    if d * worst > maxDiff * p {
      forall q | lo <= q < p ensures Amdf(x, q) * p < d * q {
        CrossLeLtTrans(Amdf(x, q), q, maxDiff, worst, d, p);
      }
    }
  }

  lemma SearchStepInv(x: seq<int>, lo: int, hi: int, p: int, st: Search)
    requires SearchInv(x, lo, hi, p, st) && p <= hi
    ensures SearchInv(x, lo, hi, p + 1, SearchStep(st, p, Amdf(x, p)))
  {
    BestStep(x, lo, hi, p, st.best, st.minDiff);
    var d := Amdf(x, p);
    var st1 := if st.best == 0 || d * st.best < st.minDiff * p then st.(minDiff := d, best := p) else st;
    assert st1.worst == st.worst && st1.maxDiff == st.maxDiff;
    WorstStep(x, lo, hi, p, st.worst, st.maxDiff);
  }

  lemma {:induction false} SearchFromInv(x: seq<int>, lo: int, hi: int, p: int, st: Search)
    requires SearchInv(x, lo, hi, p, st)
    ensures SearchInv(x, lo, hi, hi + 1, SearchFrom(x, p, hi, st))
    decreases hi + 1 - p
  {
    if p <= hi {
      SearchStepInv(x, lo, hi, p, st);
      SearchFromInv(x, lo, hi, p + 1, SearchStep(st, p, Amdf(x, p)));
    }
  }

  /** A search result: the best period with its truncated difference per
      sample, and the worst difference per sample with the period it was
      found at (a local of the C, kept here so the result can be stated). */
  datatype PeriodMatch = PeriodMatch(period: int, minDiff: int, maxDiff: int, worst: int)

  /** The period in [minPeriod, maxPeriod] whose AMDF per sample is smallest
      (the shortest such period on ties), with the best and worst AMDF per
      sample, each truncated. */
  function FindPitchPeriodInRange(x: seq<int>, minPeriod: int, maxPeriod: int): (r: PeriodMatch)
    requires 1 <= minPeriod <= maxPeriod && 2 * maxPeriod <= |x|
    ensures minPeriod <= r.period <= maxPeriod
    ensures forall q | minPeriod <= q <= maxPeriod :: Amdf(x, r.period) * q <= Amdf(x, q) * r.period
    ensures forall q | minPeriod <= q < r.period :: Amdf(x, r.period) * q < Amdf(x, q) * r.period
    ensures r.minDiff == Amdf(x, r.period) / r.period
    ensures 0 <= r.minDiff <= r.maxDiff
    ensures || (r.worst == 255 && r.maxDiff == 0 && forall q | minPeriod <= q <= maxPeriod :: Amdf(x, q) == 0)
            || (&& minPeriod <= r.worst <= maxPeriod
                && r.maxDiff == Amdf(x, r.worst) / r.worst
                && (forall q | minPeriod <= q <= maxPeriod :: Amdf(x, q) * r.worst <= Amdf(x, r.worst) * q)
                && (forall q | minPeriod <= q < r.worst :: Amdf(x, q) * r.worst < Amdf(x, r.worst) * q))
  {
    var st := SearchFrom(x, minPeriod, maxPeriod, Search(0, 1, 255, 0));
    SearchMatch(x, minPeriod, maxPeriod, st);
    PeriodMatch(st.best, st.minDiff / st.best, st.maxDiff / st.worst, st.worst)
  }

  /** The scan from the source's initial state ends with the best and worst
      periods `FindPitchPeriodInRange` promises. */
  lemma SearchMatch(x: seq<int>, minPeriod: int, maxPeriod: int, st: Search)
    requires 1 <= minPeriod <= maxPeriod && 2 * maxPeriod <= |x|
    requires st == SearchFrom(x, minPeriod, maxPeriod, Search(0, 1, 255, 0))
    ensures minPeriod <= st.best <= maxPeriod && st.worst >= 1
    ensures forall q | minPeriod <= q <= maxPeriod :: Amdf(x, st.best) * q <= Amdf(x, q) * st.best
    ensures forall q | minPeriod <= q < st.best :: Amdf(x, st.best) * q < Amdf(x, q) * st.best
    ensures st.minDiff == Amdf(x, st.best)
    ensures 0 <= st.minDiff / st.best <= st.maxDiff / st.worst
    ensures || (st.worst == 255 && st.maxDiff == 0 && forall q | minPeriod <= q <= maxPeriod :: Amdf(x, q) == 0)
            || (&& minPeriod <= st.worst <= maxPeriod
                && st.maxDiff == Amdf(x, st.worst)
                && (forall q | minPeriod <= q <= maxPeriod :: Amdf(x, q) * st.worst <= Amdf(x, st.worst) * q)
                && (forall q | minPeriod <= q < st.worst :: Amdf(x, q) * st.worst < Amdf(x, st.worst) * q))
  {
    SearchFromInv(x, minPeriod, maxPeriod, minPeriod, Search(0, 1, 255, 0));
    SearchResult(x, minPeriod, maxPeriod, st);
    WorstResult(x, minPeriod, maxPeriod, st);
  }

  /** The inner loop of findPitchPeriodInRange: the magnitude difference of
      one period, summed sample by sample. */
  method PeriodDiff(x: seq<int>, period: int) returns (diff: int)
    requires period >= 1 && 2 * period <= |x|
    ensures diff == Amdf(x, period)
  {
    diff := 0;
    var i := 0;
    while i < period
      invariant 0 <= i <= period
      invariant diff == DiffSum(x, period, i)
    {
      diff := diff + Abs(x[i] - x[i + period]);
      i := i + 1;
    }
  }

  /** findPitchPeriodInRange with its two loops, best and worst kept in four
      locals as in the source: the same match as the recursive search. */
  method ScanPeriods(x: seq<int>, minPeriod: int, maxPeriod: int) returns (r: PeriodMatch)
    requires 1 <= minPeriod <= maxPeriod && 2 * maxPeriod <= |x|
    ensures r == FindPitchPeriodInRange(x, minPeriod, maxPeriod)
  {
    var bestPeriod, minDiff, worstPeriod, maxDiff := 0, 1, 255, 0;
    var period := minPeriod;
    while period <= maxPeriod
      invariant minPeriod <= period <= maxPeriod + 1
      invariant SearchFrom(x, period, maxPeriod, Search(bestPeriod, minDiff, worstPeriod, maxDiff))
                == SearchFrom(x, minPeriod, maxPeriod, Search(0, 1, 255, 0))
      decreases maxPeriod + 1 - period
    {
      var diff := PeriodDiff(x, period);
      if bestPeriod == 0 || diff * bestPeriod < minDiff * period {
        minDiff := diff;
        bestPeriod := period;
      }
      if diff * worstPeriod > maxDiff * period {
        maxDiff := diff;
        worstPeriod := period;
      }
      period := period + 1;
    }
    var st := Search(bestPeriod, minDiff, worstPeriod, maxDiff);
    SearchFromInv(x, minPeriod, maxPeriod, minPeriod, Search(0, 1, 255, 0));
    SearchResult(x, minPeriod, maxPeriod, st);
    WorstResult(x, minPeriod, maxPeriod, st);
    r := PeriodMatch(bestPeriod, minDiff / bestPeriod, maxDiff / worstPeriod, worstPeriod);
  }

  /** The worst period at the end of the scan: the earliest with the largest
      difference per sample, or the initial 255 when every difference is 0. */
  lemma WorstResult(x: seq<int>, lo: int, hi: int, st: Search)
    requires 1 <= lo <= hi && SearchInv(x, lo, hi, hi + 1, st)
    ensures st.worst >= 1
    ensures || (st.worst == 255 && st.maxDiff == 0 && forall q | lo <= q <= hi :: Amdf(x, q) == 0)
            || (&& lo <= st.worst <= hi && st.maxDiff == Amdf(x, st.worst)
                && (forall q | lo <= q <= hi :: Amdf(x, q) * st.worst <= Amdf(x, st.worst) * q)
                && (forall q | lo <= q < st.worst :: Amdf(x, q) * st.worst < Amdf(x, st.worst) * q))
  {
    assert WorstInv(x, lo, hi, hi + 1, st.worst, st.maxDiff);
    if !(lo <= st.worst <= hi && st.maxDiff == Amdf(x, st.worst)) {
      assert st.worst == 255 && st.maxDiff == 0;
      forall q | lo <= q <= hi ensures Amdf(x, q) == 0 {
        assert Amdf(x, q) * 255 <= 0 * q;
      }
    }
  }

  lemma SearchResult(x: seq<int>, lo: int, hi: int, st: Search)
    requires 1 <= lo <= hi && SearchInv(x, lo, hi, hi + 1, st)
    ensures lo <= st.best <= hi && st.worst >= 1 && st.minDiff == Amdf(x, st.best)
    ensures 0 <= st.minDiff / st.best <= st.maxDiff / st.worst
  {
    assert Amdf(x, st.best) * st.worst <= st.maxDiff * st.best;
    FloorRatioMono(Amdf(x, st.best), st.best, st.maxDiff, st.worst);
    DivLower(st.minDiff, st.best, 0);
  }

  // ------------------------------------------------------ previous period

  /** Whether the previously detected period should be used instead of the new
      one: never without a previous period or when the new match is perfect;
      when new periods are preferred, only if the new match is flat (worst at
      most three times best) and clearly worse than the previous one. */
  function PrevPeriodBetter(prevPeriod: int, prevMinDiff: int, minDiff: int, maxDiff: int,
                            preferNewPeriod: bool): (r: bool)
    ensures r <==> prevPeriod != 0 && minDiff != 0 &&
                   (if preferNewPeriod then maxDiff <= minDiff * 3 && minDiff * 2 > prevMinDiff * 3
                    else minDiff > prevMinDiff)
  {
    if minDiff == 0 || prevPeriod == 0 then false
    else if preferNewPeriod then
      if maxDiff > minDiff * 3 then false
      else if minDiff * 2 <= prevMinDiff * 3 then false
      else true
    else if minDiff <= prevMinDiff then false
    else true
  }

  /** Preferring the new period never makes the old one win where it would
      not have won otherwise, for non-negative differences. */
  lemma PreferNewIsStricter(prevPeriod: int, prevMinDiff: int, minDiff: int, maxDiff: int)
    requires prevMinDiff >= 0 && minDiff >= 0
    ensures PrevPeriodBetter(prevPeriod, prevMinDiff, minDiff, maxDiff, true) ==>
            PrevPeriodBetter(prevPeriod, prevMinDiff, minDiff, maxDiff, false)
  {
  }

  // ------------------------------------------------------------- detection

  /** The down-sampling factor of the coarse search. */
  function Skip(s: Stream): (r: int)
    requires Valid(s)
    ensures r >= 1
    ensures r > 1 ==> s.sampleRate > SONIC_AMDF_FREQ && s.quality == 0
  {
    if s.sampleRate > SONIC_AMDF_FREQ && s.quality == 0 then s.sampleRate / SONIC_AMDF_FREQ else 1
  }

  /** The coarse period range still contains at least one candidate and fits
      in the down-sampled buffer. */
  lemma CoarseRange(s: Stream, skip: int)
    requires Valid(s) && skip == Skip(s)
    ensures 1 <= s.minPeriod / skip <= s.maxPeriod / skip
    ensures 2 * (s.maxPeriod / skip) <= s.maxRequired / skip
  {
    PeriodFacts(s);
    DivMono(s.minPeriod, s.maxPeriod, skip);
    DoubleFloor(s.maxPeriod, skip);
    if skip > 1 {
      var sr := s.sampleRate;
      DivMulBounds(sr, SONIC_AMDF_FREQ);
      assert 10 * skip * SONIC_MAX_PITCH <= sr;
      DivLower(sr, SONIC_MAX_PITCH, 10 * skip);
      DivLower(s.minPeriod, skip, 10);
    }
  }

  datatype Detection = Detection(period: int, stream: Stream)

  /** The refined range around a coarse period: four down-sampling steps on
      either side, clamped to the stream's limits. */
  lemma RefinedRange(s: Stream, skip: int, coarse: int)
    requires Valid(s) && skip == Skip(s) && skip != 1
    requires s.minPeriod / skip <= coarse <= s.maxPeriod / skip
    ensures var p := coarse * skip;
            var lo := Max(p - 4 * skip, s.minPeriod);
            var hi := Min(p + 4 * skip, s.maxPeriod);
            s.minPeriod <= lo <= hi <= s.maxPeriod
  {
    PeriodFacts(s);
    var p := coarse * skip;
    MulLeMono(coarse, s.maxPeriod / skip, skip);
    MulLeMono(s.minPeriod / skip, coarse, skip);
    DivMulBounds(s.maxPeriod, skip);
    DivMulBounds(s.minPeriod, skip);
    assert p <= s.maxPeriod;
    assert s.minPeriod < p + skip;
  }

  /** The AMDF match the detector settles on: a direct search for mono audio
      at full resolution; otherwise a coarse search on the down-sampled mix,
      refined at full resolution within four coarse steps when down-sampling
      was applied. */
  function DetectedMatch(s: Stream, samples: seq<Frame>): (m: PeriodMatch)
    requires Valid(s) && FramesOk(samples, s.numChannels) && |samples| >= s.maxRequired
    ensures s.minPeriod <= m.period <= s.maxPeriod && m.minDiff >= 0
    ensures s.numChannels == 1 && Skip(s) == 1 ==>
              m == FindPitchPeriodInRange(Channel0(samples), s.minPeriod, s.maxPeriod)
  {
    var skip := Skip(s);
    if s.numChannels == 1 && skip == 1 then
      PeriodFacts(s);
      FindPitchPeriodInRange(Channel0(samples), s.minPeriod, s.maxPeriod)
    else if skip == 1 then
      CoarseSearch(s, samples, skip)
    else
      RefinedMatch(s, samples, skip, CoarseSearch(s, samples, skip).period)
  }

  /** The search over the down-sampled mix, in the coarse period range. */
  function CoarseSearch(s: Stream, samples: seq<Frame>, skip: int): (m: PeriodMatch)
    requires Valid(s) && FramesOk(samples, s.numChannels) && |samples| >= s.maxRequired
    requires skip == Skip(s)
    ensures s.minPeriod / skip <= m.period <= s.maxPeriod / skip && m.minDiff >= 0
  {
    PeriodFacts(s);
    CoarseRange(s, skip);
    var x := DownSample(samples, s.numChannels, skip, s.maxRequired);
    var lo := s.minPeriod / skip;
    var hi := s.maxPeriod / skip;
    assert 1 <= lo <= hi && 2 * hi <= |x|;
    FindPitchPeriodInRange(x, lo, hi)
  }

  /** The full-resolution search within four down-sampling steps of the
      coarse period. */
  function RefinedMatch(s: Stream, samples: seq<Frame>, skip: int, coarse: int): (m: PeriodMatch)
    requires Valid(s) && FramesOk(samples, s.numChannels) && |samples| >= s.maxRequired
    requires skip == Skip(s) && skip != 1
    requires s.minPeriod / skip <= coarse <= s.maxPeriod / skip
    ensures s.minPeriod <= m.period <= s.maxPeriod && m.minDiff >= 0
  {
    PeriodFacts(s);
    RefinedRange(s, skip, coarse);
    var p := coarse * skip;
    var lo := Max(p - 4 * skip, s.minPeriod);
    var hi := Min(p + 4 * skip, s.maxPeriod);
    if s.numChannels == 1 then FindPitchPeriodInRange(Channel0(samples), lo, hi)
    else FindPitchPeriodInRange(DownSample(samples, s.numChannels, 1, s.maxRequired), lo, hi)
  }

  /** Find the pitch period at the start of `samples`, and remember it and
      its difference in the stream for the next call. */
  function FindPitchPeriod(s: Stream, samples: seq<Frame>, preferNewPeriod: bool): (r: Detection)
    requires Valid(s) && FramesOk(samples, s.numChannels) && |samples| >= s.maxRequired
    ensures Valid(r.stream)
    ensures s.minPeriod <= r.period <= s.maxPeriod
    ensures r.stream == s.(prevPeriod := r.stream.prevPeriod, prevMinDiff := r.stream.prevMinDiff)
    ensures r.period == r.stream.prevPeriod || (r.period == s.prevPeriod && s.prevPeriod != 0)
    ensures var m := DetectedMatch(s, samples);
            && r.stream.prevPeriod == m.period && r.stream.prevMinDiff == m.minDiff
            && (PrevPeriodBetter(s.prevPeriod, s.prevMinDiff, m.minDiff, m.maxDiff, preferNewPeriod) ==>
                  r.period == s.prevPeriod)
            && (!PrevPeriodBetter(s.prevPeriod, s.prevMinDiff, m.minDiff, m.maxDiff, preferNewPeriod) ==>
                  r.period == m.period)
    ensures s.numChannels == 1 && Skip(s) == 1 ==>
              var x := Channel0(samples);
              forall q | s.minPeriod <= q <= s.maxPeriod ::
                Amdf(x, r.stream.prevPeriod) * q <= Amdf(x, q) * r.stream.prevPeriod
  {
    var m := DetectedMatch(s, samples);
    var keepOld := PrevPeriodBetter(s.prevPeriod, s.prevMinDiff, m.minDiff, m.maxDiff, preferNewPeriod);
    Detection(if keepOld then s.prevPeriod else m.period,
              s.(prevMinDiff := m.minDiff, prevPeriod := m.period))
  }
}
