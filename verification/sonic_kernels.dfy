/**
 * The sample-level kernels of the Sonic time-stretch engine (src/sonic.cpp):
 * volume scaling, the two overlap-add cross-fades and the sinc table of the
 * rate changer. Audio is a sequence of frames; a frame holds one 16-bit
 * sample per channel, which is how the interleaved `short` buffers of the
 * source are laid out.
 */
module SonicKernels {
  import opened Base
  import opened Arith

  /** One sample per channel. */
  type Frame = seq<int>

  /** The entries of the rate changer's sinc table. */
  const SINC_TABLE_SIZE: int := 601

  /** The range the table's entries occupy. */
  type SincValue = x: int | -6175 <= x <= 32767

  /** Entry k of the table: entry k % 50 of lobe k / 50, one lobe of 50
      entries per filter point, then the closing 0. */
  function SincEntry(k: int): (v: int)
    requires 0 <= k < SINC_TABLE_SIZE
    ensures -6175 <= v <= 32767
  {
    var j := k % 50;
    match k / 50
      case 0 => SincLobe0(j)
      case 1 => SincLobe1(j)
      case 2 => SincLobe2(j)
      case 3 => SincLobe3(j)
      case 4 => SincLobe4(j)
      case 5 => SincLobe5(j)
      case 6 => SincLobe6(j)
      case 7 => SincLobe7(j)
      case 8 => SincLobe8(j)
      case 9 => SincLobe9(j)
      case 10 => SincLobe10(j)
      case 11 => SincLobe11(j)
      case _ => 0
  }

  /** The lobes of the windowed sinc function, 50 samples each; an entry of
      a lobe's literal outside SincValue would be rejected where it stands. */
  function SincLobe0(j: int): (v: int)
    requires 0 <= j < 50
    ensures -6175 <= v <= 32767
  {
    var lobe: seq<SincValue> := [
      0, 0, 0, 0, 0, 0, 0, -1, -1, -2,
      -2, -3, -4, -6, -7, -9, -10, -12, -14, -17,
      -19, -21, -24, -26, -29, -32, -34, -37, -40, -42,
      -44, -47, -48, -50, -51, -52, -53, -53, -53, -52,
      -50, -48, -46, -43, -39, -34, -29, -22, -16, -8];
    lobe[j]
  }

  function SincLobe1(j: int): (v: int)
    requires 0 <= j < 50
    ensures -6175 <= v <= 32767
  {
    var lobe: seq<SincValue> := [
      0, 9, 19, 29, 41, 53, 65, 79, 92, 107,
      121, 137, 152, 168, 184, 200, 215, 231, 247, 262,
      276, 291, 304, 317, 328, 339, 348, 357, 363, 369,
      372, 374, 375, 373, 369, 363, 355, 345, 332, 318,
      300, 281, 259, 234, 208, 178, 147, 113, 77, 39];
    lobe[j]
  }

  function SincLobe2(j: int): (v: int)
    requires 0 <= j < 50
    ensures -6175 <= v <= 32767
  {
    var lobe: seq<SincValue> := [
      0, -41, -85, -130, -177, -225, -274, -324, -375, -426,
      -478, -530, -581, -632, -682, -731, -779, -825, -870, -912,
      -951, -989, -1023, -1053, -1080, -1104, -1123, -1138, -1149, -1154,
      -1155, -1151, -1141, -1125, -1105, -1078, -1046, -1007, -963, -913,
      -857, -796, -728, -655, -576, -492, -403, -309, -210, -107];
    lobe[j]
  }

  function SincLobe3(j: int): (v: int)
    requires 0 <= j < 50
    ensures -6175 <= v <= 32767
  {
    var lobe: seq<SincValue> := [
      0, 111, 225, 342, 462, 584, 708, 833, 958, 1084,
      1209, 1333, 1455, 1575, 1693, 1807, 1916, 2022, 2122, 2216,
      2304, 2384, 2457, 2522, 2579, 2625, 2663, 2689, 2706, 2711,
      2705, 2687, 2657, 2614, 2559, 2491, 2411, 2317, 2211, 2092,
      1960, 1815, 1658, 1489, 1308, 1115, 912, 698, 474, 241];
    lobe[j]
  }

  function SincLobe4(j: int): (v: int)
    requires 0 <= j < 50
    ensures -6175 <= v <= 32767
  {
    var lobe: seq<SincValue> := [
      0, -249, -506, -769, -1037, -1310, -1586, -1864, -2144, -2424,
      -2703, -2980, -3254, -3523, -3787, -4043, -4291, -4529, -4757, -4972,
      -5174, -5360, -5531, -5685, -5819, -5935, -6029, -6101, -6150, -6175,
      -6175, -6149, -6096, -6015, -5905, -5767, -5599, -5401, -5172, -4912,
      -4621, -4298, -3944, -3558, -3141, -2693, -2214, -1705, -1166, -597];
    lobe[j]
  }

  function SincLobe5(j: int): (v: int)
    requires 0 <= j < 50
    ensures -6175 <= v <= 32767
  {
    var lobe: seq<SincValue> := [
      0, 625, 1277, 1955, 2658, 3386, 4135, 4906, 5697, 6506,
      7332, 8173, 9027, 9893, 10769, 11654, 12544, 13439, 14335, 15232,
      16128, 17019, 17904, 18782, 19649, 20504, 21345, 22170, 22977, 23763,
      24527, 25268, 25982, 26669, 27327, 27953, 28547, 29107, 29632, 30119,
      30569, 30979, 31349, 31678, 31964, 32208, 32408, 32565, 32677, 32744];
    lobe[j]
  }

  function SincLobe6(j: int): (v: int)
    requires 0 <= j < 50
    ensures -6175 <= v <= 32767
  {
    var lobe: seq<SincValue> := [
      32767, 32744, 32677, 32565, 32408, 32208, 31964, 31678, 31349, 30979,
      30569, 30119, 29632, 29107, 28547, 27953, 27327, 26669, 25982, 25268,
      24527, 23763, 22977, 22170, 21345, 20504, 19649, 18782, 17904, 17019,
      16128, 15232, 14335, 13439, 12544, 11654, 10769, 9893, 9027, 8173,
      7332, 6506, 5697, 4906, 4135, 3386, 2658, 1955, 1277, 625];
    lobe[j]
  }

  function SincLobe7(j: int): (v: int)
    requires 0 <= j < 50
    ensures -6175 <= v <= 32767
  {
    var lobe: seq<SincValue> := [
      0, -597, -1166, -1705, -2214, -2693, -3141, -3558, -3944, -4298,
      -4621, -4912, -5172, -5401, -5599, -5767, -5905, -6015, -6096, -6149,
      -6175, -6175, -6150, -6101, -6029, -5935, -5819, -5685, -5531, -5360,
      -5174, -4972, -4757, -4529, -4291, -4043, -3787, -3523, -3254, -2980,
      -2703, -2424, -2144, -1864, -1586, -1310, -1037, -769, -506, -249];
    lobe[j]
  }

  function SincLobe8(j: int): (v: int)
    requires 0 <= j < 50
    ensures -6175 <= v <= 32767
  {
    var lobe: seq<SincValue> := [
      0, 241, 474, 698, 912, 1115, 1308, 1489, 1658, 1815,
      1960, 2092, 2211, 2317, 2411, 2491, 2559, 2614, 2657, 2687,
      2705, 2711, 2706, 2689, 2663, 2625, 2579, 2522, 2457, 2384,
      2304, 2216, 2122, 2022, 1916, 1807, 1693, 1575, 1455, 1333,
      1209, 1084, 958, 833, 708, 584, 462, 342, 225, 111];
    lobe[j]
  }

  function SincLobe9(j: int): (v: int)
    requires 0 <= j < 50
    ensures -6175 <= v <= 32767
  {
    var lobe: seq<SincValue> := [
      0, -107, -210, -309, -403, -492, -576, -655, -728, -796,
      -857, -913, -963, -1007, -1046, -1078, -1105, -1125, -1141, -1151,
      -1155, -1154, -1149, -1138, -1123, -1104, -1080, -1053, -1023, -989,
      -951, -912, -870, -825, -779, -731, -682, -632, -581, -530,
      -478, -426, -375, -324, -274, -225, -177, -130, -85, -41];
    lobe[j]
  }

  function SincLobe10(j: int): (v: int)
    requires 0 <= j < 50
    ensures -6175 <= v <= 32767
  {
    var lobe: seq<SincValue> := [
      0, 39, 77, 113, 147, 178, 208, 234, 259, 281,
      300, 318, 332, 345, 355, 363, 369, 373, 375, 374,
      372, 369, 363, 357, 348, 339, 328, 317, 304, 291,
      276, 262, 247, 231, 215, 200, 184, 168, 152, 137,
      121, 107, 92, 79, 65, 53, 41, 29, 19, 9];
    lobe[j]
  }

  function SincLobe11(j: int): (v: int)
    requires 0 <= j < 50
    ensures -6175 <= v <= 32767
  {
    var lobe: seq<SincValue> := [
      0, -8, -16, -22, -29, -34, -39, -43, -46, -48,
      -50, -52, -53, -53, -53, -52, -51, -50, -48, -47,
      -44, -42, -40, -37, -34, -32, -29, -26, -24, -21,
      -19, -17, -14, -12, -10, -9, -7, -6, -4, -3,
      -2, -2, -1, -1, 0, 0, 0, 0, 0, 0];
    lobe[j]
  }

  /** The first n entries of the windowed sinc function sampled at 50
      points per lobe over 12 lobes; with n = SINC_TABLE_SIZE, the table the
      rate changer reads. */
  function SincTable(n: int): (r: seq<int>)
    requires 0 <= n <= SINC_TABLE_SIZE
    ensures |r| == n && forall k | 0 <= k < n :: r[k] == SincEntry(k)
    ensures n == SINC_TABLE_SIZE ==> TableOk(r)
  {
    seq(n, SincEntry)
  }

  /** A table of the shape the filter reads: 601 entries in the sinc range. */
  predicate TableOk(table: seq<int>)
  {
    |table| == SINC_TABLE_SIZE && forall k | 0 <= k < |table| :: -6175 <= table[k] <= 32767
  }

  predicate FrameOk(f: Frame, channels: int)
  {
    |f| == channels && forall c | 0 <= c < |f| :: IsInt16(f[c])
  }

  predicate FramesOk(fs: seq<Frame>, channels: int)
  {
    forall i | 0 <= i < |fs| :: FrameOk(fs[i], channels)
  }

  lemma FramesOkAppend(a: seq<Frame>, b: seq<Frame>, channels: int)
    requires FramesOk(a, channels) && FramesOk(b, channels)
    ensures FramesOk(a + b, channels)
  {
    forall i | 0 <= i < |a + b|
      ensures FrameOk((a + b)[i], channels)
    {
      if i < |a| { assert (a + b)[i] == a[i]; } else { assert (a + b)[i] == b[i - |a|]; }
    }
  }

  lemma FramesOkSlice(a: seq<Frame>, lo: int, hi: int, channels: int)
    requires FramesOk(a, channels) && 0 <= lo <= hi <= |a|
    ensures FramesOk(a[lo..hi], channels)
  {
    forall i | 0 <= i < hi - lo
      ensures FrameOk(a[lo..hi][i], channels)
    {
      assert a[lo..hi][i] == a[lo + i];
    }
  }

  // ---------------------------------------------------------------- volume

  /** The volume factor as the 12-bit fixed-point integer the scaler
      multiplies by: volume * 4096 truncated toward zero, so unit volume is
      exactly 4096. */
  function FixedPointVolume(volume: real): (r: int)
    ensures volume >= 0.0 ==> 0 <= r && r as real <= volume * 4096.0 < r as real + 1.0
    ensures volume < 0.0 ==> r <= 0 && r as real - 1.0 < volume * 4096.0 <= r as real
    ensures volume == 1.0 ==> r == 4096
  {
    Trunc(volume * 4096.0)
  }

  /** One sample scaled by a fixed-point volume: the 32-bit product, shifted
      right by 12, saturated to the symmetric range [-32767, 32767]. */
  function ScaleSample(x: int, fixedVolume: int): (r: int)
    ensures -32767 <= r <= 32767
    ensures IsInt32(x * fixedVolume) && x * fixedVolume >= 32768 * 4096 ==> r == 32767
    ensures IsInt32(x * fixedVolume) && x * fixedVolume < -32767 * 4096 ==> r == -32767
    ensures IsInt32(x * fixedVolume) && -32767 * 4096 <= x * fixedVolume < 32768 * 4096 ==>
              r * 4096 <= x * fixedVolume < r * 4096 + 4096
  {
    var value := ShiftRight(Wrap32(x * fixedVolume), 12);
    assert Pow2(12) == 4096;
    Clip(value, -32767, 32767)
  }

  /** Scale every sample of every frame by the same volume. */
  function ScaleSamples(frames: seq<Frame>, volume: real): (r: seq<Frame>)
    ensures |r| == |frames|
    ensures forall i | 0 <= i < |r| :: |r[i]| == |frames[i]|
    ensures forall i, c | 0 <= i < |r| && 0 <= c < |r[i]| ::
              r[i][c] == ScaleSample(frames[i][c], FixedPointVolume(volume))
    ensures forall i | 0 <= i < |r| :: FrameOk(r[i], |r[i]|)
  {
    var fv := FixedPointVolume(volume);
    seq(|frames|, i requires 0 <= i < |frames| =>
      seq(|frames[i]|, c requires 0 <= c < |frames[i]| => ScaleSample(frames[i][c], fv)))
  }

  /** A 16-bit sample times a fixed-point volume below 16.0 in magnitude
      never overflows the 32-bit product. */
  lemma ScaleProductFits(x: int, fixedVolume: int)
    requires IsInt16(x) && -65536 < fixedVolume < 65536
    ensures IsInt32(x * fixedVolume)
  {
    var ax := Abs(x);
    var av := Abs(fixedVolume);
    assert ax <= 32768 && av <= 65535;
    MulLeMono(ax, 32768, av);
    MulLeMono(av, 65535, 32768);
    assert Abs(x * fixedVolume) == ax * av;
  }

  /** Unit volume leaves every sample unchanged, except that the one value
      outside the symmetric range, -32768, is raised to -32767. */
  lemma ScaleUnitVolume(frames: seq<Frame>)
    ensures FixedPointVolume(1.0) == 4096
    ensures forall i, c | 0 <= i < |frames| && 0 <= c < |frames[i]| && IsInt16(frames[i][c]) ::
              ScaleSamples(frames, 1.0)[i][c] == (if frames[i][c] == -32768 then -32767 else frames[i][c])
  {
    assert FixedPointVolume(1.0) == 4096;
    forall i, c | 0 <= i < |frames| && 0 <= c < |frames[i]| && IsInt16(frames[i][c])
      ensures ScaleSamples(frames, 1.0)[i][c] == (if frames[i][c] == -32768 then -32767 else frames[i][c])
    {
      var x := frames[i][c];
      ScaleProductFits(x, 4096);
    }
  }

  /** Scaling is monotone in the sample: louder input never gives quieter
      output, as long as the products fit in 32 bits. */
  lemma ScaleSampleMonotone(x: int, y: int, fixedVolume: int)
    requires x <= y && fixedVolume >= 0
    requires IsInt32(x * fixedVolume) && IsInt32(y * fixedVolume)
    ensures ScaleSample(x, fixedVolume) <= ScaleSample(y, fixedVolume)
  {
    MulLeMono(x, y, fixedVolume);
    assert Pow2(12) == 4096;
    DivMono(x * fixedVolume, y * fixedVolume, 4096);
  }

  // ------------------------------------------------------------ cross-fades

  /** A mix of two values from [lo, hi] with non-negative weights totalling
      n, or at most n when the range contains zero, lies in [lo * n, hi * n]. */
  lemma MixSumBounds(d: int, u: int, a: int, b: int, n: int, lo: int, hi: int)
    requires lo <= d <= hi && lo <= u <= hi && a >= 0 && b >= 0
    requires a + b == n || (a + b <= n && lo <= 0 <= hi)
    ensures lo * n <= d * a + u * b <= hi * n
  {
    var da := d * a;
    var ub := u * b;
    MulLeMono(lo, d, a);
    MulLeMono(d, hi, a);
    MulLeMono(lo, u, b);
    MulLeMono(u, hi, b);
    Distrib(lo, a, b);
    Distrib(hi, a, b);
    var rest := n - (a + b);
    Distrib(lo, a + b, rest);
    Distrib(hi, a + b, rest);
    if rest > 0 {
      MulLeMono(lo, 0, rest);
      MulLeMono(0, hi, rest);
    }
  }

  lemma Distrib(x: int, a: int, b: int)
    ensures x * a + x * b == x * (a + b)
  {
  }

  /** Two 16-bit samples mixed with non-negative weights a and b whose total is
      at most n, then divided by n: the result is again a 16-bit sample and
      no louder than the louder input. */
  lemma WeightedMix(d: int, u: int, a: int, b: int, n: int)
    requires IsInt16(d) && IsInt16(u) && a >= 0 && b >= 0 && a + b <= n && n > 0
    ensures IsInt16(TruncDiv(d * a + u * b, n))
    ensures Abs(TruncDiv(d * a + u * b, n)) <= Max(Abs(d), Abs(u))
  {
    var s := d * a + u * b;
    var m := Max(Abs(d), Abs(u));
    MixSumBounds(d, u, a, b, n, -32768, 32767);
    TruncDivBounds(s, n, -32768, 32767);
    MixSumBounds(d, u, a, b, n, -m, m);
    TruncDivBounds(s, n, -m, m);
  }

  /** The cross-fade sum of step t of n lies between the two inputs scaled by n. */
  lemma CrossfadeBounds(d: int, u: int, n: int, t: int)
    requires 0 <= t < n
    ensures Min(d, u) <= TruncDiv(d * (n - t) + u * t, n) <= Max(d, u)
  {
    MixSumBounds(d, u, n - t, t, n, Min(d, u), Max(d, u));
    TruncDivBounds(d * (n - t) + u * t, n, Min(d, u), Max(d, u));
  }

  /** The linear cross-fade weight at step t of n: ramp-down weighted n - t,
      ramp-up weighted t, truncated division by n. */
  function Crossfade(d: int, u: int, n: int, t: int): (r: int)
    requires 0 <= t < n
    ensures Min(d, u) <= r <= Max(d, u)
    ensures t == 0 ==> r == d
  {
    CrossfadeBounds(d, u, n, t);
    if t == 0 then TruncDivExact(d, n); TruncDiv(d * n, n) else
    TruncDiv(d * (n - t) + u * t, n)
  }

  /** Cross-fade n frames from `rampDown` into `rampUp`. */
  function OverlapAdd(n: nat, channels: int, rampDown: seq<Frame>, rampUp: seq<Frame>): (r: seq<Frame>)
    requires |rampDown| >= n && |rampUp| >= n
    requires FramesOk(rampDown, channels) && FramesOk(rampUp, channels)
    ensures |r| == n && FramesOk(r, channels)
    ensures forall t, c | 0 <= t < n && 0 <= c < channels ::
              Min(rampDown[t][c], rampUp[t][c]) <= r[t][c] <= Max(rampDown[t][c], rampUp[t][c])
    ensures n > 0 ==> r[0] == rampDown[0]
  {
    seq(n, t requires 0 <= t < n =>
      seq(|rampDown[t]|, c requires 0 <= c < |rampDown[t]| => Crossfade(rampDown[t][c], rampUp[t][c], n, t)))
  }

  /** Cross-fading a stretch of frames into itself reproduces it. */
  lemma OverlapAddSame(n: nat, channels: int, x: seq<Frame>)
    requires |x| >= n && FramesOk(x, channels)
    ensures OverlapAdd(n, channels, x, x) == x[..n]
  {
    var r := OverlapAdd(n, channels, x, x);
    forall t | 0 <= t < n
      ensures r[t] == x[t]
    {
      assert |r[t]| == channels == |x[t]|;
    }
  }

  /** The magnitude of sample (i, c) of `fs`, or 0 when there is none. */
  function Magnitude(fs: seq<Frame>, i: int, c: int): nat
  {
    if 0 <= i < |fs| && 0 <= c < |fs[i]| then (if fs[i][c] < 0 then -fs[i][c] else fs[i][c]) else 0
  }

  /** Output step t of the separated cross-fade, before the store into a short:
      the ramp-down alone during the first `separation` steps, both ramps while
      t < n, then the ramp-up alone. */
  function SeparatedMix(n: int, separation: int, d: int, u: int, t: int): int
    requires n >= 1
  {
    if t < separation then TruncDiv(d * (n - t), n)
    else if t < n then TruncDiv(d * (n - t) + u * (t - separation), n)
    else TruncDiv(u * (t - separation), n)
  }

  /** Sample c of output step t: the ramp-down is read while t is below n or
      the separation, the ramp-up from step `separation` on. */
  function SeparatedSample(n: int, separation: int, rampDown: seq<Frame>, rampUp: seq<Frame>,
                           t: int, c: int): int
    requires n >= 1 && separation >= 0 && 0 <= t < n + separation && c >= 0
    requires |rampDown| >= Max(n, separation) && |rampUp| >= n
    requires forall i | 0 <= i < |rampDown| :: |rampDown[i]| > c
    requires forall i | 0 <= i < |rampUp| :: |rampUp[i]| > c
  {
    Wrap16(SeparatedMix(n, separation, if t < Max(n, separation) then rampDown[t][c] else 0,
                        if t >= separation then rampUp[t - separation][c] else 0, t))
  }

  /** Cross-fade with the ramp-up delayed by `separation` frames; the result
      is n + separation frames long. Each value is stored into a short. */
  function OverlapAddWithSeparation(n: int, channels: int, separation: int,
                                    rampDown: seq<Frame>, rampUp: seq<Frame>): (r: seq<Frame>)
    requires n >= 1 && separation >= 0 && channels >= 0
    requires |rampDown| >= Max(n, separation) && |rampUp| >= n
    requires FramesOk(rampDown, channels) && FramesOk(rampUp, channels)
    ensures |r| == n + separation && FramesOk(r, channels)
    ensures separation > 0 ==> r[0] == rampDown[0]
    ensures separation <= n ==>
              forall t, c | 0 <= t < n + separation && 0 <= c < channels ::
                Abs(r[t][c]) <= Max(if t < n then Magnitude(rampDown, t, c) else 0,
                                    if t >= separation then Magnitude(rampUp, t - separation, c) else 0)
  {
    var r := seq(n + separation, t requires 0 <= t < n + separation =>
      seq(channels, c requires 0 <= c < channels => SeparatedSample(n, separation, rampDown, rampUp, t, c)));
    SeparationBound(n, channels, separation, rampDown, rampUp, r);
    SeparationStart(n, channels, separation, rampDown, rampUp, r);
    r
  }

  lemma TruncDivExact(d: int, n: int)
    requires n > 0
    ensures TruncDiv(d * n, n) == d
  {
    TruncDivBounds(d * n, n, d, d);
  }

  lemma SeparationStart(n: int, channels: int, separation: int,
                        rampDown: seq<Frame>, rampUp: seq<Frame>, r: seq<Frame>)
    requires n >= 1 && separation >= 0 && channels >= 0
    requires |rampDown| >= Max(n, separation) && |rampUp| >= n
    requires FramesOk(rampDown, channels) && FramesOk(rampUp, channels)
    requires |r| == n + separation
    requires forall t | 0 <= t < n + separation :: |r[t]| == channels
    requires forall t, c | 0 <= t < n + separation && 0 <= c < channels ::
               r[t][c] == SeparatedSample(n, separation, rampDown, rampUp, t, c)
    ensures separation > 0 ==> r[0] == rampDown[0]
  {
    if separation > 0 {
      forall c | 0 <= c < channels ensures r[0][c] == rampDown[0][c] {
        TruncDivExact(rampDown[0][c], n);
      }
    }
  }

  lemma SeparationBound(n: int, channels: int, separation: int,
                        rampDown: seq<Frame>, rampUp: seq<Frame>, r: seq<Frame>)
    requires n >= 1 && separation >= 0 && channels >= 0
    requires |rampDown| >= Max(n, separation) && |rampUp| >= n
    requires FramesOk(rampDown, channels) && FramesOk(rampUp, channels)
    requires |r| == n + separation
    requires forall t | 0 <= t < n + separation :: |r[t]| == channels
    requires forall t, c | 0 <= t < n + separation && 0 <= c < channels ::
               r[t][c] == SeparatedSample(n, separation, rampDown, rampUp, t, c)
    ensures FramesOk(r, channels)
    ensures separation <= n ==>
              forall t, c | 0 <= t < n + separation && 0 <= c < channels ::
                Abs(r[t][c]) <= Max(if t < n then Magnitude(rampDown, t, c) else 0,
                                    if t >= separation then Magnitude(rampUp, t - separation, c) else 0)
  {
    if separation <= n {
      forall t, c | 0 <= t < n + separation && 0 <= c < channels
        ensures Abs(r[t][c]) <= Max(if t < n then Magnitude(rampDown, t, c) else 0,
                                    if t >= separation then Magnitude(rampUp, t - separation, c) else 0)
      {
        var d := if t < n then rampDown[t][c] else 0;
        var u := if t >= separation then rampUp[t - separation][c] else 0;
        var a := if t < n then n - t else 0;
        var b := if t >= separation then t - separation else 0;
        assert d * a + u * b == (if t < separation then d * (n - t)
                                 else if t < n then d * (n - t) + u * (t - separation)
                                 else u * (t - separation));
        WeightedMix(d, u, a, b, n);
      }
    }
  }
}
