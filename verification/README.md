# CTTV Player core in Dafny

A Dafny model of the logic at the heart of the CTTV video player. It covers four parts:

- **The Sonic time-stretch engine** (`src/sonic.cpp`). This is what plays audio at 0.5x to 2x speed. It models:
  - the stream record with its four frame buffers and their capacities;
  - buffer bookkeeping;
  - AMDF pitch-period detection with its hysteresis;
  - the overlap-add and volume kernels;
  - the speed loop (skip or repeat a pitch period);
  - pitch re-synthesis;
  - the rational-rate resampler with its 12-point windowed-sinc filter and its two phase counters;
  - the processing pipeline and flush.
- **The playback controller's decision rules** (`src/videoctl.cpp`):
  - clocks and the choice of master clock;
  - frame timing and the external clock's speed controller;
  - audio sample-count correction;
  - the speed ladder, the seek latch and pause toggling;
  - the waveform ring;
  - the reader's back-pressure test;
  - the audio-device fallback sequence;
  - the volume clamp;
  - how the audio callback rebuilds and uses its Sonic stream.
- **The playlist** (`src/playlist.cpp`):
  - the extension filter;
  - de-duplication by file name;
  - play-on-add;
  - wrap-around next and previous;
  - the saved list.
- **The control bar** (`src/ctrlbar.cpp`):
  - the hours:minutes:seconds display;
  - the progress and volume sliders;
  - the mute toggle;
  - the stop reset.

Modelling choices:

- **State as values.** Every piece of state is an immutable datatype and every operation is a pure function that returns the new state. A C `short *` buffer with a count becomes a `seq<Frame>`, where a `Frame` is one sample per channel. The allocated capacity stays a separate field, so the growth rule can be stated.
- **Numbers.**
  - A C `float` or `double` is a `real`.
  - A NaN is the `None` of an `Option<real>`.
  - C's truncating `/` and `%` are `TruncDiv` and `TruncRem`.
  - 32-bit wrap-around, where the source relies on it, is written out with `Wrap32`.
- **Allocation.** Memory allocation never fails in the model. The failure returns that depend only on allocation are therefore not reachable.
- **Outcomes.** An outcome that ends or stops the program is a constructor of the result type:
  - `Exited` is the resampler's `exit(1)` consistency check;
  - `OutsideTable` is a sinc-table index that would leave the table;
  - `Unbounded` is an old rate halved to 0;
  - `ReadsPastBuffer` is a pitch re-synthesis that would read past the frames held;
  - `NullItem` is a playlist button that asks for a row the list does not have, so the handler dereferences a null item.
- **Outside inputs.** The current time, the audio device's answer and the file system's answer are parameters.

## Model

| member | source | states |
|---|---|---|
| SonicStream.PeriodFacts | src/sonic.cpp:319-324 | a valid stream has 1 <= minPeriod <= maxPeriod and maxRequired = 2 * maxPeriod >= 2 |
| SonicStream.Silence | src/sonic.cpp:328-357 | calloc'd buffers: n frames of the right width, every sample 0 |
| SonicStream.CreateStream | src/sonic.cpp:370-394 | a fresh stream is valid, its buffers are empty with room for maxRequired frames, its factors are all 1, chord pitch and quality are off, and the phase and remembered period are 0 |
| SonicStream.AllocateStreamBuffers | src/sonic.cpp:315-365 | minPeriod = rate/400, maxPeriod = rate/65 and maxRequired = 2 * maxPeriod; every capacity is maxRequired; phase and remembered period reset; the buffer counts are left as they were |
| SonicStream.SetSampleRateAsWritten | src/sonic.cpp:407-413 | the sample-rate setter as written: a reallocation that keeps the old input count |
| SonicStream.SetNumChannelsAsWritten | src/sonic.cpp:426-432 | the channel setter as written: a reallocation that keeps the old input count |
| SonicStream.SetSampleRateKeepsStaleCount | src/sonic.cpp:407-413 | 1000 mono frames buffered at 44100 Hz, then a switch to 8000 Hz: the count exceeds the new 246-frame capacity, so the stream is no longer valid |
| SonicStream.SetNumChannelsKeepsStaleCount | src/sonic.cpp:426-432 | 2000 stereo frames buffered, then a switch to mono: the count exceeds the 1356-frame capacity |
| SonicStream.ResetForFormat | src/sonic.cpp:403-432 | a format change drops every buffered frame and keeps every factor and mode |
| SonicStream.SetSampleRate | src/sonic.cpp:403-413 | corrected sample-rate setter: a valid stream at the new rate with empty buffers and the same channel count |
| SonicStream.SetNumChannels | src/sonic.cpp:422-432 | corrected channel setter: a valid stream with the new width, empty buffers and the same rate |
| SonicStream.SettersKeepStream | src/sonic.cpp:177-271 | every setter keeps the stream valid; the rate setter and the corrected pitch setter reset both phase counters; the pitch setter as written and the speed setter leave the phase alone |
| SonicStream.SetSpeed | src/sonic.cpp:177-182 | keeps a valid stream valid; the speed is set and nothing else changes |
| SonicStream.SetPitchAsWritten | src/sonic.cpp:192-197 | keeps a valid stream valid; the pitch is set and nothing else changes, the resampler phase included |
| SonicStream.SetPitch | src/sonic.cpp:192-197 | corrected pitch setter: keeps a valid stream valid, sets the pitch and zeroes both phase counters; nothing else changes |
| SonicStream.SetRate | src/sonic.cpp:207-218 | keeps a valid stream valid, sets the rate and zeroes both phase counters; nothing else changes |
| SonicStream.SetChordPitch | src/sonic.cpp:230-236 | keeps a valid stream valid; the chord-pitch flag is set and nothing else changes |
| SonicStream.SetQuality | src/sonic.cpp:247-253 | keeps a valid stream valid; the quality is set and nothing else changes |
| SonicStream.SetVolume | src/sonic.cpp:265-271 | keeps a valid stream valid; the volume is set and nothing else changes |
| SonicStream.GrownSize | src/sonic.cpp:436-468 | new capacity >= count + n and >= the old capacity; it stays put exactly when the frames fit, and otherwise becomes size + size/2 + n |
| SonicStream.EnlargeInputBuffer | src/sonic.cpp:453-468 | room for n more input frames; the capacity is kept when they fit and otherwise becomes size + size/2 + n; nothing else changes |
| SonicStream.EnlargeOutputBuffer | src/sonic.cpp:436-449 | room for n more output frames; the capacity is kept when they fit and otherwise becomes size + size/2 + n; nothing else changes |
| SonicStream.AddShortSamples | src/sonic.cpp:496-512 | the input becomes old input ++ samples; only the input and its capacity change |
| SonicStream.RemoveInputSamples | src/sonic.cpp:540-551 | the first `position` frames go; the rest keep their order |
| SonicStream.InputFifo | src/sonic.cpp:496-551 | removing as many frames as were there before an append leaves exactly the appended frames |
| SonicStream.CopyToOutput | src/sonic.cpp:555-567 | the output becomes old output ++ samples; only the output and its capacity change |
| SonicStream.CopyInputToOutput | src/sonic.cpp:573-589 | copies min(remainingInputToCopy, maxRequired) input frames from `position`, verbatim, and lowers the remaining count by that much |
| SonicStream.ReadShortFromStream | src/sonic.cpp:631-653 | returns min(output count, maxSamples) frames; an empty output yields 0; the frames returned followed by the remaining output are the old output |
| SonicStream.ReadSplits | src/sonic.cpp:631-653 | reading a then b frames returns what one read of a + b returns and leaves the same stream |
| SonicStream.MoveNewSamplesToPitchBuffer | src/sonic.cpp:966-989 | output frames from `orig` on move to the end of the pitch buffer; the output keeps its first `orig` frames; nothing is lost |
| SonicStream.RemovePitchSamples | src/sonic.cpp:992-1008 | the first n pitch frames go; the rest keep their order |
| SonicKernels.SincEntry | src/sonic.cpp:62-111 | entry k of the 601-entry sinc table lies in [-6175, 32767] |
| SonicKernels.SincTable | src/sonic.cpp:58-111 | entry k of the first n is the windowed sinc value SincEntry(k); the full table has SINC_TABLE_SIZE = 601 entries, every one in the range the filter arithmetic relies on |
| SonicKernels.ScaleSample | src/sonic.cpp:150-165 | (x * fixedVolume) >> 12 saturated to [-32767, 32767], never wrapped; the result brackets the product divided by 4096 when it is in range |
| SonicKernels.ScaleSamples | src/sonic.cpp:145-167 | every sample of every frame is scaled by the same fixed-point volume; shape is kept |
| SonicKernels.ScaleProductFits | src/sonic.cpp:158 | a 16-bit sample times a volume below 16 never overflows 32 bits |
| SonicKernels.ScaleUnitVolume | src/sonic.cpp:145-167 | at volume 1 the fixed volume is 4096 and every sample is unchanged, except that -32768 is raised to -32767 |
| SonicKernels.FixedPointVolume | src/sonic.cpp:151 | volume * 4096 truncated toward zero: non-negative and within one below it for a non-negative volume, non-positive and within one above it otherwise; exactly 4096 at volume 1 |
| SonicKernels.ScaleSampleMonotone | src/sonic.cpp:158-164 | a louder sample never gives a quieter result |
| SonicKernels.WeightedMix | src/sonic.cpp:940-958 | a weighted mix of two shorts, divided with truncation, fits in a short and is no louder than the louder input |
| SonicKernels.CrossfadeBounds | src/sonic.cpp:912-924 | the truncated cross-fade sum lies between the two inputs |
| SonicKernels.Crossfade | src/sonic.cpp:912-924 | a cross-faded sample lies in [min(d, u), max(d, u)], and step 0 is the ramp-down sample |
| SonicKernels.OverlapAdd | src/sonic.cpp:897-926 | n frames, each sample between its ramp-down and ramp-up samples; frame 0 is rampDown[0] |
| SonicKernels.OverlapAddSame | src/sonic.cpp:897-926 | cross-fading a stretch into itself reproduces it |
| SonicKernels.OverlapAddWithSeparation | src/sonic.cpp:929-963 | n + separation frames; frame 0 is rampDown[0] when the separation is positive; for separation <= n every sample is no louder than the inputs it mixes |
| SonicPitch.BlockMean | src/sonic.cpp:740-754 | the truncated mean of `skip` frames across all channels fits in a short |
| SonicPitch.DownSample | src/sonic.cpp:735-756 | maxRequired / skip values, each a 16-bit block mean |
| SonicPitch.DownSampleMonoIdentity | src/sonic.cpp:735-756 | for mono audio, down-sampling by 1 gives the first maxRequired samples back |
| SonicPitch.Channel0 | src/sonic.cpp:855-857 | the samples the direct mono search reads: the first channel of each frame |
| SonicPitch.FindPitchPeriodInRange | src/sonic.cpp:760-799 | the period in [min, max] whose AMDF per sample is smallest, by the cross-multiplied test; the earliest wins ties; minDiff is its truncated difference per sample; maxDiff is the truncated difference per sample of the earliest worst period, or 0 with worst = 255 when every difference is 0 |
| SonicPitch.PeriodDiff | src/sonic.cpp:774-782 | the inner loop's running sum is the magnitude difference of the period |
| SonicPitch.ScanPeriods | src/sonic.cpp:760-799 | the two loops with their four locals compute the same match as the recursive search, so FindPitchPeriodInRange's promises hold for them |
| SonicPitch.WorstResult | src/sonic.cpp:773-797 | at the end of the scan, worst is the earliest period with the largest AMDF per sample, or the initial 255 with maxDiff 0 when every difference is 0 |
| SonicPitch.SearchStepAsWritten | src/sonic.cpp:786-797 | one candidate compared with `unsigned long` products reduced modulo 2^32: the best and worst stay put or become the candidate |
| SonicPitch.StepAsWrittenExact | src/sonic.cpp:786-797 | while no product reaches 2^32 the comparisons as written pick what the exact ones pick |
| SonicPitch.WrappedProductTakesWorsePeriod | src/sonic.cpp:786-790 | best 600 with difference 1000, then candidate 601 with difference 35791395 (reachable from 16-bit samples): the wrapped product takes 601, the exact test keeps 600 |
| SonicPitch.SearchFromInv | src/sonic.cpp:773-797 | the loop invariant: after the candidates in [lo, p), the best so far beats or ties every one and strictly beats earlier ones |
| SonicPitch.SearchResult | src/sonic.cpp:773-798 | the search ends with lo <= best <= hi, a positive worst period and 0 <= minDiff/best <= maxDiff/worst |
| SonicPitch.SearchMatch | src/sonic.cpp:767-798 | the scan from bestPeriod 0, minDiff 1, worstPeriod 255 and maxDiff 0 ends on the earliest best and the earliest worst period, with their raw differences |
| SonicPitch.PrevPeriodBetter | src/sonic.cpp:803-834 | the old period wins iff neither minDiff nor prevPeriod is 0 and either (new preferred) maxDiff <= 3 * minDiff and 2 * minDiff > 3 * prevMinDiff, or (not preferred) minDiff > prevMinDiff |
| SonicPitch.PreferNewIsStricter | src/sonic.cpp:818-831 | with non-negative differences, preferring the new period never lets the old one win where it would otherwise lose |
| SonicPitch.Skip | src/sonic.cpp:848-854 | the down-sampling factor is >= 1, and above 1 only above 4000 Hz at quality 0 |
| SonicPitch.CoarseRange | src/sonic.cpp:860-862 | the coarse range [minPeriod/skip, maxPeriod/skip] is non-empty and fits the down-sampled buffer |
| SonicPitch.RefinedRange | src/sonic.cpp:865-873 | the refinement window of four coarse steps each side, clamped, is a non-empty sub-range of the stream's limits |
| SonicPitch.CoarseSearch | src/sonic.cpp:858-862 | the coarse period lies in the coarse range |
| SonicPitch.RefinedMatch | src/sonic.cpp:863-882 | the refined period lies within the stream's limits |
| SonicPitch.DetectedMatch | src/sonic.cpp:851-883 | the detected period lies in [minPeriod, maxPeriod]; for mono audio without down-sampling it is the direct search over the samples |
| SonicPitch.FindPitchPeriod | src/sonic.cpp:839-894 | the detected period and its minDiff are remembered as prevPeriod and prevMinDiff, and nothing else changes; the old period is returned exactly when PrevPeriodBetter holds for the old memory and the new minDiff and maxDiff, and the detected one otherwise; the result lies in [minPeriod, maxPeriod]; for direct mono search the remembered period is AMDF-optimal |
| SonicSpeed.SkipPitchPeriod | src/sonic.cpp:1165-1187 | emits count <= period frames that cross-fade the first period into the second; only the output side changes |
| SonicSpeed.SkipCount | src/sonic.cpp:1174-1179 | the frames a skip step cross-fades: 0 <= newSamples <= period |
| SonicSpeed.InsertPitchPeriod | src/sonic.cpp:1190-1215 | emits the period verbatim, then count <= period frames cross-fading the second period back into the first |
| SonicSpeed.InsertCount | src/sonic.cpp:1200-1205 | the frames an insert step cross-fades: 0 <= newSamples <= period |
| SonicSpeed.SkipCycleRatio | src/sonic.cpp:1174-1179 | one skip cycle consumes C and emits E frames with 0 <= C - speed * E < speed - 1: the speed is met to within a frame |
| SonicSpeed.SkipFastRatio | src/sonic.cpp:1174-1175 | the same for speeds of 2 or more |
| SonicSpeed.SkipSlowRatio | src/sonic.cpp:1176-1178 | the same for speeds between 1 and 2 |
| SonicSpeed.InsertCycleRatio | src/sonic.cpp:1200-1205 | one insert cycle has 0 <= speed * E - C < 1 - speed |
| SonicSpeed.InsertSlowRatio | src/sonic.cpp:1200-1201 | the same below speed 0.5 |
| SonicSpeed.InsertFastRatio | src/sonic.cpp:1202-1204 | the same from speed 0.5 on |
| SonicSpeed.CountsPositive | src/sonic.cpp:1174-1205 | between speeds 0.5 and 2 both steps emit a whole period |
| SonicSpeed.SkipCountZero | src/sonic.cpp:1174-1175 | a skip step emits nothing iff period < speed - 1 |
| SonicSpeed.InsertCountZero | src/sonic.cpp:1200-1201 | an insert step emits nothing iff speed < 0.5 and period * speed < 1 - speed |
| SonicSpeed.SpeedStep | src/sonic.cpp:1233-1246 | one pass either copies scheduled input verbatim, or skips a period (advancing at least twice what it emits) or repeats one (emitting more than it advances); between 0.5 and 2 a pass always makes progress |
| SonicSpeed.SkipStep | src/sonic.cpp:1237-1241 | the skip pass advances past the two periods it read, 0 < advance <= maxRequired, and emits at most half of that |
| SonicSpeed.InsertStep | src/sonic.cpp:1237-1245 | the insert pass advances by exactly what it cross-faded and emits more than that |
| SonicSpeed.SpeedLoop | src/sonic.cpp:1231-1252 | on success fewer than maxRequired input frames remain and they are the input's tail; on failure the input is untouched; between 0.5 and 2 it succeeds |
| SonicSpeed.SpeedContinue | src/sonic.cpp:1247-1252 | the loop after one pass keeps the loop's promise |
| SonicSpeed.ChangeSpeed | src/sonic.cpp:1218-1253 | with fewer than maxRequired input frames nothing changes; otherwise consumed frames are removed and the rest kept in order; the output only grows |
| SonicSpeed.NewPeriod | src/sonic.cpp:1030 | period/pitch shrinks for pitch >= 1, grows below, and is at most 3 * period from pitch 1/3 on |
| SonicSpeed.PitchFrames | src/sonic.cpp:1033-1045 | NewPeriod(period) frames; at pitch 1 exactly the period read |
| SonicSpeed.PitchStep | src/sonic.cpp:1027-1047 | one pass appends NewPeriod frames and changes only the output side; it cannot overrun from pitch 1/3 up; at pitch 1 it appends the period verbatim |
| SonicSpeed.PitchLoop | src/sonic.cpp:1027-1049 | on success the pitch buffer is a suffix shorter than maxRequired, the output extends the old one, success is certain from pitch 1/3 up, and at pitch 1 nothing is lost or invented |
| SonicSpeed.PitchContinue | src/sonic.cpp:1027-1049 | the loop after one pass keeps the loop's promise |
| SonicSpeed.LoopResultLink | src/sonic.cpp:1027-1049 | a pass followed by the rest of the loop composes to the promise of the loop |
| SonicSpeed.AdjustPitch | src/sonic.cpp:1011-1050 | with no new output nothing changes; otherwise the output before `orig` is kept, the pitch buffer ends below maxRequired, and input and settings are untouched; success is certain from pitch 1/3 up |
| SonicSpeed.PitchOneConserves | src/sonic.cpp:1011-1050 | at pitch 1, output ++ pitch buffer afterwards is old output[..orig] ++ old pitch buffer ++ the new frames |
| SonicRate.SincCoefficientIn | src/sonic.cpp:1053-1062 | the weight interpolates the two table entries around the exact position: between twice their minimum and twice their maximum, and the indices stay inside the table |
| SonicRate.SincAtTablePoint | src/sonic.cpp:1053-1062 | at ratio 0 the weight is exactly twice table entry 50 * i |
| SonicRate.GetSign | src/sonic.cpp:1065-1067 | 1 iff the value is >= 0, -1 iff it is negative |
| SonicRate.WeightedSampleFits | src/sonic.cpp:1091 | a short times a sinc weight fits in 32 bits |
| SonicRate.Weights | src/sonic.cpp:1088-1089 | the 12 weights are the sinc coefficients for the phase |
| SonicRate.AccumulateTo | src/sonic.cpp:1088-1096 | the running total stays a 32-bit value and the overflow count stays within the points added |
| SonicRate.InterpolateWith | src/sonic.cpp:1097-1105 | the filter's output always fits in a short |
| SonicRate.HighHalf | src/sonic.cpp:1105 | total >> 16 is total / 65536, a short |
| SonicRate.AddTermExact | src/sonic.cpp:1092-1095 | a term that keeps the exact sum in range wraps nothing and counts no overflow |
| SonicRate.AccumulateExact | src/sonic.cpp:1088-1096 | without a partial-sum overflow the accumulator holds the exact sum |
| SonicRate.InterpolateExact | src/sonic.cpp:1070-1106 | without overflow the sample is the exact filter sum divided by 2^16, rounded down: the clipping never fires |
| SonicRate.InterpolateSilence | src/sonic.cpp:1070-1106 | silence in gives silence out |
| SonicRate.Interpolate | src/sonic.cpp:1070-1106 | the interpolated sample always fits in a short |
| SonicRate.HalveRates | src/sonic.cpp:1123-1126 | both rates end at most 2^14, and no halving happens iff both already are |
| SonicRate.HalveRatesExact | src/sonic.cpp:1123-1126 | each rate is the original divided by the same power of two, and one halving fewer would leave one above 2^14 |
| SonicRate.NewRates | src/sonic.cpp:1114-1126 | newRate = trunc(sampleRate / rate) and oldRate = sampleRate, halved together into [0, 2^14] |
| SonicRate.RateFrame | src/sonic.cpp:1140-1145 | one interpolated sample per channel |
| SonicRate.EmitOne | src/sonic.cpp:1137-1147 | one frame appended to the output; the new phase moves on by one; nothing else changes |
| SonicRate.EmitFrames | src/sonic.cpp:1135-1148 | the inner loop appends exactly as many frames as the new phase advanced, keeps the earlier output, and stops with (old + 1) * n <= new * o |
| SonicRate.AdvancePhase | src/sonic.cpp:1149-1158 | the old phase moves on by one, and both phases wrap to 0 when it reaches the old rate |
| SonicRate.EmitFramesPhase | src/sonic.cpp:1135-1148 | from a consistent phase the inner loop ends normally, just past the next old position scaled to the new rate |
| SonicRate.RateLoopShape | src/sonic.cpp:1134-1160 | the outer loop keeps the output written before it, keeps input and settings, and leaves the last 12 pitch frames |
| SonicRate.RateLoop | src/sonic.cpp:1134-1160 | whenever the outer loop completes, the pitch buffer holds exactly its last SINC_FILTER_POINTS frames (all of it when shorter); its output and phase laws are RateLoopShape, RateLoopPhase and RateLoopCounts |
| SonicRate.RateLoopPhase | src/sonic.cpp:1134-1159 | from a consistent phase the outer loop never reaches exit(1), keeps the phase consistent, and keeps old and new frame counts in the ratio n : o |
| SonicRate.RateLoopPhaseFrom | src/sonic.cpp:1134-1159 | the same, naming the counts at the end: old frames advanced by the positions processed, new frames by the output written |
| SonicRate.RatePositionStep | src/sonic.cpp:1134-1158 | one outer position from a consistent, linked phase: the inner loop and the wrap check pass, the phase stays consistent and the link moves on by one old frame and the frames written |
| SonicRate.RateLoopEnd | src/sonic.cpp:1159-1160 | when the filter no longer fits, the loop only trims the pitch buffer and the phase and link are kept |
| SonicRate.AdvanceKeepsPhase | src/sonic.cpp:1149-1158 | after the inner loop, the wrap check cannot fail and the advanced phase stays consistent |
| SonicRate.PhaseAdvance | src/sonic.cpp:1149-1157 | the arithmetic of one old step, through the wrap |
| SonicRate.WrapExact | src/sonic.cpp:1150-1156 | when the old phase completes a cycle the new phase is exactly the new rate |
| SonicRate.BracketFromLink | src/sonic.cpp:1134-1159 | a consistent phase and the link give the bracket on the frame counts |
| SonicRate.RateLoopCounts | src/sonic.cpp:1134-1160 | a consistent phase gives (op + P) * n <= (np + E) * o < (op + P) * n + o, for P old frames consumed and E new frames emitted |
| SonicRate.CountedFromLink | src/sonic.cpp:1134-1160 | the counts are in the rate when the loop ends with a consistent phase linked to the old frames consumed and the new frames written |
| SonicRate.AdjustRateConsistent | src/sonic.cpp:1109-1162 | from a consistent phase adjustRate succeeds, keeps the phase consistent and keeps the output before `orig` |
| SonicRate.AdjustRateShape | src/sonic.cpp:1109-1162 | whenever it completes, adjustRate keeps the output before `orig`, the input and the settings |
| SonicRate.AdjustRate | src/sonic.cpp:1109-1162 | with no new output the stream is returned unchanged; otherwise, when it completes, the pitch buffer keeps the last SINC_FILTER_POINTS frames of the old pitch buffer followed by the new output; the rest of its meaning is AdjustRateConsistent, AdjustRateShape and AdjustRateCounts |
| SonicRate.AdjustRateCounts | src/sonic.cpp:1109-1162 | the frames adjustRate emits are those consumed times newRate/oldRate, to within a frame, counted from the phase it started at |
| SonicRate.AheadPhaseExits | src/sonic.cpp:1150-1156 | a new phase ahead of the new rate hits the exit(1) check once enough frames are held |
| SonicRate.PitchChangeStopsProcess | src/sonic.cpp:192-197 | a pitch change through the setter as written, mid-stream and outside chord mode, makes the next adjustRate exit |
| SonicRate.PitchChangeKeepsRunning | src/sonic.cpp:207-218 | after the corrected pitch setter, adjustRate always completes |
| SonicProcess.SpeedStage | src/sonic.cpp:1259-1281 | near speed 1 the input is appended verbatim and emptied; otherwise changeSpeed's promise holds; between 0.5 and 2 it succeeds |
| SonicProcess.AdjustStage | src/sonic.cpp:1283-1294 | chord mode re-synthesises pitch, and otherwise the rate changes by rate * pitch; each is skipped at factor 1 |
| SonicProcess.VolumeStage | src/sonic.cpp:1296-1299 | away from volume 1, exactly the samples from `orig` on are scaled; earlier output is untouched |
| SonicProcess.ProcessStreamInput | src/sonic.cpp:1256-1299 | the stream stays usable with the same settings and an extended output; on success fewer than maxRequired input frames remain, as the input's tail; a failed speed stage leaves the input as it was |
| SonicProcess.WriteShortToStream | src/sonic.cpp:1314-1323 | the frames are appended to the input, then processed |
| SonicProcess.ProcessUnity | src/sonic.cpp:1268-1299 | with every factor at 1 the input moves verbatim to the end of the output and the input empties |
| SonicProcess.WriteReadRoundTrip | src/sonic.cpp:496-512 | at unit factors, writing N frames and reading everything back yields old output ++ old input ++ the frames, and leaves the buffers empty |
| SonicProcess.PlayerSpeedSucceeds | src/sonic.cpp:1256-1299 | pitch and rate 1 with a speed in [0.5, 2], the player's settings, always succeed |
| SonicProcess.ExpectedOutput | src/sonic.cpp:697-702 | the expected output count is at least the current one |
| SonicProcess.PadWithSilence | src/sonic.cpp:705-710 | 2 * maxRequired frames of silence are appended to the input |
| SonicProcess.TrimAndClear | src/sonic.cpp:715-722 | the output is cut to the expected count if longer, and the input, pitch buffer and copy count are cleared |
| SonicProcess.FlushStream | src/sonic.cpp:694-723 | on success the output is at most the expected count, input and pitch buffer are empty, and the settings are kept |
| SonicProcess.FlushUnity | src/sonic.cpp:694-723 | at unit factors with nothing held for pitch, a flush outputs the buffered input verbatim and cuts off all the added silence |
| SonicProcess.PlayerFlushSucceeds | src/sonic.cpp:694-723 | at the player's settings a flush succeeds and empties input and pitch buffer |
| VideoClock.Minus | src/videoctl.cpp:581 | the NaN-propagating difference: defined iff both sides are, and then exact |
| VideoClock.GetClock | src/videoctl.cpp:377-392 | NaN when the queue serial differs; exactly pts while paused |
| VideoClock.SetClockAt | src/videoctl.cpp:395-401 | pts, serial and time are stored with drift = pts - time; speed and pause state are kept |
| VideoClock.SetClock | src/videoctl.cpp:404-408 | set_clock_at with the current time: a reading taken at once for the same serial gives back pts; speed and pause state are kept |
| VideoClock.SetClockSpeed | src/videoctl.cpp:411-415 | the speed changes; the serial and pause state are kept |
| VideoClock.InitClock | src/videoctl.cpp:418-424 | speed 1, running, serial -1, NaN reading |
| VideoClock.SetThenGet | src/videoctl.cpp:377-401 | a clock read at the moment it was set reads what it was set to |
| VideoClock.ClockRunsAtSpeed | src/videoctl.cpp:377-401 | d seconds after being set to p, a running clock reads p + d * speed |
| VideoClock.ReadAtUpdate | src/videoctl.cpp:377-401 | a running clock read at the moment it was last updated reads its drift plus that moment |
| VideoClock.PausedClockStandsStill | src/videoctl.cpp:381-382 | repeated reads of a paused clock are equal |
| VideoClock.SpeedChangeIsContinuous | src/videoctl.cpp:411-415 | a speed change does not make the clock jump |
| VideoClock.SyncBoundsDivergence | src/videoctl.cpp:427-434 | after syncing to a slave with a number, the clock is within AV_NOSYNC_THRESHOLD of it, either untouched or re-seated at the slave's reading |
| VideoClock.SyncClockToSlave | src/videoctl.cpp:427-434 | when the slave reads a number and this clock reads NaN or differs by more than AV_NOSYNC_THRESHOLD, the clock takes the slave's serial and reads the slave's reading at once; otherwise it is untouched |
| VideoSync.MasterSyncType | src/videoctl.cpp:468-485 | video falls back to audio without a video stream; audio falls back to external without an audio stream; anything else is external |
| VideoSync.MasterClock | src/videoctl.cpp:488-505 | the reading of the master's clock |
| VideoSync.SyncThreshold | src/videoctl.cpp:584 | the delay clamped into [AV_SYNC_THRESHOLD_MIN, AV_SYNC_THRESHOLD_MAX] |
| VideoSync.CorrectDelay | src/videoctl.cpp:584-592 | NaN or a gap >= max_frame_duration leaves the delay; within that, a lag of at least the threshold gives exactly max(0, delay + diff), shorter than any positive delay; a lead of at least the threshold gives delay + diff when delay > AV_SYNC_FRAMEDUP_THRESHOLD and 2 * delay otherwise, longer than any positive delay; a difference within the threshold leaves the delay; a non-negative delay stays non-negative |
| VideoSync.ComputeTargetDelay | src/videoctl.cpp:574-599 | the delay is unchanged when video is master, and otherwise corrected by video minus master; the result is >= 0 for a delay >= 0 |
| VideoSync.FrameDuration | src/videoctl.cpp:602-613 | 0 across serials; otherwise the pts gap, or the nominal duration when the gap is NaN, <= 0 or > max_frame_duration, divided by the playback rate |
| VideoSync.FrameDurationBounded | src/videoctl.cpp:602-613 | within a serial the duration is positive and, times the rate, at most max(max_frame_duration, nominal) |
| VideoSync.ExternalClockSpeedBounded | src/videoctl.cpp:508-525 | the speed stays in [SPEED_MIN, SPEED_MAX]; starving slows it, saturated speeds it up, and otherwise it steps toward 1, never touching a speed of exactly 1 |
| VideoSync.ExternalClockSpeed | src/videoctl.cpp:508-525 | the clock is left alone exactly when no queue starves, not all are full and the speed is 1; a starving queue never takes the speed below SPEED_MIN, full queues never above SPEED_MAX |
| VideoSync.CheckExternalClockSpeed | src/videoctl.cpp:508-525 | only the external clock changes; it shows the same reading, now at the new speed |
| VideoSync.SynchronizeAudio | src/videoctl.cpp:1026-1066 | the count is unchanged when audio is master; the result lies in [nb * 90 / 100, nb * 110 / 100]; a NaN or too-large difference resets the average; a correction happens only once AUDIO_DIFF_AVG_NB measurements are in |
| VideoSync.SampleBounds | src/videoctl.cpp:1052-1053 | a non-negative count lies inside its own correction window |
| VideoControl.OnSpeed | src/videoctl.cpp:456-465 | adds SCALE, wraps to MIN past MAX, always flags the change; the rate stays on the ladder |
| VideoControl.SetPlaybackRate | src/videoctl.cpp:624-628 | stores the rate and flags the change |
| VideoControl.SpeedLadderCycles | src/videoctl.cpp:456-465 | from 0.5 the button gives 1, 1.5 and 2, and the fourth press returns to 0.5 |
| VideoControl.IsNormalPlaybackRate | src/videoctl.cpp:669-678 | normal exactly when the rate lies strictly within 0.01 of 1; a normal rate lies on the ladder |
| VideoControl.OnlyUnitRateIsNormal | src/videoctl.cpp:669-678 | of the four rates the speed button reaches, only 1 counts as normal, so the callback converts at 0.5, 1.5 and 2 |
| VideoControl.StreamSeek | src/videoctl.cpp:528-538 | with no request pending: records pos and rel, clears the byte flag and raises the request; otherwise nothing changes |
| VideoControl.FirstSeekWins | src/videoctl.cpp:528-538 | a pending request is never overwritten |
| VideoControl.StreamTogglePause | src/videoctl.cpp:541-555 | the player and all three clocks take the opposite pause state; the external clock keeps its reading; resuming adds the paused time to the frame timer |
| VideoControl.TogglePause | src/videoctl.cpp:558-562 | the pause state flips, frame-step mode is left and the external clock keeps its reading |
| VideoControl.ExternalReseat | src/videoctl.cpp:549-554 | re-seating a clock at its reading and then pausing or resuming it does not change the reading |
| VideoControl.OnPause | src/videoctl.cpp:2367-2377 | with a file open, the pause state flips and frame-step mode ends; with none, nothing happens |
| VideoControl.ToggleTwiceRestoresPause | src/videoctl.cpp:541-555 | two toggles restore the pause state of the player and of every clock |
| VideoControl.PauseFreezesExternalClock | src/videoctl.cpp:549-554 | the external clock reads the same on resume as when paused |
| VideoControl.ResumeCountsPauseForVideo | src/videoctl.cpp:543-549 | when the video clock is not paused by the reader, a pause counts as played time for it |
| VideoControl.Newest | src/videoctl.cpp:1007-1023 | the slot just before the write index |
| VideoControl.WriteSample | src/videoctl.cpp:1007-1023 | one sample is written at the index, which moves on by one modulo the ring size; every other slot is kept |
| VideoControl.WriteSamplesIndex | src/videoctl.cpp:1007-1023 | after n samples the index has moved on by n modulo the size, and the newest slot holds the last sample |
| VideoControl.RunIsSampleBySample | src/videoctl.cpp:1013-1020 | a run that fits before the ring's end, copied in one go, is the same as writing it sample by sample |
| VideoControl.WriteSamplesAppend | src/videoctl.cpp:1007-1023 | writing a then b is writing a ++ b |
| VideoControl.UpdateSampleDisplay | src/videoctl.cpp:1007-1023 | the chunked copy with wrap equals the sample-by-sample ring write |
| VideoControl.EnoughPacketsMonotone | src/videoctl.cpp:1566-1571 | more packets or a longer known duration never turn "enough" into "not enough" |
| VideoControl.HasEnoughPackets | src/videoctl.cpp:1566-1571 | an absent or aborted stream or a cover picture has enough; a present queue with at most MIN_FRAMES packets has not; more than MIN_FRAMES packets with unknown duration is enough |
| VideoControl.ReaderWaits | src/videoctl.cpp:1787-1791 | an infinite buffer never waits; more than MAX_QUEUE_SIZE bytes in all always waits otherwise; within that size the reader waits only when every queue has enough |
| VideoControl.StarvingQueueKeepsReader | src/videoctl.cpp:1787-1791 | a present audio queue with at most MIN_FRAMES packets keeps the reader reading while the total size is within MAX_QUEUE_SIZE |
| VideoControl.PlayVolume | src/videoctl.cpp:2175-2183 | a percent in [0, 1] gives an SDL volume in [0, 128] |
| VideoControl.VolumePercent | src/videoctl.cpp:2233-2235 | an SDL volume in [0, 128] reports a percent in [0, 1] |
| VideoControl.VolumeRoundTrip | src/videoctl.cpp:2175-2235 | a reported percent fed back as the volume gives the same volume |
| VideoControl.UpdateVolume | src/videoctl.cpp:2222-2236 | the result is clamped into [0, SDL_MIX_MAXVOLUME] |
| VideoControl.VolumeStepProgresses | src/videoctl.cpp:2222-2236 | a step never gets stuck: below the top a step up raises the volume, above 0 a step down lowers it |
| VideoAudio.RateIndexFrom | src/videoctl.cpp:1342-1343 | the first fallback index is the highest standard rate below the wanted one, or 0 |
| VideoAudio.OpenLoop | src/videoctl.cpp:1351-1367 | the retry loop terminates; an open format was accepted and is the wanted rate or a fallback; giving up means the wanted channel count was refused at every fallback rate |
| VideoAudio.AudioOpenFallback | src/videoctl.cpp:1310-1367 | an invalid rate or channel count is rejected at once; an opened format was accepted by the device at the wanted rate or a lower standard one |
| VideoAudio.LowerRates | src/videoctl.cpp:1316-1343 | the fallback rates are standard rates below the wanted one |
| VideoAudio.AudioOpenFirstTryAndExhaustive | src/videoctl.cpp:1310-1367 | an accepted first try is used as is; failure means every lower standard rate was refused at the wanted channel count |
| VideoAudio.StereoOnlyDeviceFallsBack | src/videoctl.cpp:1351-1367 | a stereo-only 48 kHz device opens a 6-channel 96 kHz request at 2 channels and 48 kHz |
| VideoAudio.HigherRatesAreNeverTried | src/videoctl.cpp:1342-1367 | a device that plays only 48 kHz cannot be opened for 44.1 kHz |
| VideoAudio.SpeedStream | src/videoctl.cpp:1222-1228 | the callback's stream: fresh, at the device format, speed = playback rate, pitch and rate 1 |
| VideoAudio.RebuildIfChanged | src/videoctl.cpp:1212-1229 | a flagged change clears the flag and replaces the stream; otherwise nothing changes |
| VideoAudio.ConvertBuffer | src/videoctl.cpp:1230-1281 | at normal rate, or after a decode error, the buffer plays as decoded; otherwise a successful write plays everything the stream has output and leaves it empty, a refused write plays the decoded buffer, and a failing stream stops the program |
| VideoAudio.ReadyAfterRebuild | src/videoctl.cpp:1212-1229 | a rebuild keeps the callback's stream ready for the current rate |
| VideoAudio.RefillBuffer | src/videoctl.cpp:1212-1281 | a refill never stops the program and keeps the stream ready; away from normal rate it plays exactly the output of writing the decoded frames to the (possibly rebuilt) stream |
| VideoAudio.OnSpeedKeepsReady | src/videoctl.cpp:456-465 | a speed-button press keeps the callback's state ready |
| Playlist.Lower | src/playlist.cpp:147-153 | ASCII lower case, letter by letter, same length |
| Playlist.NameStart | src/playlist.cpp:159 | the file name starts after the last '/' |
| Playlist.FileName | src/playlist.cpp:159 | a suffix of the path with no '/' |
| Playlist.FileNameFollowsSlash | src/playlist.cpp:159 | the file name is the whole path or follows a '/': the longest '/'-free suffix |
| Playlist.FindItem | src/playlist.cpp:160 | the first row whose text is exactly the name; None iff no row shows it |
| Playlist.AddFile | src/playlist.cpp:144-176 | unsupported extensions and already-listed names leave the list unchanged; otherwise the item (file name, path) is appended |
| Playlist.AddFileInvariant | src/playlist.cpp:144-176 | adding keeps the earlier items, adds at most one, keeps names distinct and every item made from a supported path |
| Playlist.AddFileFinds | src/playlist.cpp:159-175 | after adding a supported file, its name is on the list |
| Playlist.AddFileIdempotent | src/playlist.cpp:159-175 | adding the same file twice adds it once |
| Playlist.PlayRow | src/playlist.cpp:118-123 | a row on the list is played by its path and becomes the current row; any other row is the null-item dereference |
| Playlist.AddFileAndPlay | src/playlist.cpp:179-212 | adds as OnAddFile does, then plays the row showing the file name: the new last row, or else the first row already showing it, even on a list that shows a name twice |
| Playlist.SameNamePlaysListedPath | src/playlist.cpp:194-211 | a file whose name is already listed plays the listed path, even from another folder |
| Playlist.ExtensionFilterIgnoresCase | src/playlist.cpp:147-153 | "Clip.MKV" and "a.3Gp" pass the filter |
| Playlist.EndsWithListed | src/playlist.cpp:147-153 | ending with any listed extension is enough |
| Playlist.NoDotNoMovie | src/playlist.cpp:147-157 | a name without a dot is always ignored |
| Playlist.IsSupportedMovie | src/playlist.cpp:147-153 | a name is accepted exactly when it ends, in any case, with one of .mkv, .rmvb, .mp4, .avi, .flv, .wmv, .3gp |
| Playlist.EndsWithAnyIff | src/playlist.cpp:147-153 | the chain of endsWith tests holds exactly when one of them does |
| Playlist.ForwardPlay | src/playlist.cpp:234-250 | from the last row to 0, otherwise one row on, playing the row reached; it ends on the null item exactly when the list is empty or the current row is below -1 or past the end |
| Playlist.BackwardPlay | src/playlist.cpp:215-231 | from row 0 to the last row, otherwise one row back, playing the row reached; it ends on the null item exactly when the list is empty or the current row is negative or more than one past the end |
| Playlist.ForwardBackwardInverse | src/playlist.cpp:215-250 | back undoes forward and forward undoes back |
| Playlist.EmptyListDereferencesNull | src/playlist.cpp:215-250 | on an empty list both buttons ask for a row that is not there, and the double-click handler they call (lines 118-123) dereferences the null item |
| Playlist.ForwardCycles | src/playlist.cpp:234-250 | n forward steps from row i land on row (i + n) mod count |
| Playlist.SavePlaylist | src/playlist.cpp:18-31 | every item's path, in order |
| Playlist.LoadPlaylist | src/playlist.cpp:61-93 | every loaded item is (file name, path) of a saved path that exists, with at most as many items as saved paths |
| Playlist.LoadKeepsExisting | src/playlist.cpp:72-84 | the loaded paths are exactly the saved paths whose files exist, each as often as it was saved, in the saved order |
| Playlist.SaveLoadRoundTrip | src/playlist.cpp:18-93 | a list built by adding files comes back unchanged from its saved paths while the files exist |
| CtrlBar.SplitSeconds | src/ctrlbar.cpp:84-88 | h * 3600 + m * 60 + s = n; for n >= 0 the minutes and seconds lie in [0, 60); below a day h < 24 |
| CtrlBar.SplitValid | src/ctrlbar.cpp:84-88 | the split of n is a valid QTime exactly when 0 <= n < 86400 |
| CtrlBar.SetTime | src/ctrlbar.cpp:88-91 | a valid time is shown; an invalid one is ignored and the edit keeps what it showed |
| CtrlBar.OnVideoTotalSeconds | src/ctrlbar.cpp:79-92 | the total is remembered; below a day it is shown split, as a valid time; otherwise the display keeps the old time |
| CtrlBar.OnVideoPlaySeconds | src/ctrlbar.cpp:95-108 | below a day the position is shown split, otherwise the display keeps the old time; the slider is at trunc(n / total * MAX) within the film |
| CtrlBar.EndShowsTotal | src/ctrlbar.cpp:79-108 | at the end of the film the slider is full and, for a film shorter than a day, the play time equals the total time |
| CtrlBar.SliderValue | src/ctrlbar.cpp:113 | setValue with a double truncates, within the slider's range |
| CtrlBar.OnVideopVolume | src/ctrlbar.cpp:111-128 | the percent becomes the last volume, and the muted glyph shows iff the percent is 0 |
| CtrlBar.OnVolumeSliderValueChanged | src/ctrlbar.cpp:172-178 | emits exactly value / maximum, in [0, 1], shows it without moving the slider, and shows the muted glyph iff the slider is at 0 |
| CtrlBar.SliderEventSettles | src/ctrlbar.cpp:172-178 | a second slider event at the same position emits the same percent and changes nothing |
| CtrlBar.OnVolumeButtonClicked | src/ctrlbar.cpp:187-201 | mute sets the slider to 0 and emits 0; unmute puts the slider at last volume * MAX_SLIDER_VALUE and emits the last volume; only the glyph and the slider change |
| CtrlBar.MuteUnmuteRoundTrip | src/ctrlbar.cpp:187-201 | mute then unmute gives the bar back as it was |
| CtrlBar.VolumeShownCanBeMuted | src/ctrlbar.cpp:111-128 | every non-zero percent shown leaves the bar ready for that round trip |
| CtrlBar.OnPauseStat | src/ctrlbar.cpp:131-144 | the play glyph shows exactly while paused, and nothing else on the bar changes |
| CtrlBar.PauseStatLastWins | src/ctrlbar.cpp:131-144 | of two pause reports the last decides the bar, and reporting the state already shown changes nothing |
| CtrlBar.OnStopFinished | src/ctrlbar.cpp:147-155 | slider at 0, both times equal, play glyph shown; the volume side is untouched; the total in seconds is kept |
| CtrlBar.StopShowsZero | src/ctrlbar.cpp:147-155 | after a stop the times read as 0 seconds split |

## Left out

- FFmpeg and SDL plumbing is not modelled:
  - the reader and decoder threads;
  - the packet and frame queues;
  - stream open and close;
  - texture upload and rendering;
  - swr conversion;
  - the audio callback's mixing;
  - the display geometry.

  These are foreign calls and threads. The controller's rules take their results as fields or parameters.
- Concurrency and locking are left out. Clocks are single-threaded values.
- Float rounding is not modelled. `float` and `double` arithmetic is exact over the reals, and a C float-to-int conversion is truncation toward zero. This covers the speed formulas of skip/insertPitchPeriod, period / pitch, the flush estimate and the fixed-point volume.
- The float sample path is left out, as float conversion. The callback uses sonicWriteFloatToStream and sonicReadFloatFromStream when the device format is AUDIO_F32 (src/videoctl.cpp:1238-1243, 1262-1266, 1392-1394); the model follows the 16-bit path, which does the same processing on shorts. The unsigned-char variants are left out for the same reason.
- Allocation failure is not modelled. calloc and realloc always succeed, so the `return 0` paths that depend only on them are not reached.
- Sample rates below 400 Hz are left out. Below that, minPeriod is 0 and the source divides by zero, so a valid stream requires sampleRate >= 400.
- The sine overlap variant is left out, and so is avePower. Neither is used by the code shown.
- Wrap-around of the resampler's phase counters and of newRatePosition * oldSampleRate is not modelled. Both stay below 2^28 because the rates are at most 2^14.
- Playlist.Lower: ASCII case folding only. Qt folds the whole of Unicode.
- Playlist.FileName: '/' is the only separator. Windows '\\' paths are not split.
- Playlist.LoadPlaylist: does not model the selection of row 0 after loading. File existence is an oracle parameter.
- The playlist's drag and drop is left out; it only forwards file names to OnAddFile.
- Some header constants are not shown in the repository's files, so the model uses assumed values:
  - the ffplay defaults for AV_SYNC_THRESHOLD_*, AV_NOSYNC_THRESHOLD = 10.0, AV_SYNC_FRAMEDUP_THRESHOLD = 0.1, EXTERNAL_CLOCK_*, AUDIO_DIFF_AVG_NB, SAMPLE_CORRECTION_PERCENT_MAX, MIN_FRAMES, MAX_QUEUE_SIZE and SAMPLE_ARRAY_SIZE;
  - PLAYBACK_RATE_MIN/MAX/SCALE = 0.5/2.0/0.5;
  - MAX_SLIDER_VALUE = 65536;
  - SONIC_MIN_PITCH/MAX_PITCH/AMDF_FREQ = 65/400/4000.

  The proofs use their ordering and signs, not their exact values, except the ladder lemma and the concrete examples.
- VideoControl.UpdateVolume: the decibel computation is a parameter. The log/pow of the step is floating-point; only the final clamp and the at-least-one-step rule are modelled.
- CtrlBar.OnVideoPlaySeconds: with a total of 0 the source divides by zero in double arithmetic. The model leaves the slider where it was in that case.
- OnPlaySeek, OnSeekForward and OnSeekBack are left out. They turn positions into seek calls through FFmpeg time bases; only stream_seek's latch is modelled.
- SavePlayVolume and the other GlobalHelper settings I/O are left out.
- VideoAudio.AudioOpenFallback: reports the wanted rate and channel count as the opened format. The source goes on to use the rate and channel count SDL obtained (src/videoctl.cpp:1401-1403), and returns -1 when the channel count SDL advises has no default layout (src/videoctl.cpp:1369-1375); SDL's choice is outside the model.
- SonicRate.EmitOne: states the frame's shape and where it goes. Its sample values are stated by Interpolate.
- SonicProcess.ExpectedOutput: states only that the estimate is at least the current output. The rounding of the float formula is not modelled.
- SonicPitch.SearchStepAsWritten: states only that each comparison keeps the old choice or takes the candidate. Its agreement with the exact test is StepAsWrittenExact, and its disagreement is the wrap example.
- SonicPitch.FindPitchPeriodInRange: the search uses exact products, the evidently intended test (see Findings). With 64-bit `unsigned long` the two agree for every 16-bit input.
- SonicPitch.FindPitchPeriod: AMDF optimality is stated for the direct mono search. With down-sampling the coarse and refined searches are stated by range only.
- The always-true packet play-range expression in the reader is left out, as dead code.

## Findings

| source | as written | input that shows it | evidently intended | confidence | as-written member | corrected member |
|---|---|---|---|---|---|---|
| src/sonic.cpp:407-413, 426-432 | sonicSetSampleRate and sonicSetNumChannels free and reallocate the buffers at the new size, but keep numInputSamples, numOutputSamples and numPitchSamples | 1000 mono frames buffered at 44100 Hz, then sonicSetSampleRate(8000): the new input buffer holds 246 frames while the count says 1000 | the header comment says buffered samples are lost: the counts should be cleared | not executed | SonicStream.SetSampleRateKeepsStaleCount | SonicStream.SetSampleRate |
| src/sonic.cpp:192-197 | sonicSetPitch changes the pitch without resetting oldRatePosition and newRatePosition; outside chord mode the pitch multiplies the resampling rate | 16 kHz stream with rate 1, pitch 0.5, phase (6000, 12000) out of (8000, 16000); then pitch 2: the new rates are (16000, 8000), the new phase is ahead of the new rate, and adjustRate calls exit(1) | reset the phase as sonicSetRate does, since a new pitch is a new resampling rate | not executed | SonicRate.PitchChangeStopsProcess | SonicRate.PitchChangeKeepsRunning |
| src/sonic.cpp:769-797 | findPitchPeriodInRange compares `diff * bestPeriod < minDiff * period` and `diff * worstPeriod > maxDiff * period` in `unsigned long`, which is 32 bits on Windows; the products wrap | best period 600 with diff 1000, then period 601 with diff 35791395 (possible from 16-bit samples at 601 * 65535): 600 * 35791395 wraps to 520 < 601 * 1000, so 601 is taken although its difference per sample is 35000 times worse | compare the exact products, as a 64-bit type would | not executed | SonicPitch.WrappedProductTakesWorsePeriod | SonicPitch.FindPitchPeriodInRange |
