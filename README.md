# Concatenative synthesis by descriptors, and the sound-file map

This project models two parts of a small WebAudio teaching repository.

The first is the concatenative-synthesis project in `project/src/index.js`:

- An offline analysis cuts a mono sample buffer into blocks of 2048 samples.
  A block starts every 512 samples, and only whole blocks are kept.
- For each block it computes the start time, the root mean square and a
  zero-crossing rate.
- It normalizes the zero-crossing rates and the RMS values to [0, 1]. These
  two normalized features give every block a point in a unit square shown on
  screen.
- While the user touches the square, a scheduled engine fires one grain per
  period. Each grain reads the buffer at the start of the block whose point
  is nearest to the touch, and has a triangular gain envelope.

The second is the key derivation of `exercises/src/playing-audio-buffers.js`.
Each loaded sound file is stored in a map under its bare file name: the path
without its directory and without everything from the first dot on.

Modules, one per part of the source:

| module | file | what it holds |
|---|---|---|
| `Wrappers` | `wrappers.dfy` | `Option` |
| `SquareRoot` | `squareroot.dfy` | `IsSqrt`: what the model assumes of `Math.sqrt` |
| `Blocks` | `blocks.dfy` | the block enumeration shared by the three analysis loops; `GetTimes` |
| `BlockFeatures` | `features.dfy` | `Rms` and `ZeroCrossing`, with the per-block specifications |
| `Normalizer` | `normalize.dfy` | `Normalize`, with `Min`, `Max` and `Normalized` |
| `FeatureSearch` | `search.dfy` | `FindStartTimeFromGuiPosition` and the first-nearest specification `Closest` |
| `Analysis` | `analysis.dfy` | the analysis wiring and the `data` record |
| `Concat` | `engine.dfy` | the grain record, the control point (`ControlSlot`) and the `ConcatEngine` class |
| `SoundFiles` | `soundfiles.dfy` | the path-to-key function, the listed files and `Object.fromEntries` |

The loops of the source are methods with loops. Each one is proved equal to a
specification function, and the properties are proved as lemmas about those
functions.

The engine is a class. Its `period` and `duration` fields are written by the
sliders. Its tick `AdvanceTime` appends the grain it fires to a `grains` log,
standing in for the WebAudio calls.

The control point `globals.guiPosition` is a class with two optional
coordinates. `null` is `None`.

Behaviour of the code that the model keeps as it is:

- `normalize` has no fallback for a constant input: it divides 0 by 0
  (project/src/index.js:154), so every element becomes NaN. The model
  returns `None` in exactly that case, a non-empty constant input. An empty
  input normalizes to the empty sequence, as in the code.
- 4096 samples with blocks of 2048 and hops of 512 give 5 blocks, at 0, 512,
  1024, 1536 and 2048 (`Blocks.FourThousandSamples`).
- The zero-crossing value of a block is its count divided by the block
  duration `blockSize / sampleRate` (project/src/index.js:110, 127).
- With no blocks the search never sets `closestIndex` and returns
  `times[null]`, which is `undefined` (project/src/index.js:164, 177). The
  model returns `None`, and the grain carries that offset.

## Model

| member | source | states |
|---|---|---|
| Blocks.StartsFrom | project/src/index.js:49-54 | every start the loop keeps from sample `i` on is at least `i` and lies inside the buffer with its whole block |
| Blocks.Kept | project/src/index.js:49-54 | the loop visits a start while it is inside the buffer and keeps it when its whole block fits; what the kept starts are is stated by `BlockStartsCount` and `BlockStartsComplete` |
| Blocks.BlockStarts | project/src/index.js:49-54 | every kept block starts before the end of the buffer and ends at or before it |
| Blocks.StartsFromShape | project/src/index.js:49-54 | from a multiple of the hop on, the kept starts are consecutive multiples of the hop; the last one fits, and the next one would not |
| Blocks.BlockStartsCount | project/src/index.js:49-54 | there are floor((N - B) / H) + 1 kept blocks when N >= B and none otherwise, and the k-th starts at k * H |
| Blocks.BlockStartsComplete | project/src/index.js:49-54 | every multiple of the hop whose block fits in the buffer is kept, at its own index |
| Blocks.BlockTimes | project/src/index.js:55-56 | one time per kept block |
| Blocks.BlockTimesAt | project/src/index.js:45-61 | the number of times is floor((N - B) / H) + 1 or 0, and the k-th time is k * H / sampleRate |
| Blocks.FourThousandSamples | project/src/index.js:49-57 | 4096 samples with blocks of 2048 and hops of 512 give the five starts 0, 512, 1024, 1536, 2048 |
| Blocks.GetTimes | project/src/index.js:45-61 | the loop returns the start time of every kept block, in order |
| BlockFeatures.SumOfSquaresBounds | project/src/index.js:80-84 | the accumulated sum of squares is never negative, and it is 0 over a block of zeros |
| BlockFeatures.SumOfSquares | project/src/index.js:80-84 | the inner loop's accumulator: the sum of the squared samples of a range, added left to right; bounded by `SumOfSquaresBounds` |
| BlockFeatures.BlockRms | project/src/index.js:86-88 | the square root of a block's mean square; its bounds are `BlockRmsBounds` |
| BlockFeatures.BlockRmsBounds | project/src/index.js:86-88 | a block's RMS is never negative, and an all-zero block has RMS 0 |
| BlockFeatures.RmsValues | project/src/index.js:74-79 | one RMS value per kept block, so the RMS values line up with the block times |
| BlockFeatures.Rms | project/src/index.js:70-93 | the nested loops return sqrt(sum of squares / blockSize) of every kept block, in order |
| BlockFeatures.SignChangeMeaning | project/src/index.js:118-124 | a pair counts exactly when one sample is strictly negative and the other strictly positive; a pair with an exact 0 never counts |
| BlockFeatures.Crossings | project/src/index.js:114-125 | the inner loop's count of consecutive pairs whose product is negative; `CrossingsCount` states what it counts |
| BlockFeatures.CrossingsCount | project/src/index.js:114-125 | the count is the number of sign-changing pairs in the block, so at most blockSize - 1 |
| BlockFeatures.BlockZeroCrossingMeaning | project/src/index.js:110-128 | the stored value is count * sampleRate / blockSize, with 0 <= count <= blockSize - 1, so it is never negative |
| BlockFeatures.BlockZeroCrossing | project/src/index.js:110-127 | a block's count divided by its duration; `BlockZeroCrossingMeaning` gives its value as count * sampleRate / blockSize |
| BlockFeatures.ZeroCrossingValues | project/src/index.js:107-113 | one zero-crossing value per kept block, so they line up with the block times |
| BlockFeatures.ZeroCrossing | project/src/index.js:103-133 | the nested loops return the scaled sign-change count of every kept block, in order |
| Normalizer.MinMaxBounds | project/src/index.js:139-151 | the running minimum and maximum are elements of the input and bound every element |
| Normalizer.Min | project/src/index.js:139-146 | the first loop's running minimum, replaced only by a strictly smaller element; `MinMaxBounds` states it is the least element |
| Normalizer.Max | project/src/index.js:140-150 | the first loop's running maximum, replaced only by a strictly larger element; `MinMaxBounds` states it is the greatest element |
| Normalizer.Rescale | project/src/index.js:154 | where a value falls between the bounds; its properties are `RescaleFacts` and `RescaleAffine` |
| Normalizer.RescaleFacts | project/src/index.js:154 | with min < max, `(v - min) / (max - min)` maps min to 0 and max to 1, keeps [min, max] inside [0, 1], and keeps order, strict and non-strict |
| Normalizer.RescaleAffine | project/src/index.js:154 | the rescaled value does not change when the value and both bounds go through the same increasing affine map |
| Normalizer.Normalized | project/src/index.js:153-157 | a successful normalization has the length of its input |
| Normalizer.NormalizedFails | project/src/index.js:138-158 | normalization fails (the division 0 / 0) exactly when the input is non-empty and constant |
| Normalizer.NormalizedRange | project/src/index.js:138-158 | when it succeeds, every output lies in [0, 1], a minimal input maps to 0, a maximal one to 1, and the order of inputs is kept |
| Normalizer.NormalizedAffineInvariant | project/src/index.js:138-158 | normalizing gives the same result after any positive scaling plus offset of the input |
| Normalizer.ConstantInput | project/src/index.js:154 | [3, 3, 3] has no normalization |
| Normalizer.Normalize | project/src/index.js:138-158 | the min/max loop and the rescaling loop return the specified normalization, or `None` in the degenerate case |
| FeatureSearch.SqDistanceNonNegative | project/src/index.js:167-169 | a squared distance is never negative |
| FeatureSearch.Closest | project/src/index.js:166-175 | the index the scan holds after k blocks is one of those k blocks |
| FeatureSearch.ClosestIsFirstNearest | project/src/index.js:166-175 | the chosen block is at minimal distance to the control point, every earlier block is strictly farther, and no other index has both properties |
| FeatureSearch.ExactHit | project/src/index.js:166-175 | a control point exactly on block k is found at distance 0, at index k or an earlier block at the same point |
| FeatureSearch.ClosestStep | project/src/index.js:169-174 | comparing `Math.sqrt` of two squared distances picks the same block as comparing the squared distances |
| FeatureSearch.AsNumber | project/src/index.js:167-168 | a `null` coordinate takes part in the subtraction as 0 |
| FeatureSearch.NearestTime | project/src/index.js:177 | the start time of the block `Closest` picks over all blocks, or `None` (`undefined`) when there are none; `FindStartTimeFromGuiPosition` is proved to return it |
| FeatureSearch.FindStartTimeFromGuiPosition | project/src/index.js:160-178 | the scan returns the start time of the first nearest block, with a `null` coordinate read as 0, and returns nothing exactly when there are no blocks |
| Analysis.AnalysisShape | project/src/index.js:249-255 | a successful analysis has one entry per kept block in every sequence, and every feature point lies in the unit square |
| Analysis.Analysis | project/src/index.js:249-255 | times, RMS and zero-crossing values of the kept blocks, with normX from the zero-crossing values and normY from the RMS values; `None` when either normalization fails; its shape is `AnalysisShape` |
| Analysis.ShortBuffer | project/src/index.js:249-255 | a buffer shorter than one block analyses to no blocks at all |
| Analysis.Analyze | project/src/index.js:249-255 | the wiring returns the specified analysis, built from the three loops and the two normalizations |
| Concat.MakeGrain | project/src/index.js:217-231 | the grain starts at the grain time at the given offset and stops one duration later; its gain rises from 0 to 1 halfway through and falls back to 0 at the stop |
| Concat.ControlSlot.constructor | project/src/index.js:23 | the control point starts with both coordinates `null` |
| Concat.ControlSlot.OnInput | project/src/index.js:336-344 | the first touch sets both coordinates, and no touch clears both; either way both are set or both are cleared |
| Concat.ConcatEngine.constructor | project/src/index.js:182-189 | a fresh engine has period 0.05 s, grain duration 0.2 s and has fired no grain; it is built on aligned analysis data |
| Concat.ConcatEngine.SetPeriod | project/src/index.js:300 | the period slider sets the period to the slider's value |
| Concat.ConcatEngine.SetDuration | project/src/index.js:314 | the duration slider sets the grain duration to the slider's value |
| Concat.ConcatEngine.Released | project/src/index.js:208 | the engine idles only when both coordinates are `null`, as the tick's `AdvanceTime` contract uses it |
| Concat.ConcatEngine.AdvanceTime | project/src/index.js:203-234 | every tick asks to run again one period later; with both coordinates `null` it fires nothing; otherwise it fires one grain at the nearest block's start time, starting within 0.005 s after the audio time |
| SoundFiles.FirstLineEnd | exercises/src/playing-audio-buffers.js:74 | the first line terminator, where the regular expression's `.*` must stop |
| SoundFiles.AfterLastSeparator | exercises/src/playing-audio-buffers.js:74 | one past the last `/` or `\` before a position; no separator lies between it and that position |
| SoundFiles.KeyStart | exercises/src/playing-audio-buffers.js:74 | the greedy match ends just after a separator (or removes nothing), and no separator follows it on the first line |
| SoundFiles.StripDirectory | exercises/src/playing-audio-buffers.js:74 | what `replace(/^.*[\\\/]/, '')` leaves: the path from `KeyStart` on |
| SoundFiles.FirstDot | exercises/src/playing-audio-buffers.js:74 | the first `.`, with no dot before it |
| SoundFiles.BeforeFirstDot | exercises/src/playing-audio-buffers.js:74 | what `split('.')[0]` gives: the text before the first dot, or all of it |
| SoundFiles.KeyOf | exercises/src/playing-audio-buffers.js:74 | the key of a path; `KeyIsSlice`, `KeyHasNoDot` and `KeyHasNoSeparator` state what it is |
| SoundFiles.KeyHasNoDot | exercises/src/playing-audio-buffers.js:74 | a key never contains a dot |
| SoundFiles.KeyHasNoSeparator | exercises/src/playing-audio-buffers.js:74 | the key of a one-line path contains no `/` and no `\` |
| SoundFiles.KeyIsSlice | exercises/src/playing-audio-buffers.js:74 | the key is the slice of the path from just after the last separator up to the next dot or the end |
| SoundFiles.PlainNameIsItsOwnKey | exercises/src/playing-audio-buffers.js:74 | a name with no separator and no dot is its own key |
| SoundFiles.AssetKey | exercises/src/playing-audio-buffers.js:74 | the key of `./assets/<stem>.wav` is the stem, for any stem without a separator or dot (a line break in the stem does not matter) |
| SoundFiles.LineBreakKeepsDirectory | exercises/src/playing-audio-buffers.js:74 | `.` does not match a line break, so in `a\n/b.wav` nothing is stripped and the key is `a\n/b` |
| SoundFiles.SoundFilePaths | exercises/src/playing-audio-buffers.js:13-22 | each listed path is `./assets/<stem>.wav` |
| SoundFiles.SoundFileKeys | exercises/src/playing-audio-buffers.js:13-22 | the listed paths give the keys kick, snare, clap, hh, rimshot, give_you_up, let_you_down and run_around_and_hurt_you |
| SoundFiles.SoundFileKeysDistinct | exercises/src/playing-audio-buffers.js:13-22 | no two listed paths share a key |
| SoundFiles.FromEntriesBinds | exercises/src/playing-audio-buffers.js:72-75 | `Object.fromEntries` binds exactly the keys of its entries, each to the value of the last entry with that key |
| SoundFiles.FromEntriesSize | exercises/src/playing-audio-buffers.js:72-75 | with pairwise different keys the map has one binding per entry |
| SoundFiles.FromEntries | exercises/src/playing-audio-buffers.js:72-75 | `Object.fromEntries`, adding the entries in order; `FromEntriesBinds` and `FromEntriesSize` state the resulting map |
| SoundFiles.BufferEntries | exercises/src/playing-audio-buffers.js:72-75 | one key/buffer pair per loaded buffer |
| SoundFiles.BufferMap | exercises/src/playing-audio-buffers.js:72-75 | `model.buffers`, the map built from the key/buffer pairs; `BufferMapBinds` states its bindings |
| SoundFiles.BufferMapBinds | exercises/src/playing-audio-buffers.js:72-75 | the map's keys are the keys of the loaded files, and a key is bound to the buffer of the last file with that key |
| SoundFiles.DistinctKeysMap | exercises/src/playing-audio-buffers.js:72-75 | when the files' keys differ, every key is bound to its own file's buffer and there is one binding per buffer |
| SoundFiles.SoundFileMap | exercises/src/playing-audio-buffers.js:72-75 | for the listed files, each stem is bound to the buffer at its index and the map has eight bindings |

## Left out

- WebAudio calls (`createGain`, `createBufferSource`, `connect`, `start`, `stop`, `setValueAtTime`, `linearRampToValueAtTime`, `resumeAudioContext`) produce sound. A grain is recorded as a `Grain` value in the engine's log instead.
- The `Scheduler` of `waves-masters` and its clock are an external library. Only the tick's contract is modelled, not the scheduling loop.
- `AudioBufferLoader`, `getChannelData` and `buffer.sampleRate` are file I/O. The samples and the sample rate are parameters.
- lit-html rendering, the `sc-*` components and the dot display are UI. Only the control-point handler and the two slider handlers are kept.
- `Math.random()` is a parameter `random` in [0, 1), giving the jitter `random * 0.005`.
- `Math.sqrt` is a parameter `sqrt` assumed to map 0 to 0 and to be strictly increasing on the non-negative reals (`IsSqrt`). The exact square-root equation is not assumed; the search and the RMS bounds need only these two properties.
- BlockFeatures.BlockRmsBounds: the RMS is related to the root only through `IsSqrt`, so the model does not state that squaring the RMS gives the mean square.
- Samples and times are reals. IEEE rounding, infinities and NaN propagation are not modelled. The NaN of a constant feature in `normalize` becomes `None`, and a `None` feature makes the whole analysis `None`.
- `rms` and `zeroCrossing` divide by `blockSize` (and `zeroCrossing` by `sampleRate`), so the model requires them to be positive. `getTimes` divides by neither `blockSize` nor the hop, and requires only a positive sample rate and a positive hop. A zero hop never ends the source's loop.
- The `dt` argument of `advanceTime` is accepted and unused, as in the source.
- The `_position` field (project/src/index.js:186) and `synth.position = 1` (project/src/index.js:266) are never read by the engine.
- The `buffer` setter and getter and `connect` of `ConcatEngine` only forward to WebAudio.
- The sliders' `min` and `max` attributes bound the GUI control, not the setters. `SetPeriod` and `SetDuration` accept any value, as the handlers do.
- exercises/src/feedback-delay.js is WebAudio wiring, plus a fixed-index path split. It is not part of this model.
- `playSound` and the GUI of exercises/src/playing-audio-buffers.js are playback and UI.
- `Object.fromEntries` on JavaScript's special keys (such as `__proto__`) is not modelled: keys are plain strings in a map.
