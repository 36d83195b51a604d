# EKG trace generators — a Dafny model

This project models the sample-index bookkeeping of the EKGuide/HealthHack front end. That front end
synthesises electrocardiogram traces for a randomly chosen arrhythmia and asks the learner for a
diagnosis. Two independent generators are modelled:

- `generateEKG` in `App.js` (module `AppEkg`, file `app.dfy`). It takes one of four catalogue
  entries and lays `numWaves` identical beats into a zero signal with `+=`. It records the
  P/Q/R/S/T highlight windows of every beat and trims the output with `Math.ceil`. Around it sit the
  highlight annotation map keyed `highlight${type}`, the 3/5 pulse-count selector and the random
  choice of an arrhythmia.
- `ekgUtils.js` (module `EkgUtils`, file `ekg_utils.dfy`). `ekgWaveform` builds one beat from
  optional P, retrograde-P and flutter pulses, reports fixed peak offsets, and throws when
  `variableRR` is truthy. `generateEKG` runs `floor(duration * heartRate / 60)` beats, overwrites
  each beat's samples with the beat plus noise, and lists every beat's peaks.
- `EKGSimulator.js` (module `EkgSimulator`, file `ekg_simulator.dfy`). It holds the six-entry object
  catalogue, the random pick, the rest/spread call `generateEKG(5, heartRate, 1000, params)` and the
  case-insensitive diagnosis check.

Shared pieces:

- `js.dfy` (module `Js`) holds the JavaScript semantics the code relies on: truthiness, `ToNumber`,
  default parameters, array lengths, `slice`, `Math.ceil`, counted loops, `toLowerCase` and the
  `Math.floor(Math.random() * n)` idiom.
- `beats.dfy` (module `Beats`) holds the beat geometry: beat `i` covers samples
  `[floor(i * spb), floor(i * spb) + floor(spb))`, where `spb = 60 / heartRate * samplingRate`. It
  also holds the loop that copies a beat into the signal.
- `pulses.dfy` (module `Pulses`) describes a beat as the ordered list of signed Gaussian pulses that
  the `.map` chains apply.

Modelling choices:

- Time, beat durations and sample counts are exact `real`s. Sample indices are `int`s, obtained
  with `.Floor` and a ceiling.
- `Math.exp` is the parameter `exp: real -> real`. So the model fixes which pulses are summed,
  where, and with which sign, but not the values of the curves.
- `Math.random()` becomes a parameter. The arrhythmia pick takes one draw `r` in [0, 1).
  `ekgUtils.generateEKG` takes one draw per signal sample (`draws`).
- NaN is modelled as an absent value (`None`).
- A thrown exception is a `Throw` completion. This covers reading `.heartRate` of an unknown
  catalogue key and assigning to the constant `beatDuration`.

Three points of the code shape the model:

- `App.js` adds each beat into the signal with `+=` and does not clamp beat ranges. Beats never
  overlap, so this is the same as overwriting (`Beats.LaidOut`, `AppEkg.SignalIsShiftedBeat`).
- `App.js` trims both arrays with `slice(0, Math.ceil(numWaves * beatDuration * samplingRate))`.
  `slice` cannot return more elements than the array has, so the length is the minimum of that
  value and the `duration * samplingRate` generated samples.
- In `ekgUtils.js` a truthy `variableRR` assigns to the constant `beatDuration`, which throws a
  TypeError. `EKGSimulator.js` never triggers this, because its parameter object lands in the
  `pWave` slot.

## Model

| member | source | states |
|---|---|---|
| Js.Argument | HealthHack/frontend/src/utils/ekgUtils.js:9 | a parameter receives its argument when one is passed and is not `undefined`, and receives its default otherwise |
| Js.Truthy | HealthHack/frontend/src/utils/ekgUtils.js:48 | every object is truthy (even an empty one); a string is truthy exactly when it is non-empty; `undefined`, `null`, booleans and numbers are truthy exactly when their numeric value is a number other than 0 |
| Js.Ceil | HealthHack/frontend/src/App.js:115 | `Math.ceil` gives the least integer not below its argument |
| Js.ToLength | HealthHack/frontend/src/App.js:43-44 | `Array.from({ length: x })` has `floor(x)` elements for positive `x` and none otherwise |
| Js.SliceEnd | HealthHack/frontend/src/App.js:116 | `slice(0, end)` keeps `min(end, len)` elements, and for a negative `end` counts back from the end; it never keeps more than the array has |
| Js.LoopCount | HealthHack/frontend/src/utils/ekgUtils.js:50 | `for (i = 0; i < x; i++)` runs its body exactly for the integers 0..c-1 below `x`: `x <= c` and `c - 1 < x` |
| Js.RandomIndex | HealthHack/frontend/src/components/EKGSimulator.js:36 | `Math.floor(r * n)` with `0 <= r < 1` is always a valid index into an array of `n` elements |
| Js.RandomIndexPicks | HealthHack/frontend/src/components/EKGSimulator.js:36 | index `k` is chosen exactly for the draws in `[k/n, (k+1)/n)`, so every entry is reachable with an equal share of the draws |
| Js.ToLowerCase | HealthHack/frontend/src/components/EKGSimulator.js:27 | lower-casing keeps the length and maps each character on its own (ASCII letters only) |
| Js.ToLowerCaseIdempotent | HealthHack/frontend/src/components/EKGSimulator.js:27 | a lower-cased string holds no upper-case ASCII letter, and lower-casing it again changes nothing |
| Beats.Zeros | HealthHack/frontend/src/App.js:45 | `Array(n).fill(0)` has `n` samples, all zero |
| Beats.TimeAxis | HealthHack/frontend/src/App.js:44 | the time axis has one entry per generated sample |
| Beats.TimeAxisEvenlySpaced | HealthHack/frontend/src/App.js:44 | the time axis starts at 0, sample `i` sits at `i / samplingRate`, entries are `1/samplingRate` apart and strictly increasing |
| Beats.BeatStart | HealthHack/frontend/src/App.js:57 | a beat of non-negative index starts at a non-negative sample |
| Beats.FloorSuperadditive | HealthHack/frontend/src/App.js:57-58 | `floor(x) + floor(y) <= floor(x + y)`, which is why a beat's end never passes the next beat's start |
| Beats.FloorMonotonic | HealthHack/frontend/src/App.js:69-73 | flooring preserves order, which orders the highlight windows |
| Beats.ScaledMonotonic | HealthHack/frontend/src/App.js:69-73 | `floor(c * spb) <= floor(d * spb)` for `c <= d` and `spb >= 0`, so larger fractions give later window bounds and later beats start later |
| Beats.BeatEndBeforeNextStart | HealthHack/frontend/src/App.js:57-58 | beat `i` satisfies `start <= end <= start of beat i+1`, so consecutive beats never overlap |
| Beats.BeatStartMonotonic | HealthHack/frontend/src/App.js:57 | later beats never start earlier |
| Beats.BeatsOrdered | HealthHack/frontend/src/App.js:57-58 | any earlier beat ends no later than any later beat starts |
| Beats.BeatsFit | HealthHack/frontend/src/utils/ekgUtils.js:72-74 | if beat `m` would start within the signal, each of the first `m` beats ends within it |
| Beats.WriteBeat | HealthHack/frontend/src/App.js:108-111 | storing one beat keeps the signal's length |
| Beats.WriteBeats | HealthHack/frontend/src/App.js:56-112 | laying any number of beats keeps the signal's length |
| Beats.LaidOut | HealthHack/frontend/src/App.js:108-110 | after `m` beats, with `+=` as with `=`, every sample of beat `i` holds exactly `beat[j - start] + offset[j]`, and a sample no beat covers is still 0 |
| Pulses.SamplesPerBeat | HealthHack/frontend/src/App.js:57-58 | a beat spans a positive number of samples |
| Pulses.GaussianWave | HealthHack/frontend/src/utils/ekgUtils.js:4-6 | `gaussianWave` with a zero amplitude is zero everywhere |
| Pulses.GaussianWaveSign | HealthHack/frontend/src/App.js:50-52 | where `exp` is positive the curve is positive exactly when the amplitude is, and negative exactly when the amplitude is |
| Pulses.GaussianWaveSymmetric | HealthHack/frontend/src/App.js:50-52 | the curve takes the same value at equal distances before and after its mean |
| Pulses.PositionsIncreasing | HealthHack/frontend/src/utils/ekgUtils.js:15-19 | the offsets 0.2b, 0.4b, 0.45b, 0.5b, 0.7b (the same in `App.js` and in the peaks `ekgWaveform` reports) are strictly increasing and lie inside the beat |
| Pulses.SuperposeAppend | HealthHack/frontend/src/App.js:79-105 | applying two lists of pulses one after the other adds their effects |
| Pulses.Cancel | HealthHack/frontend/src/App.js:101-105 | a pulse added and later subtracted with the same parameters leaves only what lies between |
| Pulses.QrstTerms | HealthHack/frontend/src/App.js:92-98 | the QRS-T complex is four pulses: Q subtracted, R added, S subtracted, T added, at the Q, R, S and T offsets |
| Pulses.BeatSamples | HealthHack/frontend/src/App.js:92-98 | the beat has one value per time of its time axis |
| AppEkg.CatalogWellFormed | HealthHack/frontend/src/App.js:7-38 | the catalogue has four distinct names, each with a heart rate of at least 100 bpm |
| AppEkg.Lookup | HealthHack/frontend/src/App.js:46 | a lookup misses exactly when no catalogue entry has the name; a hit returns that name's entry |
| AppEkg.BeatTerms | HealthHack/frontend/src/App.js:79-105 | a beat applies four QRS-T pulses, plus one P pulse with `Pwave`, plus one subtracted P pulse with `Pwave` and `Ppositive === false` |
| AppEkg.BeatComposition | HealthHack/frontend/src/App.js:79-105 | without `Pwave` a beat is just the QRS-T complex; with `Pwave` it opens with an added P pulse, at 0.55b with `Placement` and at `pWaveStart` otherwise, and unless `Ppositive === false` the beat is that pulse plus the QRS-T complex at every time; with `Pwave`, no `Placement` and `Ppositive === false` the P pulse cancels and the beat equals the bare QRS-T complex; with `Pwave`, `Placement` and `Ppositive === false` (AVRT) the beat is the P curve at 0.55b plus the QRS-T complex minus the P curve at 0.2b |
| AppEkg.BeatWindows | HealthHack/frontend/src/App.js:69-73 | a beat pushes one window per recorded wave type: five with `Pwave`, four without |
| AppEkg.WaveWindow | HealthHack/frontend/src/App.js:69-73 | a window keeps its wave type, is not reversed, and lies inside its beat's range `[start, start + floor(spb)]` |
| AppEkg.BeatWindowsWellFormed | HealthHack/frontend/src/App.js:62-73 | within a beat every window lies inside the beat's range and starts come in the order P <= Q <= R <= S <= T |
| AppEkg.WavePositions | HealthHack/frontend/src/App.js:55-73 | `m` beats record `m * K` windows, with K = 5 with `Pwave` and 4 without |
| AppEkg.WavePositionsLayout | HealthHack/frontend/src/App.js:56-73 | entry `idx` of `wavePositions` is the window of type `idx % K` of beat `idx / K` |
| AppEkg.LastBeatEntry | HealthHack/frontend/src/App.js:69-73 | the entries the last beat pushes are that beat's windows, in order |
| AppEkg.TrimmedLength | HealthHack/frontend/src/App.js:115-116 | the trimmed length is `min(n, ceil(numWaves * spb))` and never exceeds the generated length |
| AppEkg.GenerateEkg | HealthHack/frontend/src/App.js:42-117 | `t` and `ekgSignal` have equal length, `min(duration * samplingRate, ceil(numWaves * beatDuration * samplingRate))`, and `t` is a prefix of the evenly spaced time axis |
| AppEkg.Signal | HealthHack/frontend/src/App.js:108-111 | the untrimmed signal has one sample per generated time |
| AppEkg.SignalIsShiftedBeat | HealthHack/frontend/src/App.js:108-110 | sample `j` of beat `i` holds the beat's pulses evaluated `(j - start) / samplingRate` into the beat, plus 0.05; a sample no beat covers is 0 |
| AppEkg.WindowAt | HealthHack/frontend/src/App.js:56-73 | each recorded window belongs to one of the beats run, is of the type its position gives, is a P window exactly when it opens a beat with `Pwave`, and lies inside that beat |
| AppEkg.WindowsOfTrace | HealthHack/frontend/src/App.js:62-73 | a trace records K windows per beat (5 with `Pwave`, 4 without) in the order P, Q, R, S, T; each is a P window exactly when it opens a beat with `Pwave`, and each lies ordered inside its beat |
| AppEkg.GenerateEkgFor | HealthHack/frontend/src/App.js:46 | the generator throws a TypeError exactly when the name is not in the catalogue, and otherwise returns the trace of that entry |
| AppEkg.HighlightKeyInjective | HealthHack/frontend/src/App.js:227 | different wave types get different annotation keys |
| AppEkg.Annotations | HealthHack/frontend/src/App.js:225-236 | every key of the annotation map is one of `highlightP` .. `highlightT` |
| AppEkg.AnnotationsAppend | HealthHack/frontend/src/App.js:225-236 | assigning the boxes of two window lists in turn gives the union of their maps, in which the later list wins |
| AppEkg.AnnotationsKeysComplete | HealthHack/frontend/src/App.js:225-227 | every window's type has a key in the annotation map |
| AppEkg.AnnotationsKeysSound | HealthHack/frontend/src/App.js:225-227 | every key of the annotation map comes from some window |
| AppEkg.AnnotationsLastWins | HealthHack/frontend/src/App.js:225-236 | a key holds the box of the last window of that type (last write wins) |
| AppEkg.WavePositionsKinds | HealthHack/frontend/src/App.js:69-73 | every recorded window is of a type the beats record; there are no P windows without `Pwave` |
| AppEkg.AnnotationsSnoc | HealthHack/frontend/src/App.js:227-235 | assigning one more window's box updates the map at that window's key only |
| AppEkg.AnnotationsSnoc4 | HealthHack/frontend/src/App.js:225-236 | assigning four more boxes applies four updates in push order |
| AppEkg.AnnotationsOfBeatMap | HealthHack/frontend/src/App.js:225-236 | one beat's windows give one box per recorded type, from that beat |
| AppEkg.BeatBoxesContents | HealthHack/frontend/src/App.js:226-235 | a beat's boxes have exactly the keys `highlightQ..T`, plus `highlightP` with `Pwave`; each box spans its window's bounds divided by 1000 |
| AppEkg.AnnotationsOfWindows | HealthHack/frontend/src/App.js:225-236 | after at least one beat the annotation map equals the last beat's boxes: earlier beats' boxes are all overwritten |
| AppEkg.WindowKeys | HealthHack/frontend/src/App.js:225-236 | the windows of any number of beats assign only keys that a single beat assigns: no `highlightP` without `Pwave` |
| AppEkg.AnnotationsOfTrace | HealthHack/frontend/src/App.js:225-236 | for a trace of at least one beat the map holds exactly one box per recorded wave type, namely the last beat's window, with bounds `start/1000`..`end/1000` |
| AppEkg.NumPulsesStaysValid | HealthHack/frontend/src/App.js:138-143 | the pulse count is always 3 or 5; it is the last selection that was 3 or 5, or the initial 3 when no selection was; every other value leaves it unchanged |
| AppEkg.NumPulsesChange | HealthHack/frontend/src/App.js:138-143 | a selection of 3 or 5 becomes the pulse count; any other value leaves it unchanged; so a valid count stays 3 or 5 |
| AppEkg.SimulateRandom | HealthHack/frontend/src/App.js:178-183 | the randomly chosen type is always in the catalogue, and the result is the 5-second, 1000 Hz trace of that entry with the current pulse count; it never throws |
| AppEkg.FastBeat | HealthHack/frontend/src/App.js:47 | at 100 bpm or more a beat spans at most 600 samples at 1000 Hz |
| AppEkg.FastTraceUntrimmed | HealthHack/frontend/src/App.js:115-116 | with 3 or 5 pulses at 100 bpm or more, every beat fits in the 5000 samples and the trace has exactly `ceil(numPulses * beatDuration * 1000)` samples |
| EkgUtils.FlutterTerms | HealthHack/frontend/src/utils/ekgUtils.js:48-54 | there are as many flutter pulses as the flutter loop runs |
| EkgUtils.BindOptions | HealthHack/frontend/src/utils/ekgUtils.js:9 | the arguments after `heartRate` fill `pWave`, `variableRR`, `flutterRatio`, `retrogradeP` in order; a missing or `undefined` argument leaves the default `true`, `false`, `null`, `false` |
| EkgUtils.WaveformTerms | HealthHack/frontend/src/utils/ekgUtils.js:21-54 | a beat applies one P pulse with a truthy `pWave`, four QRS-T pulses, one retrograde pulse with a truthy `retrogradeP`, and as many flutter pulses as the flutter loop runs |
| EkgUtils.EkgWaveform | HealthHack/frontend/src/utils/ekgUtils.js:9-63 | it throws exactly when `variableRR` is truthy; otherwise the beat has one value per time, and the peaks are P = 0.2b (null without a truthy `pWave`), Q = 0.4b, R = 0.45b, S = 0.5b, T = 0.7b |
| EkgUtils.WaveformComposition | HealthHack/frontend/src/utils/ekgUtils.js:21-54 | the pulses are: P at 0.2b exactly when `pWave` is truthy, then the QRS-T complex, then the retrograde pulse at 0.3b with amplitude -0.08 exactly when `retrogradeP` is truthy, then the flutter pulses |
| EkgUtils.FlutterPulses | HealthHack/frontend/src/utils/ekgUtils.js:48-54 | flutter pulses occur only when both `flutterRatio` and `pWave` are truthy; there are exactly as many as `i < flutterRatio` counts, pulse `i` at `0.2b + i * 0.6 / flutterFrequency` |
| EkgUtils.FlutterEvenlySpaced | HealthHack/frontend/src/utils/ekgUtils.js:49-51 | consecutive flutter pulses are `0.6 / flutterFrequency > 0` seconds apart |
| EkgUtils.BeatPeaks | HealthHack/frontend/src/utils/ekgUtils.js:86-90 | a beat pushes its peaks in the order P, Q, R, S, T, skipping a null P; each is timed at the beat's first time plus its offset |
| EkgUtils.PeaksList | HealthHack/frontend/src/utils/ekgUtils.js:72-91 | `m` beats push `m * K` peaks, with K = 5 when P is reported and 4 otherwise |
| EkgUtils.PeaksListLayout | HealthHack/frontend/src/utils/ekgUtils.js:86-90 | entry `idx` of `peaksList` is peak `idx % K` of beat `idx / K`, timed from that beat's start |
| EkgUtils.PeakTime | HealthHack/frontend/src/utils/ekgUtils.js:88 | a peak time is a number exactly when the beat's start is an index of `t`, and is then `t[start]` plus the offset; otherwise `undefined + offset` is NaN |
| EkgUtils.Noise | HealthHack/frontend/src/utils/ekgUtils.js:83 | there is one noise value per sample draw |
| EkgUtils.NoiseBounded | HealthHack/frontend/src/utils/ekgUtils.js:83 | with draws in [0, 1) the noise `0.05 * (draw - 0.5)` lies in [-0.025, 0.025) |
| EkgUtils.BeatCount | HealthHack/frontend/src/utils/ekgUtils.js:72 | the beat loop runs `max(floor(duration * heartRate / 60), 0)` times |
| EkgUtils.GenerateEkg | HealthHack/frontend/src/utils/ekgUtils.js:66-94 | it throws exactly when at least one beat is run and `variableRR` is truthy; otherwise `t` is the whole untrimmed time axis and the signal has one sample per time |
| EkgUtils.BeatsFitSignal | HealthHack/frontend/src/utils/ekgUtils.js:72-74 | each beat run ends within the `duration * samplingRate` samples, so the length guard never cuts a beat short |
| EkgUtils.SignalOfTrace | HealthHack/frontend/src/utils/ekgUtils.js:82-84 | when `variableRR` is not truthy, each beat sample is overwritten with the beat's pulses `(j - start) / samplingRate` into the beat plus that sample's noise; uncovered samples, including all samples after the last beat, stay 0 |
| EkgUtils.PeaksOfTrace | HealthHack/frontend/src/utils/ekgUtils.js:86-90 | when `variableRR` is not truthy, the trace lists 5 peaks per beat with a truthy `pWave` and 4 without, in the order P, Q, R, S, T, each with time `t[start] + offset` |
| EkgUtils.PeakTimesDefined | HealthHack/frontend/src/utils/ekgUtils.js:88 | while a beat spans at least one sample, every beat starts inside `t`, so every peak time is the number `start / samplingRate + offset` |
| EkgSimulator.CatalogWellFormed | HealthHack/frontend/src/components/EKGSimulator.js:8-15 | the catalogue has six distinct names, each with a numeric heart rate of at least 100 bpm |
| EkgSimulator.PickType | HealthHack/frontend/src/components/EKGSimulator.js:35-36 | the random pick is always a catalogue entry with a positive heart rate, so the lookup never misses |
| EkgSimulator.SplitHeartRate | HealthHack/frontend/src/components/EKGSimulator.js:39 | `{ heartRate, ...params }` takes out the heart rate and keeps every other property unchanged |
| EkgSimulator.SimulateRandom | HealthHack/frontend/src/components/EKGSimulator.js:34-40 | the simulated type is the random pick, and the trace is `generateEKG(5, heartRate, 1000, params)` of that entry, with its heart rate and the entry without `heartRate` as the one extra argument; it never throws |
| EkgSimulator.BindingOfParams | HealthHack/frontend/src/components/EKGSimulator.js:40 | the params object binds to `pWave`, while `variableRR`, `flutterRatio` and `retrogradeP` keep their defaults; so a beat is just the P pulse and the QRS-T complex |
| EkgSimulator.SimulationIgnoresFlags | HealthHack/frontend/src/components/EKGSimulator.js:39-40 | whatever flags the entry has, the trace has 5000 times and five peaks per beat in the order P, Q, R, S, T |
| EkgSimulator.BeatCounts | HealthHack/frontend/src/components/EKGSimulator.js:40 | a 5-second trace runs 8 beats at 100 bpm, 12 at 150, 15 at 180 and 18 at 220 |
| EkgSimulator.CheckDiagnosis | HealthHack/frontend/src/components/EKGSimulator.js:26-31 | the alert is "Correct! Well done!" exactly when the lower-cased strings are equal; otherwise it names the correct answer |
| EkgSimulator.CheckDiagnosisProperties | HealthHack/frontend/src/components/EKGSimulator.js:27 | a diagnosis is correct exactly when it matches letter by letter ignoring ASCII case; the check is reflexive, symmetric and unaffected by lower-casing the diagnosis first |

## Left out

- The backend `HealthHack/backend/main.py` is not part of this model. It is web routing, environment loading and a call to a remote language model.
- The `fetch` grading round trip of `App.js` (`checkDiagnosis`, lines 145-170) is asynchronous network I/O.
- React state, effects, JSX rendering, Chart.js options and the never-shown `showLabeledGraph` view are presentation. The `if (chartData)` guard around the annotation loop is one of them; the model starts from the window list.
- The numeric values of `Math.exp` and of the Gaussian curves are floating-point transcendental functions. `exp` is a parameter.
- IEEE-754 rounding is not modelled. Products such as `i * (60 / heartRate) * samplingRate` are exact reals, so a floor that rounding would tip to the neighbouring integer is not reproduced.
- `Math.random()` itself is not modelled; its results are parameters. In `ekgUtils.generateEKG` the draws are indexed by the sample they perturb. Each written sample gets exactly one draw, because beats never overlap; the order in which draws are consumed is not modelled.
- `parseInt` is not modelled; `NumPulsesChange` takes the parsed integer.
- The `RtR`/`Rtr` catalogue fields of `App.js` are never read, so they are omitted.
- Js.ToNumber: reads every non-empty string as NaN. JavaScript parses numeric strings such as `"2"`; no caller passes a string.
- Js.ToLowerCase: maps only the ASCII letters. JavaScript also lower-cases other scripts.
- Js.ToLength: does not model the 2^53 length cap, and does not model the RangeError of `Array(n)` for more than 2^32 - 1 elements.
- `heartRate > 0` and `samplingRate > 0` are preconditions. The code does not check them; with other values the durations become infinite or negative.
- The default arguments of the two generators are not modelled, because every caller passes them. These are `duration = 5`, `samplingRate = 1000` and `numWaves = 1` of `App.js` `generateEKG`; `duration = 10`, `heartRate = 72` and `samplingRate = 1000` of `ekgUtils.js` `generateEKG`; and `heartRate = 60` of `ekgWaveform`. `App.js` `generateEKG` takes an integer `numWaves`; its only caller passes 3 or 5.
- AppEkg.GenerateEkg: the highlight windows are not trimmed, just as in the code. Their contents are stated by `WindowsOfTrace`.
- AppEkg.Lookup: names inherited from `Object.prototype` (`toString`, `constructor`, ...) are treated as misses. JavaScript's `arrhythmias[name]` finds them, reads `.heartRate` as `undefined` and does not throw. The only names passed come from `Object.keys` of the catalogue.
- AppEkg.GenerateEkgFor: for an `Object.prototype` name the model throws. `App.js` would instead run with a NaN heart rate and return empty arrays and NaN windows. No caller passes such a name.
