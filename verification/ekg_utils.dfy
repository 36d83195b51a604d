/** The generator of `ekgUtils.js`: `ekgWaveform`, which builds one beat from optional P,
    retrograde-P and flutter pulses and reports the fixed peak offsets, and `generateEKG`, which
    runs `floor(duration * heartRate / 60)` beats, overwrites each beat's samples with the beat plus
    noise, and lists the peaks of every beat. `Math.random()` is replaced by the draws in `draws`,
    one per signal sample. */
module EkgUtils {
  import opened Js
  import opened Beats
  import opened Pulses

  /** The parameters of `ekgWaveform` after `heartRate`, as bound from its arguments. */
  datatype WaveformOptions = WaveformOptions(pWave: JsValue, variableRR: JsValue, flutterRatio: JsValue, retrogradeP: JsValue)

  /** The four options in parameter order. */
  function Slots(o: WaveformOptions): seq<JsValue> {
    [o.pWave, o.variableRR, o.flutterRatio, o.retrogradeP]
  }

  /** The defaults `true`, `false`, `null`, `false` of those parameters. */
  const DefaultOptions: seq<JsValue> := [Bool(true), Bool(false), Null, Bool(false)]

  /** `(pWave = true, variableRR = false, flutterRatio = null, retrogradeP = false)` bound to the
      arguments that follow `heartRate`. */
  function BindOptions(args: seq<JsValue>): (o: WaveformOptions)
    ensures forall i :: 0 <= i < 4 ==>
      Slots(o)[i] == if i < |args| && !args[i].Undefined? then args[i] else DefaultOptions[i]
  {
    WaveformOptions(Argument(args, 0, Bool(true)), Argument(args, 1, Bool(false)),
                    Argument(args, 2, Null), Argument(args, 3, Bool(false)))
  }

  /** `pWave ? 0.2 * beatDuration : null` */
  function PWaveStart(o: WaveformOptions, beatDuration: Width): Option<real> {
    if Truthy(o.pWave) then Some(Position(P, beatDuration)) else None
  }

  /** The retrograde P pulse: amplitude -0.08 at `rWaveStart - 0.15 * beatDuration`. */
  function RetrogradeTerm(beatDuration: Width): Term {
    Term(Plus, Position(R, beatDuration) - 0.15 * beatDuration, -0.08, 0.04 * beatDuration)
  }

  /** How often the flutter loop runs: only when `flutterRatio && pWaveStart`, and then as often
      as `for (let i = 0; i < flutterRatio; i++)` counts (never, when `flutterRatio` is NaN). */
  function FlutterCount(o: WaveformOptions, beatDuration: Width): nat {
    var pStart := PWaveStart(o, beatDuration);
    if Truthy(o.flutterRatio) && pStart.Some? && pStart.value != 0.0 then
      match ToNumber(o.flutterRatio)
      case None => 0
      case Some(x) => LoopCount(x)
    else 0
  }

  /** The flutter pulses: pulse `i` sits at `pWaveStart + i * (0.6 / flutterFrequency)` with
      `flutterFrequency = flutterRatio * heartRate / 60`. */
  function FlutterTerms(o: WaveformOptions, heartRate: real): (terms: seq<Term>)
    requires heartRate > 0.0
    ensures |terms| == FlutterCount(o, BeatDuration(heartRate))
  {
    var bd := BeatDuration(heartRate);
    var count := FlutterCount(o, bd);
    if count == 0 then []
    else
      var ratio := ToNumber(o.flutterRatio).value;
      MulPositive(ratio, heartRate);
      var frequency := ratio * heartRate / 60.0;
      seq(count, i requires 0 <= i < count => Term(Plus, Position(P, bd) + i as real * (0.6 / frequency), 0.1, 0.05 * bd))
  }

  /** The pulses `ekgWaveform` applies, in order: P (if `pWave`), the QRS-T complex, the retrograde
      P pulse (if `retrogradeP`), then the flutter pulses. */
  function WaveformTerms(o: WaveformOptions, heartRate: real): (terms: seq<Term>)
    requires heartRate > 0.0
    ensures |terms| == (if Truthy(o.pWave) then 1 else 0) + 4 + (if Truthy(o.retrogradeP) then 1 else 0)
                       + FlutterCount(o, BeatDuration(heartRate))
  {
    var bd := BeatDuration(heartRate);
    (if Truthy(o.pWave) then [PTerm(Position(P, bd), bd)] else [])
    + QrstTerms(bd)
    + (if Truthy(o.retrogradeP) then [RetrogradeTerm(bd)] else [])
    + FlutterTerms(o, heartRate)
  }

  /** The `peaks` object: offsets within the beat, in seconds; `P` is null without `pWave`. */
  datatype Peaks = Peaks(p: Option<real>, q: real, r: real, s: real, t: real)

  datatype Waveform = Waveform(ekgBeat: seq<real>, peaks: Peaks)

  /** `ekgWaveform(t, heartRate, ...)`. A truthy `variableRR` makes it assign to the constant
      `beatDuration`, which throws. */
  function EkgWaveform(exp: real -> real, t: seq<real>, heartRate: real, o: WaveformOptions): (r: Completion<Waveform>)
    requires heartRate > 0.0
    ensures r.Throw? <==> Truthy(o.variableRR)
    ensures r.Normal? ==> |r.value.ekgBeat| == |t|
    ensures r.Normal? ==> var bd := 60.0 / heartRate;
      && (Truthy(o.pWave) ==> r.value.peaks.p == Some(0.2 * bd))
      && (!Truthy(o.pWave) ==> r.value.peaks.p == None)
      && r.value.peaks.q == 0.4 * bd && r.value.peaks.r == 0.45 * bd
      && r.value.peaks.s == 0.5 * bd && r.value.peaks.t == 0.7 * bd
  {
    var bd := BeatDuration(heartRate);
    if Truthy(o.variableRR) then Throw(TypeError("Assignment to constant variable."))
    else
      var peaks := Peaks(PWaveStart(o, bd), Position(Q, bd), Position(R, bd), Position(S, bd), Position(T, bd));
      Normal(Waveform(BeatSamples(exp, WaveformTerms(o, heartRate), t), peaks))
  }

  /** Which pulses a beat is made of: the P pulse first exactly when `pWave` is truthy, always the
      QRS-T complex, the retrograde pulse at `0.3 * beatDuration` exactly when `retrogradeP` is
      truthy, and then the flutter pulses. */
  lemma WaveformComposition(o: WaveformOptions, heartRate: real)
    requires heartRate > 0.0
    ensures var terms := WaveformTerms(o, heartRate);
      var bd := 60.0 / heartRate;
      var pre := if Truthy(o.pWave) then 1 else 0;
      var base := pre + 4 + (if Truthy(o.retrogradeP) then 1 else 0);
      && base <= |terms|
      && (Truthy(o.pWave) ==> terms[0] == Term(Plus, 0.2 * bd, 0.1, 0.05 * bd))
      && terms[pre..pre + 4] == QrstTerms(bd)
      && (Truthy(o.retrogradeP) ==> terms[base - 1] == Term(Plus, 0.3 * bd, -0.08, 0.04 * bd))
      && terms[base..] == FlutterTerms(o, heartRate)
  {
    var bd := BeatDuration(heartRate);
    var head: seq<Term> := if Truthy(o.pWave) then [PTerm(Position(P, bd), bd)] else [];
    var retro: seq<Term> := if Truthy(o.retrogradeP) then [RetrogradeTerm(bd)] else [];
    var flutter := FlutterTerms(o, heartRate);
    var terms := WaveformTerms(o, heartRate);
    assert terms == head + QrstTerms(bd) + retro + flutter;
    assert terms[|head|..|head| + 4] == QrstTerms(bd);
    assert terms[|head| + 4 + |retro|..] == flutter;
  }

  /** Flutter pulses are added only when both `flutterRatio` and `pWave` are truthy, then exactly as
      many as the loop `i < flutterRatio` counts, pulse `i` at `0.2 * beatDuration + i * (0.6 /
      flutterFrequency)`. */
  lemma FlutterPulses(o: WaveformOptions, heartRate: real)
    requires heartRate > 0.0
    ensures var fl := FlutterTerms(o, heartRate);
      var bd := 60.0 / heartRate;
      && (|fl| > 0 ==> Truthy(o.flutterRatio) && Truthy(o.pWave))
      && (Truthy(o.flutterRatio) && Truthy(o.pWave) && ToNumber(o.flutterRatio).Some? ==>
            |fl| == LoopCount(ToNumber(o.flutterRatio).value))
      && (forall i :: 0 <= i < |fl| ==>
            var frequency := ToNumber(o.flutterRatio).value * heartRate / 60.0;
            frequency > 0.0 && fl[i] == Term(Plus, 0.2 * bd + i as real * (0.6 / frequency), 0.1, 0.05 * bd))
  {
    var fl := FlutterTerms(o, heartRate);
    if |fl| > 0 {
      MulPositive(ToNumber(o.flutterRatio).value, heartRate);
    }
  }

  /** The flutter pulses sit `0.6 / flutterFrequency` seconds apart, each after the previous one. */
  lemma FlutterEvenlySpaced(o: WaveformOptions, heartRate: real)
    requires heartRate > 0.0
    ensures var fl := FlutterTerms(o, heartRate);
      forall i :: 0 < i < |fl| ==>
        var frequency := ToNumber(o.flutterRatio).value * heartRate / 60.0;
        frequency > 0.0 && fl[i].mean - fl[i - 1].mean == 0.6 / frequency > 0.0
  {
    var fl := FlutterTerms(o, heartRate);
    forall i | 0 < i < |fl|
      ensures var frequency := ToNumber(o.flutterRatio).value * heartRate / 60.0;
        frequency > 0.0 && fl[i].mean - fl[i - 1].mean == 0.6 / frequency > 0.0
    {
      var ratio := ToNumber(o.flutterRatio).value;
      MulPositive(ratio, heartRate);
      var frequency := ratio * heartRate / 60.0;
      var gap := 0.6 / frequency;
      assert fl[i].mean - fl[i - 1].mean == (i as real - (i - 1) as real) * gap;
    }
  }

  /** One entry `{ peak, time }` of `peaksList`. `None` stands for the NaN that `t[start]` yields
      when `start` is past the end of `t`. */
  datatype PeakEntry = PeakEntry(peak: WaveKind, time: Option<real>)

  /** `t[start] + time` */
  function PeakTime(t: seq<real>, start: int, offset: real): (time: Option<real>)
    ensures time.Some? <==> 0 <= start < |t|
    ensures time.Some? ==> time.value - offset == t[start]
  {
    if 0 <= start < |t| then Some(t[start] + offset) else None
  }

  /** The offset recorded for `kind`; the P offset is read only when it is not null. */
  function Offset(peaks: Peaks, kind: WaveKind): real {
    match kind
    case P => if peaks.p.Some? then peaks.p.value else 0.0
    case Q => peaks.q
    case R => peaks.r
    case S => peaks.s
    case T => peaks.t
  }

  /** The entries one beat pushes: `Object.entries(peaks)` in insertion order P, Q, R, S, T,
      skipping a null time (only `P` can be null). */
  function BeatPeaks(peaks: Peaks, t: seq<real>, start: int): (es: seq<PeakEntry>)
    ensures |es| == |Kinds(peaks.p.Some?)|
    ensures forall q :: 0 <= q < |es| ==>
      es[q] == PeakEntry(Kinds(peaks.p.Some?)[q], PeakTime(t, start, Offset(peaks, Kinds(peaks.p.Some?)[q])))
  {
    (if peaks.p.Some? then [PeakEntry(P, PeakTime(t, start, peaks.p.value))] else [])
    + [ PeakEntry(Q, PeakTime(t, start, peaks.q)), PeakEntry(R, PeakTime(t, start, peaks.r)),
        PeakEntry(S, PeakTime(t, start, peaks.s)), PeakEntry(T, PeakTime(t, start, peaks.t)) ]
  }

  /** `peaksList` after the first `m` beats. */
  function PeaksList(peaks: Peaks, t: seq<real>, m: nat, spb: real): (es: seq<PeakEntry>)
    ensures |es| == m * |Kinds(peaks.p.Some?)|
  {
    if m == 0 then []
    else PeaksList(peaks, t, m - 1, spb) + BeatPeaks(peaks, t, BeatStart(m - 1, spb))
  }

  /** `peaksList` holds, beat after beat, the peaks of that beat: with K entries per beat, entry
      `idx` is peak `idx % K` of beat `idx / K`, timed from that beat's first sample. */
  lemma {:induction false} PeaksListLayout(peaks: Peaks, t: seq<real>, m: nat, spb: real)
    ensures var es := PeaksList(peaks, t, m, spb);
      var ks := Kinds(peaks.p.Some?);
      forall idx :: 0 <= idx < |es| ==>
        es[idx] == PeakEntry(ks[idx % |ks|], PeakTime(t, BeatStart(idx / |ks|, spb), Offset(peaks, ks[idx % |ks|])))
  {
    var ks := Kinds(peaks.p.Some?);
    var K := |ks|;
    if m > 0 {
      PeaksListLayout(peaks, t, m - 1, spb);
      var prev := PeaksList(peaks, t, m - 1, spb);
      var es := PeaksList(peaks, t, m, spb);
      forall idx | 0 <= idx < |es|
        ensures es[idx] == PeakEntry(ks[idx % K], PeakTime(t, BeatStart(idx / K, spb), Offset(peaks, ks[idx % K])))
      {
        if idx < |prev| {
          assert es[idx] == prev[idx];
        } else {
          var q := idx - |prev|;
          assert es[idx] == BeatPeaks(peaks, t, BeatStart(m - 1, spb))[q];
          DivModOfBlock(m - 1, K, q, idx);
        }
      }
    }
  }

  /** `0.05 * (Math.random() - 0.5)` for each sample, from that sample's draw. */
  function Noise(draws: seq<real>): (noise: seq<real>)
    ensures |noise| == |draws|
  {
    seq(|draws|, j requires 0 <= j < |draws| => 0.05 * (draws[j] - 0.5))
  }

  /** With draws in [0, 1) the noise lies in [-0.025, 0.025). */
  lemma NoiseBounded(draws: seq<real>)
    requires forall j :: 0 <= j < |draws| ==> 0.0 <= draws[j] < 1.0
    ensures forall j :: 0 <= j < |draws| ==> -0.025 <= Noise(draws)[j] < 0.025
  {
  }

  /** How often `for (let i = 0; i < Math.floor(duration * heartRate / 60); i++)` runs. */
  function BeatCount(duration: real, heartRate: real): (m: nat)
    ensures m == Max((duration * heartRate / 60.0).Floor, 0)
  {
    LoopCount((duration * heartRate / 60.0).Floor as real)
  }

  datatype Ekg = Ekg(t: seq<real>, ekgSignal: seq<real>, peaksList: seq<PeakEntry>)

  /** The draws a call consumes: one per sample of the `duration * samplingRate` samples. */
  predicate ValidDraws(draws: seq<real>, duration: real, samplingRate: real) {
    |draws| == ToLength(duration * samplingRate) && forall j :: 0 <= j < |draws| ==> 0.0 <= draws[j] < 1.0
  }

  /** `generateEKG(duration, heartRate, samplingRate, ...params)`. Every beat calls `ekgWaveform`
      with the same arguments, so it throws at the first beat if it throws at all; with no beat it
      is never called. The returned `t` has all `duration * samplingRate` samples. */
  function GenerateEkg(exp: real -> real, duration: real, heartRate: real, samplingRate: real, params: seq<JsValue>, draws: seq<real>): (r: Completion<Ekg>)
    requires heartRate > 0.0 && samplingRate > 0.0 && ValidDraws(draws, duration, samplingRate)
    ensures r.Throw? <==> BeatCount(duration, heartRate) > 0 && Truthy(BindOptions(params).variableRR)
    ensures r.Normal? ==> r.value.t == TimeAxis(ToLength(duration * samplingRate), samplingRate)
    ensures r.Normal? ==> |r.value.ekgSignal| == ToLength(duration * samplingRate)
  {
    var n := ToLength(duration * samplingRate);
    var t := TimeAxis(n, samplingRate);
    var spb := SamplesPerBeat(heartRate, samplingRate);
    var m := BeatCount(duration, heartRate);
    if m == 0 then Normal(Ekg(t, Zeros(n), []))
    else
      match EkgWaveform(exp, t[..Min(BeatLength(spb), n)], heartRate, BindOptions(params))
      case Throw(e) => Throw(e)
      case Normal(w) =>
        Normal(Ekg(t, WriteBeats(Zeros(n), m, spb, w.ekgBeat, Noise(draws), Overwrite), PeaksList(w.peaks, t, m, spb)))
  }

  /** The beats run end no later than the signal does: beat `BeatCount` would start at or before
      sample `duration * samplingRate`, so each of the beats run ends within the signal and the
      `j < ekgSignal.length` guard never cuts a beat short. */
  lemma BeatsFitSignal(duration: real, heartRate: real, samplingRate: real)
    requires heartRate > 0.0 && samplingRate > 0.0
    ensures var spb := SamplesPerBeat(heartRate, samplingRate);
      forall i :: 0 <= i < BeatCount(duration, heartRate) ==> BeatEnd(i, spb) <= ToLength(duration * samplingRate)
  {
    var m := BeatCount(duration, heartRate);
    var spb := SamplesPerBeat(heartRate, samplingRate);
    if m > 0 {
      var x := duration * heartRate / 60.0;
      assert m as real <= x;
      MulMonotonic(m as real, x, spb);
      assert x * spb == duration * samplingRate by {
        assert x * spb == (duration * heartRate / 60.0) * (60.0 / heartRate) * samplingRate;
        assert (duration * heartRate / 60.0) * (60.0 / heartRate) == duration;
      }
      FloorMonotonic(m as real * spb, duration * samplingRate);
      BeatsFit(m, spb, ToLength(duration * samplingRate));
    }
  }

  /** For a call whose `variableRR` is not truthy, each beat overwrites its samples with the
      beat's pulses evaluated `j - start` samples into the beat plus that sample's noise; beats
      never overlap, so every sample of a beat holds its own value and nothing of another beat. Samples no beat covers, in particular every sample
      after the last beat, stay 0. */
  lemma SignalOfTrace(exp: real -> real, duration: real, heartRate: real, samplingRate: real, params: seq<JsValue>, draws: seq<real>)
    requires heartRate > 0.0 && samplingRate > 0.0 && ValidDraws(draws, duration, samplingRate)
    requires !Truthy(BindOptions(params).variableRR)
    ensures var e := GenerateEkg(exp, duration, heartRate, samplingRate, params, draws).value;
      var spb := SamplesPerBeat(heartRate, samplingRate);
      var m := BeatCount(duration, heartRate);
      && (forall i, j :: 0 <= i < m && BeatStart(i, spb) <= j < BeatEnd(i, spb) ==>
            j < |e.ekgSignal| &&
            e.ekgSignal[j] == Superpose(exp, WaveformTerms(BindOptions(params), heartRate), (j - BeatStart(i, spb)) as real / samplingRate)
                              + 0.05 * (draws[j] - 0.5))
      && (forall j :: 0 <= j < |e.ekgSignal| && !Covered(j, m, spb) ==> e.ekgSignal[j] == 0.0)
      && (forall j :: 0 <= j < |e.ekgSignal| && BeatStart(m, spb) <= j ==> e.ekgSignal[j] == 0.0)
  {
    var e := GenerateEkg(exp, duration, heartRate, samplingRate, params, draws).value;
    var n := ToLength(duration * samplingRate);
    var t := TimeAxis(n, samplingRate);
    var spb := SamplesPerBeat(heartRate, samplingRate);
    var m := BeatCount(duration, heartRate);
    BeatsFitSignal(duration, heartRate, samplingRate);
    forall j | 0 <= j < n && BeatStart(m, spb) <= j
      ensures !Covered(j, m, spb)
    {
      forall i | 0 <= i < m
        ensures BeatEnd(i, spb) <= j
      {
        BeatsOrdered(i, m, spb);
      }
    }
    if m > 0 {
      var o := BindOptions(params);
      var w := EkgWaveform(exp, t[..Min(BeatLength(spb), n)], heartRate, o).value;
      LaidOut(m, spb, n, w.ekgBeat, Noise(draws), Overwrite);
      assert e.ekgSignal == WriteBeats(Zeros(n), m, spb, w.ekgBeat, Noise(draws), Overwrite);
      forall i, j | 0 <= i < m && BeatStart(i, spb) <= j < BeatEnd(i, spb)
        ensures j < |e.ekgSignal|
        ensures e.ekgSignal[j] == Superpose(exp, WaveformTerms(o, heartRate), (j - BeatStart(i, spb)) as real / samplingRate)
                                  + 0.05 * (draws[j] - 0.5)
      {
        var k := j - BeatStart(i, spb);
        assert t[..Min(BeatLength(spb), n)][k] == k as real / samplingRate;
      }
    }
  }

  /** For a call whose `variableRR` is not truthy, `peaksList` has K entries per beat (five with a
      truthy `pWave`, four without, the null P offset being skipped), beat by beat in the order P, Q, R, S, T, each timed at the beat's first
      sample plus the peak's fixed offset. */
  lemma PeaksOfTrace(exp: real -> real, duration: real, heartRate: real, samplingRate: real, params: seq<JsValue>, draws: seq<real>)
    requires heartRate > 0.0 && samplingRate > 0.0 && ValidDraws(draws, duration, samplingRate)
    requires !Truthy(BindOptions(params).variableRR)
    ensures var e := GenerateEkg(exp, duration, heartRate, samplingRate, params, draws).value;
      var spb := SamplesPerBeat(heartRate, samplingRate);
      var m := BeatCount(duration, heartRate);
      var ks := Kinds(Truthy(BindOptions(params).pWave));
      var K := |ks|;
      && K == (if Truthy(BindOptions(params).pWave) then 5 else 4)
      && |e.peaksList| == m * K
      && forall idx :: 0 <= idx < |e.peaksList| ==>
           && 0 <= idx / K < m
           && e.peaksList[idx].peak == ks[idx % K]
           && e.peaksList[idx].time == PeakTime(e.t, BeatStart(idx / K, spb), Position(ks[idx % K], BeatDuration(heartRate)))
  {
    var n := ToLength(duration * samplingRate);
    var t := TimeAxis(n, samplingRate);
    var spb := SamplesPerBeat(heartRate, samplingRate);
    var m := BeatCount(duration, heartRate);
    var o := BindOptions(params);
    if m > 0 {
      var w := EkgWaveform(exp, t[..Min(BeatLength(spb), n)], heartRate, o).value;
      PeaksListLayout(w.peaks, t, m, spb);
      var ks := Kinds(Truthy(o.pWave));
      forall idx | 0 <= idx < |PeaksList(w.peaks, t, m, spb)|
        ensures 0 <= idx / |ks| < m
      {
        DivBelow(idx, |ks|, m);
      }
    }
  }

  /** While a beat spans at least one sample (heartRate <= 60 * samplingRate), every beat starts
      inside the signal, so every peak time is the number `start / samplingRate + offset`. */
  lemma PeakTimesDefined(duration: real, heartRate: real, samplingRate: real, i: int, offset: real)
    requires heartRate > 0.0 && samplingRate > 0.0 && SamplesPerBeat(heartRate, samplingRate) >= 1.0
    requires 0 <= i < BeatCount(duration, heartRate)
    ensures var spb := SamplesPerBeat(heartRate, samplingRate);
      PeakTime(TimeAxis(ToLength(duration * samplingRate), samplingRate), BeatStart(i, spb), offset)
        == Some(BeatStart(i, spb) as real / samplingRate + offset)
  {
    BeatsFitSignal(duration, heartRate, samplingRate);
  }
}
