/** The simulator screen of `EKGSimulator.js`: a catalogue of six arrhythmias as plain objects,
    the random choice of one, its 5-second trace at 1000 Hz from `ekgUtils.generateEKG`, and the
    case-insensitive check of the user's diagnosis. */
module EkgSimulator {
  import opened Js
  import opened Beats
  import opened Pulses
  import opened EkgUtils

  /** The `arrhythmias` object, its entries in insertion order (the order of `Object.keys`). */
  const Arrhythmias: seq<(string, map<string, JsValue>)> := [
    ("Sinus Tachycardia", map[
      "heartRate" := Num(100.0), "pWave" := Bool(true),
      "description" := Str("Sinus tachycardia is characterized by a regular rhythm with a P wave preceding every QRS complex. The heart rate is typically above 100 bpm.")]),
    ("Afib with RVR", map[
      "heartRate" := Num(150.0), "pWave" := Bool(false), "variableRR" := Bool(true),
      "description" := Str("Atrial fibrillation with rapid ventricular response lacks distinct P waves, and the R-R interval varies irregularly due to uncoordinated atrial activity.")]),
    ("Aflutter", map[
      "heartRate" := Num(150.0), "flutterRatio" := Num(2.0), "pWave" := Bool(false),
      "description" := Str("Atrial flutter has a characteristic 'sawtooth' pattern due to rapid atrial flutter waves, with a consistent R-R interval and a ventricular rate around 150 bpm.")]),
    ("AVRT", map[
      "heartRate" := Num(220.0), "retrogradeP" := Bool(true), "variableRR" := Bool(true),
      "description" := Str("Atrioventricular reentrant tachycardia shows a very fast ventricular rate (200-300 bpm), with retrograde P waves and some variability in R wave amplitude.")]),
    ("AVNRT", map[
      "heartRate" := Num(180.0), "retrogradeP" := Bool(true), "pWave" := Bool(false),
      "description" := Str("Atrioventricular nodal reentrant tachycardia has a fast rate of 140-280 bpm, with a short PR interval and often overlapping P and QRS waves.")]),
    ("Multifocal Atrial Tachycardia", map[
      "heartRate" := Num(100.0), "variableRR" := Bool(true), "pWave" := Bool(true),
      "description" := Str("Multifocal atrial tachycardia features P waves with at least 3 different morphologies and variable P-P, P-R, and R-R intervals, with some P waves not followed by QRS complexes.")])
  ]

  /** The catalogue has six distinct names, and every entry has a numeric heart rate of at least
      100 bpm. */
  lemma CatalogWellFormed()
    ensures |Arrhythmias| == 6
    ensures forall i, k :: 0 <= i < k < |Arrhythmias| ==> Arrhythmias[i].0 != Arrhythmias[k].0
    ensures forall i :: 0 <= i < |Arrhythmias| ==>
      Get(Arrhythmias[i].1, "heartRate").Num? && Get(Arrhythmias[i].1, "heartRate").n >= 100.0
  {
  }

  /** `arrhythmiaTypes[Math.floor(Math.random() * arrhythmiaTypes.length)]` and its entry: always
      an entry of the catalogue, so the lookup `arrhythmias[randomType]` never misses. */
  function PickType(r: real): (pick: (string, map<string, JsValue>))
    requires 0.0 <= r < 1.0
    ensures pick in Arrhythmias
    ensures Get(pick.1, "heartRate").Num? && Get(pick.1, "heartRate").n > 0.0
  {
    CatalogWellFormed();
    Arrhythmias[RandomIndex(r, |Arrhythmias|)]
  }

  /** `const { heartRate, ...params } = entry`: the heart rate, and the object holding every other
      property unchanged. */
  function SplitHeartRate(entry: map<string, JsValue>): (split: (JsValue, map<string, JsValue>))
    ensures split.0 == Get(entry, "heartRate")
    ensures "heartRate" !in split.1
    ensures forall key :: key in split.1 <==> key in entry && key != "heartRate"
    ensures forall key :: key in split.1 ==> split.1[key] == entry[key]
  {
    (Get(entry, "heartRate"), entry - {"heartRate"})
  }

  /** `simulateRandomEKG`: the chosen type and `generateEKG(5, heartRate, 1000, params)`. The whole
      `params` object is one argument, so it binds to `ekgWaveform`'s `pWave` parameter. */
  function SimulateRandom(exp: real -> real, r: real, draws: seq<real>): (result: (string, Completion<Ekg>))
    requires 0.0 <= r < 1.0 && ValidDraws(draws, 5.0, 1000.0)
    ensures result.0 == PickType(r).0
    ensures result.1.Normal?
    ensures result.1 == GenerateEkg(exp, 5.0, Get(PickType(r).1, "heartRate").n, 1000.0,
                                    [Obj(SplitHeartRate(PickType(r).1).1)], draws)
  {
    var (name, entry) := PickType(r);
    var (heartRate, params) := SplitHeartRate(entry);
    BindingOfParams(params);
    (name, GenerateEkg(exp, 5.0, heartRate.n, 1000.0, [Obj(params)], draws))
  }

  /** Passing the object as a single argument: `pWave` receives the object (truthy), and
      `variableRR`, `flutterRatio` and `retrogradeP` keep their defaults. So a beat is the P pulse
      and the QRS-T complex only, and `ekgWaveform` never throws. */
  lemma BindingOfParams(params: map<string, JsValue>)
    ensures BindOptions([Obj(params)]) == WaveformOptions(Obj(params), Bool(false), Null, Bool(false))
    ensures forall heartRate :: heartRate > 0.0 ==>
      WaveformTerms(BindOptions([Obj(params)]), heartRate)
        == [PTerm(Position(P, BeatDuration(heartRate)), BeatDuration(heartRate))] + QrstTerms(BeatDuration(heartRate))
  {
    forall heartRate | heartRate > 0.0
      ensures WaveformTerms(BindOptions([Obj(params)]), heartRate)
        == [PTerm(Position(P, BeatDuration(heartRate)), BeatDuration(heartRate))] + QrstTerms(BeatDuration(heartRate))
    {
      var bd := BeatDuration(heartRate);
      assert FlutterTerms(BindOptions([Obj(params)]), heartRate) == [];
      assert [PTerm(Position(P, bd), bd)] + QrstTerms(bd) + [] + [] == [PTerm(Position(P, bd), bd)] + QrstTerms(bd);
    }
  }

  /** Whatever the chosen entry says about `pWave`, `variableRR`, `flutterRatio` or `retrogradeP`,
      the simulated trace never fails, has no flutter or retrograde pulses, and lists five peaks
      (P, Q, R, S, T) per beat. */
  lemma SimulationIgnoresFlags(exp: real -> real, r: real, draws: seq<real>)
    requires 0.0 <= r < 1.0 && ValidDraws(draws, 5.0, 1000.0)
    ensures var heartRate := Get(PickType(r).1, "heartRate").n;
      var e := SimulateRandom(exp, r, draws).1.value;
      && |e.t| == 5000
      && |e.peaksList| == BeatCount(5.0, heartRate) * 5
      && forall idx :: 0 <= idx < |e.peaksList| ==> e.peaksList[idx].peak == Kinds(true)[idx % 5]
  {
    var entry := PickType(r).1;
    var (heartRate, params) := SplitHeartRate(entry);
    BindingOfParams(params);
    assert SimulateRandom(exp, r, draws).1 == GenerateEkg(exp, 5.0, heartRate.n, 1000.0, [Obj(params)], draws);
    PeaksOfTrace(exp, 5.0, heartRate.n, 1000.0, [Obj(params)], draws);
    assert ToLength(5.0 * 1000.0) == 5000;
  }

  /** `Math.floor(5 * heartRate / 60)` beats: 8 at 100 bpm, 12 at 150, 15 at 180 and 18 at 220. */
  lemma BeatCounts()
    ensures BeatCount(5.0, 100.0) == 8
    ensures BeatCount(5.0, 150.0) == 12
    ensures BeatCount(5.0, 180.0) == 15
    ensures BeatCount(5.0, 220.0) == 18
  {
    assert 8.0 <= 5.0 * 100.0 / 60.0 < 9.0;
    assert 12.0 <= 5.0 * 150.0 / 60.0 < 13.0;
    assert 15.0 <= 5.0 * 180.0 / 60.0 < 16.0;
    assert 18.0 <= 5.0 * 220.0 / 60.0 < 19.0;
  }

  const CorrectAlert := "Correct! Well done!"

  /** `checkDiagnosis`: the alert shown for the user's diagnosis against the chosen type. */
  function CheckDiagnosis(userDiagnosis: string, chosenType: string): (alert: string)
    ensures alert == CorrectAlert <==> ToLowerCase(userDiagnosis) == ToLowerCase(chosenType)
    ensures alert != CorrectAlert ==> alert == "Incorrect. The correct answer was '" + chosenType + "'."
  {
    if ToLowerCase(userDiagnosis) == ToLowerCase(chosenType) then CorrectAlert
    else
      var incorrect := "Incorrect. The correct answer was '" + chosenType + "'.";
      assert incorrect[0] != CorrectAlert[0];
      incorrect
  }

  /** Two strings agree letter by letter once ASCII upper case is mapped to lower case. */
  predicate SameIgnoringCase(a: string, b: string) {
    |a| == |b| && forall i :: 0 <= i < |a| ==> LowerChar(a[i]) == LowerChar(b[i])
  }

  /** The diagnosis is correct exactly when the two strings agree ignoring letter case; the check is
      reflexive, symmetric, and unaffected by lower-casing either side first. */
  lemma CheckDiagnosisProperties(u: string, c: string)
    ensures CheckDiagnosis(u, c) == CorrectAlert <==> SameIgnoringCase(u, c)
    ensures CheckDiagnosis(u, u) == CorrectAlert
    ensures (CheckDiagnosis(u, c) == CorrectAlert) == (CheckDiagnosis(c, u) == CorrectAlert)
    ensures CheckDiagnosis(ToLowerCase(u), c) == CheckDiagnosis(u, c)
  {
    if SameIgnoringCase(u, c) {
      assert ToLowerCase(u) == ToLowerCase(c);
    }
    if ToLowerCase(u) == ToLowerCase(c) {
      forall i | 0 <= i < |u|
        ensures LowerChar(u[i]) == LowerChar(c[i])
      {
        assert ToLowerCase(u)[i] == ToLowerCase(c)[i];
      }
    }
    ToLowerCaseIdempotent(u);
  }
}
