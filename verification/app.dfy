/** The trace generator of `App.js`: a catalogue of four arrhythmias, `generateEKG`, which
    lays `numWaves` identical beats into a zero signal with `+=` and records the P/Q/R/S/T
    highlight windows of every beat, the highlight annotation map, the pulse-count selector
    and the random choice of an arrhythmia. */
module AppEkg {
  import opened Js
  import opened Beats
  import opened Pulses

  /** An entry of the `arrhythmias` catalogue: `Pwave`, `Placement` and `Ppositive`
      (absent in two entries, hence optional). */
  datatype Arrhythmia = Arrhythmia(heartRate: real, pWave: bool, placement: bool, pPositive: Option<bool>, description: string)

  const Catalog: seq<(string, Arrhythmia)> := [
    ("Sinus Tachycardia", Arrhythmia(100.0, true, false, Some(true),
      "Regular rhythm with a P wave preceding every QRS complex.")),
    ("Afib with RVR", Arrhythmia(150.0, false, false, None,
      "Lacks distinct P waves, has variable R-R intervals.")),
    ("AVRT", Arrhythmia(220.0, true, true, Some(false),
      "Very fast rate (200-300 bpm), with retrograde P waves.")),
    ("AVNRT", Arrhythmia(180.0, false, false, None,
      "Fast rate, with retrograde P waves possibly overlaying the QRS."))
  ]

  /** The catalogue has four distinct names, each with a heart rate of at least 100 bpm. */
  lemma CatalogWellFormed()
    ensures |Catalog| == 4
    ensures forall i, k :: 0 <= i < k < |Catalog| ==> Catalog[i].0 != Catalog[k].0
    ensures forall i :: 0 <= i < |Catalog| ==> Catalog[i].1.heartRate >= 100.0
  {
  }

  /** `arrhythmias[name]`: the entry registered under `name`, if any. */
  function Lookup(name: string): (r: Option<Arrhythmia>)
    ensures r.None? <==> forall i :: 0 <= i < |Catalog| ==> Catalog[i].0 != name
    ensures r.Some? ==> (name, r.value) in Catalog && r.value.heartRate >= 100.0
  {
    if name == Catalog[0].0 then Some(Catalog[0].1)
    else if name == Catalog[1].0 then Some(Catalog[1].1)
    else if name == Catalog[2].0 then Some(Catalog[2].1)
    else if name == Catalog[3].0 then Some(Catalog[3].1)
    else None
  }

  /** The pulses of one beat, in the order the `.map` calls apply them: the P pulse if `Pwave`
      (moved to 0.1 of a beat after the R peak when `Placement`), the QRS-T complex, then the P
      pulse at its usual place subtracted again when `Ppositive === false` and `Pwave`. */
  function BeatTerms(a: Arrhythmia, bd: Width): (terms: seq<Term>)
    ensures |terms| == (if a.pWave then 1 else 0) + 4 + (if a.pWave && a.pPositive == Some(false) then 1 else 0)
  {
    (if a.pWave then [PTerm(if a.placement then Position(R, bd) + 0.1 * bd else Position(P, bd), bd)] else [])
    + QrstTerms(bd)
    + (if a.pPositive == Some(false) && a.pWave then [Term(Minus, Position(P, bd), 0.1, 0.05 * bd)] else [])
  }

  /** Which pulses a beat is made of. Without `Pwave` only the QRS-T complex is present. With
      `Placement` the added P pulse sits at `rWaveStart + 0.1 * beatDuration`, otherwise at
      `pWaveStart`. With `Pwave`, no `Placement` and `Ppositive === false`, the P pulse is added and
      subtracted at the same place, so the beat equals its bare QRS-T complex at every time. With
      `Pwave`, `Placement` and `Ppositive === false` (the AVRT entry) the P pulse is added at
      0.55 of the beat and subtracted at `pWaveStart`, 0.2 of the beat, so the two do not cancel. */
  lemma BeatComposition(exp: real -> real, a: Arrhythmia, bd: Width, x: real)
    ensures !a.pWave ==> BeatTerms(a, bd) == QrstTerms(bd)
    ensures a.pWave ==> BeatTerms(a, bd)[0].sign == Plus
    ensures a.pWave && a.placement ==> BeatTerms(a, bd)[0].mean == 0.55 * bd
    ensures a.pWave && !a.placement ==> BeatTerms(a, bd)[0].mean == Position(P, bd)
    ensures a.pWave && a.pPositive != Some(false) ==>
      Superpose(exp, BeatTerms(a, bd), x) == Contribution(exp, BeatTerms(a, bd)[0], x) + Superpose(exp, QrstTerms(bd), x)
    ensures a.pWave && !a.placement && a.pPositive == Some(false) ==>
      Superpose(exp, BeatTerms(a, bd), x) == Superpose(exp, QrstTerms(bd), x)
    ensures a.pWave && a.placement && a.pPositive == Some(false) ==>
      Superpose(exp, BeatTerms(a, bd), x)
        == GaussianWave(exp, x, 0.55 * bd, 0.1, 0.05 * bd) + Superpose(exp, QrstTerms(bd), x)
           - GaussianWave(exp, x, Position(P, bd), 0.1, 0.05 * bd)
  {
    var terms := BeatTerms(a, bd);
    if !a.pWave {
      assert terms == [] + QrstTerms(bd) + [];
    } else if a.pPositive != Some(false) {
      assert terms == [terms[0]] + QrstTerms(bd) + [];
      assert terms == [terms[0]] + QrstTerms(bd);
      SuperposeAppend(exp, [terms[0]], QrstTerms(bd), x);
      assert Superpose(exp, [terms[0]], x) == Superpose(exp, [], x) + Contribution(exp, terms[0], x);
    } else if !a.placement {
      Cancel(exp, Position(P, bd), 0.1, 0.05 * bd, QrstTerms(bd), x);
    } else {
      var added, removed := terms[0], terms[5];
      assert terms == [added] + QrstTerms(bd) + [removed];
      SuperposeAppend(exp, [added] + QrstTerms(bd), [removed], x);
      SuperposeAppend(exp, [added], QrstTerms(bd), x);
      assert Superpose(exp, [added], x) == Superpose(exp, [], x) + Contribution(exp, added, x);
      assert Superpose(exp, [removed], x) == Superpose(exp, [], x) + Contribution(exp, removed, x);
    }
  }

  /** A highlight window `{ type, start, end }` of `wavePositions`, in sample indices. */
  datatype Window = Window(kind: WaveKind, start: int, end: int)

  /** The highlighted span of a deflection, as a fraction of the beat: 0.2 for T, 0.1 otherwise. */
  function WindowWidth(kind: WaveKind): real {
    if kind == T then 0.2 else 0.1
  }

  /** `{ type, start: start + Math.floor(xWaveStart * samplingRate),
        end: start + Math.floor((xWaveStart + width * beatDuration) * samplingRate) }`
      where `xWaveStart = fraction * beatDuration`, so that the bounds are fractions of the
      beat's `spb` samples. */
  function WaveWindow(kind: WaveKind, spb: real, start: int): (w: Window)
    ensures w.kind == kind
    ensures 0.0 <= spb ==> start <= w.start <= w.end <= start + BeatLength(spb)
  {
    ScaledMonotonic(0.0, Fraction(kind), spb);
    ScaledMonotonic(Fraction(kind), Fraction(kind) + WindowWidth(kind), spb);
    ScaledMonotonic(Fraction(kind) + WindowWidth(kind), 1.0, spb);
    Window(kind, start + (Fraction(kind) * spb).Floor, start + ((Fraction(kind) + WindowWidth(kind)) * spb).Floor)
  }

  /** The windows pushed for the beat starting at sample `start`. */
  function BeatWindows(a: Arrhythmia, spb: real, start: int): (ws: seq<Window>)
    ensures |ws| == |Kinds(a.pWave)|
  {
    seq(|Kinds(a.pWave)|, q requires 0 <= q < |Kinds(a.pWave)| => WaveWindow(Kinds(a.pWave)[q], spb, start))
  }

  /** No window of a beat is reversed, the windows start in the order P <= Q <= R <= S <= T, and
      each lies inside its beat's range [start, start + floor(spb)]. */
  lemma BeatWindowsWellFormed(a: Arrhythmia, spb: real, start: int)
    requires 0.0 < spb
    ensures forall q :: 0 <= q < |BeatWindows(a, spb, start)| ==>
      start <= BeatWindows(a, spb, start)[q].start <= BeatWindows(a, spb, start)[q].end <= start + BeatLength(spb)
    ensures forall q, q' :: 0 <= q < q' < |BeatWindows(a, spb, start)| ==>
      BeatWindows(a, spb, start)[q].start <= BeatWindows(a, spb, start)[q'].start
  {
    var ws := BeatWindows(a, spb, start);
    var ks := Kinds(a.pWave);
    forall q | 0 <= q < |ws|
      ensures start <= ws[q].start <= ws[q].end <= start + BeatLength(spb)
    {
      assert ws[q] == WaveWindow(ks[q], spb, start);
    }
    forall q, q' | 0 <= q < q' < |ws|
      ensures ws[q].start <= ws[q'].start
    {
      assert Fraction(ks[q]) <= Fraction(ks[q']);
      ScaledMonotonic(Fraction(ks[q]), Fraction(ks[q']), spb);
      assert ws[q] == WaveWindow(ks[q], spb, start);
      assert ws[q'] == WaveWindow(ks[q'], spb, start);
    }
  }

  /** `wavePositions` after the first `m` beats. */
  function WavePositions(a: Arrhythmia, spb: real, m: nat): (ws: seq<Window>)
    ensures |ws| == m * |Kinds(a.pWave)|
  {
    if m == 0 then []
    else WavePositions(a, spb, m - 1) + BeatWindows(a, spb, BeatStart(m - 1, spb))
  }

  /** `wavePositions` holds, beat after beat, the windows P, Q, R, S, T (Q, R, S, T without
      `Pwave`) of that beat: with K windows per beat, entry `idx` is window `idx % K` of beat `idx / K`. */
  lemma {:induction false} WavePositionsLayout(a: Arrhythmia, spb: real, m: nat)
    ensures forall idx :: 0 <= idx < |WavePositions(a, spb, m)| ==>
      WavePositions(a, spb, m)[idx]
        == WaveWindow(Kinds(a.pWave)[idx % |Kinds(a.pWave)|], spb, BeatStart(idx / |Kinds(a.pWave)|, spb))
  {
    var K := |Kinds(a.pWave)|;
    if m > 0 {
      WavePositionsLayout(a, spb, m - 1);
      var prev := WavePositions(a, spb, m - 1);
      var ws := WavePositions(a, spb, m);
      forall idx | 0 <= idx < |ws|
        ensures ws[idx] == WaveWindow(Kinds(a.pWave)[idx % K], spb, BeatStart(idx / K, spb))
      {
        if idx < |prev| {
          assert ws[idx] == prev[idx];
        } else {
          LastBeatEntry(a, spb, m, idx);
        }
      }
    }
  }

  /** An entry pushed by the last of `m` beats is the window of its kind for that beat. */
  lemma LastBeatEntry(a: Arrhythmia, spb: real, m: nat, idx: int)
    requires 0 < m && |WavePositions(a, spb, m - 1)| <= idx < |WavePositions(a, spb, m)|
    ensures WavePositions(a, spb, m)[idx]
      == WaveWindow(Kinds(a.pWave)[idx % |Kinds(a.pWave)|], spb, BeatStart(idx / |Kinds(a.pWave)|, spb))
  {
    var K := |Kinds(a.pWave)|;
    var prev := WavePositions(a, spb, m - 1);
    var last := BeatWindows(a, spb, BeatStart(m - 1, spb));
    var q := idx - |prev|;
    assert WavePositions(a, spb, m)[idx] == last[q];
    DivModOfBlock(m - 1, K, q, idx);
  }

  /** The output of `generateEKG`. */
  datatype Trace = Trace(t: seq<real>, ekgSignal: seq<real>, wavePositions: seq<Window>)

  /** `slice(0, Math.ceil(numWaves * beatDuration * samplingRate))` on an array of length `n`. */
  function TrimmedLength(n: nat, numWaves: int, spb: real): (k: nat)
    requires 0.0 < spb
    ensures k <= n
    ensures 0 <= numWaves ==> k == Min(n, Ceil(numWaves as real * spb))
  {
    MulMonotonic(0.0, numWaves as real, spb);
    SliceEnd(n, Ceil(numWaves as real * spb))
  }

  /** `generateEKG(duration, arrhythmiaType, samplingRate, numWaves)` on the catalogue entry `a`:
      the time axis and signal have equal length, trimmed to `ceil(numWaves * beatDuration *
      samplingRate)` samples (never more than were generated), and sample `i` sits at time
      `i / samplingRate`. */
  function GenerateEkg(exp: real -> real, duration: real, a: Arrhythmia, samplingRate: real, numWaves: int): (r: Trace)
    requires a.heartRate > 0.0 && samplingRate > 0.0
    ensures |r.t| == |r.ekgSignal| <= ToLength(duration * samplingRate)
    ensures 0 <= numWaves ==>
      |r.t| == Min(ToLength(duration * samplingRate), Ceil(numWaves as real * SamplesPerBeat(a.heartRate, samplingRate)))
    ensures r.t == TimeAxis(ToLength(duration * samplingRate), samplingRate)[..|r.t|]
  {
    var n := ToLength(duration * samplingRate);
    var spb := SamplesPerBeat(a.heartRate, samplingRate);
    var m := Max(numWaves, 0);
    var e := TrimmedLength(n, numWaves, spb);
    var t := TimeAxis(n, samplingRate);
    var signal := Signal(exp, a, samplingRate, n, m);
    assert |t| == |signal| == n;
    assert |t[..e]| == e;
    assert 0 <= numWaves ==> e == Min(n, Ceil(numWaves as real * spb));
    Trace(t[..e], signal[..e], WavePositions(a, spb, m))
  }

  /** `ekgSignal` before trimming: `m` beats laid with `+=` into `n` zero samples, each sample of a
      beat being the beat's pulses at that time plus 0.05. */
  function Signal(exp: real -> real, a: Arrhythmia, samplingRate: real, n: nat, m: nat): (signal: seq<real>)
    requires a.heartRate > 0.0 && samplingRate > 0.0
    ensures |signal| == n
  {
    var beat := BeatSamples(exp, BeatTerms(a, BeatDuration(a.heartRate)), TimeAxis(n, samplingRate));
    WriteBeats(Zeros(n), m, SamplesPerBeat(a.heartRate, samplingRate), beat, seq(n, _ => 0.05), Accumulate)
  }

  /** Each beat adds the same shape shifted to its start: sample `j` of beat `i` holds the beat's
      pulses evaluated `j - start` samples into the beat, plus the constant 0.05; a sample that no
      beat covers stays 0. Beats never overlap, so no sample receives two contributions. */
  lemma SignalIsShiftedBeat(exp: real -> real, duration: real, a: Arrhythmia, samplingRate: real, numWaves: int)
    requires a.heartRate > 0.0 && samplingRate > 0.0
    ensures var r := GenerateEkg(exp, duration, a, samplingRate, numWaves);
      var spb := SamplesPerBeat(a.heartRate, samplingRate);
      forall i, j :: 0 <= i < numWaves && BeatStart(i, spb) <= j < BeatEnd(i, spb) && j < |r.ekgSignal| ==>
        r.ekgSignal[j] == Superpose(exp, BeatTerms(a, BeatDuration(a.heartRate)), (j - BeatStart(i, spb)) as real / samplingRate) + 0.05
    ensures var r := GenerateEkg(exp, duration, a, samplingRate, numWaves);
      forall j :: 0 <= j < |r.ekgSignal| && !Covered(j, Max(numWaves, 0), SamplesPerBeat(a.heartRate, samplingRate)) ==>
        r.ekgSignal[j] == 0.0
  {
    var n := ToLength(duration * samplingRate);
    var t := TimeAxis(n, samplingRate);
    var spb := SamplesPerBeat(a.heartRate, samplingRate);
    var beat := BeatSamples(exp, BeatTerms(a, BeatDuration(a.heartRate)), t);
    var m := Max(numWaves, 0);
    var offset := seq(n, _ => 0.05);
    LaidOut(m, spb, n, beat, offset, Accumulate);
    var signal := WriteBeats(Zeros(n), m, spb, beat, offset, Accumulate);
    var r := GenerateEkg(exp, duration, a, samplingRate, numWaves);
    assert r.ekgSignal == signal[..|r.ekgSignal|];
    forall i, j | 0 <= i < numWaves && BeatStart(i, spb) <= j < BeatEnd(i, spb) && j < |r.ekgSignal|
      ensures r.ekgSignal[j] == Superpose(exp, BeatTerms(a, BeatDuration(a.heartRate)), (j - BeatStart(i, spb)) as real / samplingRate) + 0.05
    {
      var k := j - BeatStart(i, spb);
      assert signal[j] == beat[k] + offset[j];
      assert beat[k] == Superpose(exp, BeatTerms(a, BeatDuration(a.heartRate)), t[k]);
    }
  }

  /** Entry `idx` of `wavePositions` is window `idx % K` of beat `idx / K`, one of the first `m`
      beats, and lies inside that beat; it is a P window exactly when it opens a beat that has one. */
  lemma WindowAt(a: Arrhythmia, spb: real, m: nat, idx: int)
    requires 0.0 < spb && 0 <= idx < |WavePositions(a, spb, m)|
    ensures var ws := WavePositions(a, spb, m);
      var K := |Kinds(a.pWave)|;
      && ws[idx].kind == Kinds(a.pWave)[idx % K]
      && (ws[idx].kind == P <==> a.pWave && idx % K == 0)
      && 0 <= idx / K < m
      && BeatStart(idx / K, spb) <= ws[idx].start <= ws[idx].end <= BeatEnd(idx / K, spb)
  {
    var K := |Kinds(a.pWave)|;
    var i, q := idx / K, idx % K;
    WavePositionsLayout(a, spb, m);
    var w := WavePositions(a, spb, m)[idx];
    assert w == WaveWindow(Kinds(a.pWave)[q], spb, BeatStart(i, spb));
    DivBelow(idx, K, m);
  }

  /** The windows recorded by `generateEKG`: K per beat (five with `Pwave`, four without), beat by
      beat in the order P, Q, R, S, T, a P window exactly when `Pwave`, and every window ordered and
      inside its beat's range. */
  lemma WindowsOfTrace(exp: real -> real, duration: real, a: Arrhythmia, samplingRate: real, numWaves: int)
    requires a.heartRate > 0.0 && samplingRate > 0.0
    ensures var ws := GenerateEkg(exp, duration, a, samplingRate, numWaves).wavePositions;
      var K := |Kinds(a.pWave)|;
      var spb := SamplesPerBeat(a.heartRate, samplingRate);
      && K == (if a.pWave then 5 else 4)
      && |ws| == Max(numWaves, 0) * K
      && (forall idx :: 0 <= idx < |ws| ==> (ws[idx].kind == P <==> a.pWave && idx % K == 0))
      && (forall idx :: 0 <= idx < |ws| ==>
            && ws[idx].kind == Kinds(a.pWave)[idx % K]
            && 0 <= idx / K < numWaves
            && BeatStart(idx / K, spb) <= ws[idx].start <= ws[idx].end <= BeatEnd(idx / K, spb))
  {
    var m := Max(numWaves, 0);
    var spb := SamplesPerBeat(a.heartRate, samplingRate);
    var ws := GenerateEkg(exp, duration, a, samplingRate, numWaves).wavePositions;
    assert ws == WavePositions(a, spb, m);
    forall idx | 0 <= idx < |ws|
      ensures var K := |Kinds(a.pWave)|;
        && ws[idx].kind == Kinds(a.pWave)[idx % K]
        && (ws[idx].kind == P <==> a.pWave && idx % K == 0)
        && 0 <= idx / K < numWaves
        && BeatStart(idx / K, spb) <= ws[idx].start <= ws[idx].end <= BeatEnd(idx / K, spb)
    {
      WindowAt(a, spb, m, idx);
    }
  }

  /** `generateEKG(duration, name, samplingRate, numWaves)` looks the name up first; reading
      `.heartRate` of a missing entry throws a TypeError. */
  function GenerateEkgFor(exp: real -> real, duration: real, name: string, samplingRate: real, numWaves: int): (r: Completion<Trace>)
    requires samplingRate > 0.0
    ensures r.Throw? <==> Lookup(name).None?
    ensures r.Normal? ==> r.value == GenerateEkg(exp, duration, Lookup(name).value, samplingRate, numWaves)
  {
    match Lookup(name)
    case None => Throw(TypeError("Cannot read properties of undefined (reading 'heartRate')"))
    case Some(a) => Normal(GenerateEkg(exp, duration, a, samplingRate, numWaves))
  }

  /** A chart.js box annotation. */
  datatype Box = Box(xMin: real, xMax: real, yMin: real, yMax: real, backgroundColor: string, borderWidth: real)

  function Color(kind: WaveKind): string {
    if kind == P then "rgba(255, 223, 186, 0.5)"
    else if kind == T then "rgba(186, 255, 233, 0.5)"
    else "rgba(255, 186, 186, 0.5)"
  }

  /** `` `highlight${type}` `` */
  function HighlightKey(kind: WaveKind): string {
    match kind
    case P => "highlightP"
    case Q => "highlightQ"
    case R => "highlightR"
    case S => "highlightS"
    case T => "highlightT"
  }

  lemma HighlightKeyInjective(k: WaveKind, k': WaveKind)
    ensures HighlightKey(k) == HighlightKey(k') ==> k == k'
  {
    if HighlightKey(k) == HighlightKey(k') {
      assert HighlightKey(k)[9] == HighlightKey(k')[9];
    }
  }

  /** Every key the annotation loop can assign. */
  const HighlightKeys: set<string> := {"highlightP", "highlightQ", "highlightR", "highlightS", "highlightT"}

  /** The box drawn for a window, its sample bounds converted to seconds at 1000 Hz. */
  function BoxOf(w: Window): Box {
    Box(w.start as real / 1000.0, w.end as real / 1000.0, -1.0, 1.0, Color(w.kind), 0.0)
  }

  /** The `annotations` object after `wavePositions.forEach(...)` assigned a box per window. */
  function Annotations(ws: seq<Window>): (annotations: map<string, Box>)
    ensures annotations.Keys <= HighlightKeys
    decreases |ws|
  {
    if |ws| == 0 then map[]
    else Annotations(ws[..|ws| - 1])[HighlightKey(ws[|ws| - 1].kind) := BoxOf(ws[|ws| - 1])]
  }

  /** Assigning the boxes of `a` and then those of `b` is the union in which `b` wins. */
  lemma {:induction false} AnnotationsAppend(a: seq<Window>, b: seq<Window>)
    ensures Annotations(a + b) == Annotations(a) + Annotations(b)
    decreases |b|
  {
    if |b| == 0 {
      assert a + b == a;
    } else {
      var b' := b[..|b| - 1];
      assert (a + b)[..|a + b| - 1] == a + b';
      assert (a + b)[|a + b| - 1] == b[|b| - 1];
      AnnotationsAppend(a, b');
    }
  }

  /** Every window's type has a key. */
  lemma {:induction false} AnnotationsKeysComplete(ws: seq<Window>)
    ensures forall idx :: 0 <= idx < |ws| ==> HighlightKey(ws[idx].kind) in Annotations(ws)
    decreases |ws|
  {
    if |ws| > 0 {
      var prev := ws[..|ws| - 1];
      AnnotationsKeysComplete(prev);
      forall idx | 0 <= idx < |prev|
        ensures HighlightKey(ws[idx].kind) in Annotations(ws)
      {
        assert prev[idx] == ws[idx];
      }
    }
  }

  /** Every key comes from some window. */
  lemma {:induction false} AnnotationsKeysSound(ws: seq<Window>)
    ensures forall key :: key in Annotations(ws) ==> exists idx :: 0 <= idx < |ws| && key == HighlightKey(ws[idx].kind)
    decreases |ws|
  {
    if |ws| > 0 {
      var prev := ws[..|ws| - 1];
      var w := ws[|ws| - 1];
      AnnotationsKeysSound(prev);
      assert Annotations(ws) == Annotations(prev)[HighlightKey(w.kind) := BoxOf(w)];
      forall key | key in Annotations(ws)
        ensures exists idx :: 0 <= idx < |ws| && key == HighlightKey(ws[idx].kind)
      {
        if key != HighlightKey(w.kind) {
          var idx :| 0 <= idx < |prev| && key == HighlightKey(prev[idx].kind);
          assert ws[idx] == prev[idx];
        }
      }
    }
  }

  /** Each key holds the box of the last window of that type: later assignments overwrite
      earlier ones. */
  lemma {:induction false} AnnotationsLastWins(ws: seq<Window>, idx: int)
    requires 0 <= idx < |ws|
    requires forall later :: idx < later < |ws| ==> ws[later].kind != ws[idx].kind
    ensures HighlightKey(ws[idx].kind) in Annotations(ws)
    ensures Annotations(ws)[HighlightKey(ws[idx].kind)] == BoxOf(ws[idx])
    decreases |ws|
  {
    var prev := ws[..|ws| - 1];
    var w := ws[|ws| - 1];
    assert Annotations(ws) == Annotations(prev)[HighlightKey(w.kind) := BoxOf(w)];
    if idx < |prev| {
      assert prev[idx] == ws[idx];
      HighlightKeyInjective(w.kind, ws[idx].kind);
      forall later | idx < later < |prev|
        ensures prev[later].kind != prev[idx].kind
      {
        assert prev[later] == ws[later];
      }
      AnnotationsLastWins(prev, idx);
    }
  }

  /** The keys `highlightP` (only with `Pwave`), `highlightQ`, `highlightR`, `highlightS`, `highlightT`. */
  function TraceKeys(pWave: bool): set<string> {
    (if pWave then {HighlightKey(P)} else {}) + {HighlightKey(Q), HighlightKey(R), HighlightKey(S), HighlightKey(T)}
  }

  /** Every recorded window is of a kind the beats record. */
  lemma {:induction false} WavePositionsKinds(a: Arrhythmia, spb: real, m: nat)
    ensures forall idx :: 0 <= idx < |WavePositions(a, spb, m)| ==> WavePositions(a, spb, m)[idx].kind in Kinds(a.pWave)
  {
    if m > 0 {
      WavePositionsKinds(a, spb, m - 1);
      var prev := WavePositions(a, spb, m - 1);
      var last := BeatWindows(a, spb, BeatStart(m - 1, spb));
      var ws := WavePositions(a, spb, m);
      forall idx | 0 <= idx < |ws|
        ensures ws[idx].kind in Kinds(a.pWave)
      {
        if idx < |prev| {
          assert ws[idx] == prev[idx];
        } else {
          assert ws[idx] == last[idx - |prev|];
        }
      }
    }
  }

  /** The boxes of one beat's windows, assigned in push order: one box per recorded kind. */
  function BeatBoxes(a: Arrhythmia, spb: real, start: int): map<string, Box> {
    var head := if a.pWave then map[HighlightKey(P) := BoxOf(WaveWindow(P, spb, start))] else map[];
    head[HighlightKey(Q) := BoxOf(WaveWindow(Q, spb, start))]
        [HighlightKey(R) := BoxOf(WaveWindow(R, spb, start))]
        [HighlightKey(S) := BoxOf(WaveWindow(S, spb, start))]
        [HighlightKey(T) := BoxOf(WaveWindow(T, spb, start))]
  }

  /** Assigning one more window's box updates the map at that window's key. */
  lemma AnnotationsSnoc(ws: seq<Window>, w: Window)
    ensures Annotations(ws + [w]) == Annotations(ws)[HighlightKey(w.kind) := BoxOf(w)]
  {
    assert (ws + [w])[..|ws + [w]| - 1] == ws;
  }

  /** Assigning four windows' boxes after those of `head`. */
  lemma AnnotationsSnoc4(head: seq<Window>, w1: Window, w2: Window, w3: Window, w4: Window)
    ensures Annotations(head + [w1, w2, w3, w4])
      == Annotations(head)[HighlightKey(w1.kind) := BoxOf(w1)][HighlightKey(w2.kind) := BoxOf(w2)]
                          [HighlightKey(w3.kind) := BoxOf(w3)][HighlightKey(w4.kind) := BoxOf(w4)]
  {
    AnnotationsSnoc(head, w1);
    AnnotationsSnoc(head + [w1], w2);
    AnnotationsSnoc(head + [w1, w2], w3);
    AnnotationsSnoc(head + [w1, w2, w3], w4);
    assert head + [w1] + [w2] == head + [w1, w2];
    assert head + [w1, w2] + [w3] == head + [w1, w2, w3];
    assert head + [w1, w2, w3] + [w4] == head + [w1, w2, w3, w4];
  }

  lemma AnnotationsOfBeatMap(a: Arrhythmia, spb: real, start: int)
    ensures Annotations(BeatWindows(a, spb, start)) == BeatBoxes(a, spb, start)
  {
    var wp := WaveWindow(P, spb, start);
    var head: seq<Window> := if a.pWave then [wp] else [];
    assert Annotations(head) == if a.pWave then map[HighlightKey(P) := BoxOf(wp)] else map[] by {
      if a.pWave { AnnotationsSnoc([], wp); assert [] + [wp] == [wp]; }
    }
    var qrst := [WaveWindow(Q, spb, start), WaveWindow(R, spb, start), WaveWindow(S, spb, start), WaveWindow(T, spb, start)];
    AnnotationsSnoc4(head, qrst[0], qrst[1], qrst[2], qrst[3]);
    assert head + qrst == BeatWindows(a, spb, start);
  }

  /** The keys of one beat's boxes are exactly the trace keys, each holding that beat's window. */
  lemma BeatBoxesContents(a: Arrhythmia, spb: real, start: int)
    ensures BeatBoxes(a, spb, start).Keys == TraceKeys(a.pWave)
    ensures forall q :: 0 <= q < |Kinds(a.pWave)| ==>
      BeatBoxes(a, spb, start)[HighlightKey(Kinds(a.pWave)[q])] == BoxOf(WaveWindow(Kinds(a.pWave)[q], spb, start))
  {
  }

  /** A later beat's boxes replace every box of the earlier beats, so after at least one beat the
      annotation map is the last beat's boxes. */
  lemma AnnotationsOfWindows(a: Arrhythmia, spb: real, m: nat)
    requires m >= 1
    ensures Annotations(WavePositions(a, spb, m)) == BeatBoxes(a, spb, BeatStart(m - 1, spb))
  {
    var prev := WavePositions(a, spb, m - 1);
    var last := BeatWindows(a, spb, BeatStart(m - 1, spb));
    var boxes := BeatBoxes(a, spb, BeatStart(m - 1, spb));
    AnnotationsAppend(prev, last);
    AnnotationsOfBeatMap(a, spb, BeatStart(m - 1, spb));
    assert Annotations(prev).Keys <= boxes.Keys by {
      WindowKeys(a, spb, m - 1);
      BeatBoxesContents(a, spb, BeatStart(m - 1, spb));
    }
    assert Annotations(prev) + boxes == boxes;
  }

  /** Every key the windows of `m` beats assign is one a single beat assigns. */
  lemma WindowKeys(a: Arrhythmia, spb: real, m: nat)
    ensures Annotations(WavePositions(a, spb, m)).Keys <= TraceKeys(a.pWave)
  {
    var ws := WavePositions(a, spb, m);
    AnnotationsKeysSound(ws);
    WavePositionsKinds(a, spb, m);
    forall key | key in Annotations(ws)
      ensures key in TraceKeys(a.pWave)
    {
      var idx :| 0 <= idx < |ws| && key == HighlightKey(ws[idx].kind);
    }
  }

  /** The annotation map of a `generateEKG` trace with at least one beat. */
  lemma AnnotationsOfTrace(exp: real -> real, duration: real, a: Arrhythmia, samplingRate: real, numWaves: int)
    requires a.heartRate > 0.0 && samplingRate > 0.0 && numWaves >= 1
    ensures var ann := Annotations(GenerateEkg(exp, duration, a, samplingRate, numWaves).wavePositions);
      var spb := SamplesPerBeat(a.heartRate, samplingRate);
      && ann.Keys == TraceKeys(a.pWave)
      && forall q :: 0 <= q < |Kinds(a.pWave)| ==>
           ann[HighlightKey(Kinds(a.pWave)[q])] == BoxOf(WaveWindow(Kinds(a.pWave)[q], spb, BeatStart(numWaves - 1, spb)))
  {
    var spb := SamplesPerBeat(a.heartRate, samplingRate);
    var ws := GenerateEkg(exp, duration, a, samplingRate, numWaves).wavePositions;
    assert ws == WavePositions(a, spb, numWaves);
    AnnotationsOfWindows(a, spb, numWaves);
    BeatBoxesContents(a, spb, BeatStart(numWaves - 1, spb));
  }

  /** `handleNumPulsesChange` on the parsed value: only 3 and 5 are accepted. */
  function NumPulsesChange(numPulses: int, value: int): (next: int)
    ensures (value == 3 || value == 5) ==> next == value
    ensures next != numPulses ==> next == value && (value == 3 || value == 5)
    ensures (numPulses == 3 || numPulses == 5) ==> (next == 3 || next == 5)
  {
    if value == 3 || value == 5 then value else numPulses
  }

  /** The pulse count after a series of selections, starting from the initial state 3. */
  function NumPulsesAfter(values: seq<int>): int
    decreases |values|
  {
    if |values| == 0 then 3 else NumPulsesChange(NumPulsesAfter(values[..|values| - 1]), values[|values| - 1])
  }

  /** The pulse count is always 3 or 5: it is the last accepted selection, or the initial 3 when no
      selection was 3 or 5; every other value leaves the state unchanged. */
  lemma {:induction false} NumPulsesStaysValid(values: seq<int>)
    ensures NumPulsesAfter(values) == 3 || NumPulsesAfter(values) == 5
    ensures (forall i :: 0 <= i < |values| ==> values[i] != 3 && values[i] != 5) ==> NumPulsesAfter(values) == 3
    ensures forall i :: (0 <= i < |values| && (values[i] == 3 || values[i] == 5)
      && forall k :: i < k < |values| ==> values[k] != 3 && values[k] != 5) ==> NumPulsesAfter(values) == values[i]
    decreases |values|
  {
    if |values| > 0 {
      var prev := values[..|values| - 1];
      NumPulsesStaysValid(prev);
      forall i | 0 <= i < |values| && (values[i] == 3 || values[i] == 5)
          && (forall k :: i < k < |values| ==> values[k] != 3 && values[k] != 5)
        ensures NumPulsesAfter(values) == values[i]
      {
        if i < |prev| {
          assert prev[i] == values[i];
          forall k | i < k < |prev|
            ensures prev[k] != 3 && prev[k] != 5
          {
            assert prev[k] == values[k];
          }
        }
      }
      if forall i :: 0 <= i < |values| ==> values[i] != 3 && values[i] != 5 {
        forall i | 0 <= i < |prev|
          ensures prev[i] != 3 && prev[i] != 5
        {
          assert prev[i] == values[i];
        }
      }
    }
  }

  /** `simulateRandomEKG`: the type at `Math.floor(r * keys.length)` and its 5-second trace at
      1000 Hz with the current pulse count. The lookup inside `generateEKG` never misses. */
  function SimulateRandom(exp: real -> real, r: real, numPulses: int): (result: (string, Completion<Trace>))
    requires 0.0 <= r < 1.0
    ensures Lookup(result.0).Some?
    ensures result.1 == Normal(GenerateEkg(exp, 5.0, Lookup(result.0).value, 1000.0, numPulses))
  {
    var name := Catalog[RandomIndex(r, |Catalog|)].0;
    (name, GenerateEkgFor(exp, 5.0, name, 1000.0, numPulses))
  }

  /** At 100 bpm or more a beat lasts at most 0.6 s, i.e. at most 600 samples at 1000 Hz. */
  lemma FastBeat(a: Arrhythmia)
    requires a.heartRate >= 100.0
    ensures SamplesPerBeat(a.heartRate, 1000.0) <= 600.0
  {
    var bd := BeatDuration(a.heartRate);
    assert bd * a.heartRate == 60.0;
  }

  /** A 5-second trace at 1000 Hz of an arrhythmia of 100 bpm or more, with 3 or 5 pulses: every
      beat fits in the 5000 samples, so no beat is cut off and the trace has exactly
      `ceil(numPulses * beatDuration * 1000)` samples. */
  lemma FastTraceUntrimmed(exp: real -> real, a: Arrhythmia, numPulses: int)
    requires a.heartRate >= 100.0 && (numPulses == 3 || numPulses == 5)
    ensures var spb := SamplesPerBeat(a.heartRate, 1000.0);
      && (forall i :: 0 <= i < numPulses ==> BeatEnd(i, spb) <= 5000)
      && |GenerateEkg(exp, 5.0, a, 1000.0, numPulses).t| == Ceil(numPulses as real * spb)
  {
    var spb := SamplesPerBeat(a.heartRate, 1000.0);
    FastBeat(a);
    assert numPulses as real * spb <= 3000.0 by {
      if numPulses == 3 {
        assert 3.0 * spb <= 3.0 * 600.0;
      } else {
        assert 5.0 * spb <= 5.0 * 600.0;
      }
    }
    FloorMonotonic(numPulses as real * spb, 5000.0);
    BeatsFit(numPulses, spb, 5000);
    assert ToLength(5.0 * 1000.0) == 5000;
  }
}
