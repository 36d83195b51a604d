/** The shape of one beat as a superposition of Gaussian pulses. A beat is described by the
    ordered list of pulses the generator adds or subtracts; `Math.exp` is left abstract as the
    parameter `exp`, so the model fixes which pulses are combined, where and with which sign,
    but not the numeric values of the curves. */
module Pulses {

  /** Pulse widths are positive multiples of the beat duration. */
  type Width = w: real | w > 0.0 witness 1.0

  /** `60 / heartRate`: the duration of one beat, in seconds. */
  function BeatDuration(heartRate: real): Width
    requires heartRate > 0.0
  {
    60.0 / heartRate
  }

  /** `60 / heartRate * samplingRate`: how many samples one beat spans, as a real number. */
  function SamplesPerBeat(heartRate: real, samplingRate: real): (spb: real)
    requires heartRate > 0.0 && samplingRate > 0.0
    ensures spb > 0.0
  {
    MulPositive(BeatDuration(heartRate), samplingRate);
    BeatDuration(heartRate) * samplingRate
  }

  lemma MulPositive(x: real, y: real)
    requires 0.0 < x && 0.0 < y
    ensures 0.0 < x * y
  {
  }

  datatype Sign = Plus | Minus

  /** One `y ± gaussianWave(t[i], mean, amp, width)` step of the `.map` chain. */
  datatype Term = Term(sign: Sign, mean: real, amp: real, width: Width)

  /** The five named deflections of a cardiac cycle. */
  datatype WaveKind = P | Q | R | S | T

  /** Where each deflection sits within a beat, as a fraction of the beat duration. */
  function Fraction(kind: WaveKind): real {
    match kind
    case P => 0.2
    case Q => 0.4
    case R => 0.45
    case S => 0.5
    case T => 0.7
  }

  /** The deflections a beat records, in order, with or without the P wave. */
  function Kinds(pWave: bool): seq<WaveKind> {
    if pWave then [P, Q, R, S, T] else [Q, R, S, T]
  }

  /** `pWaveStart`, `qWaveStart`, ...: the deflection's offset within a beat, in seconds. */
  function Position(kind: WaveKind, beatDuration: Width): real {
    Fraction(kind) * beatDuration
  }

  /** The offsets come in the order P, Q, R, S, T, each strictly after the previous one,
      and all of them fall inside the beat. */
  lemma PositionsIncreasing(beatDuration: Width)
    ensures 0.0 < Position(P, beatDuration) < Position(Q, beatDuration) < Position(R, beatDuration)
    ensures Position(R, beatDuration) < Position(S, beatDuration) < Position(T, beatDuration) < beatDuration
  {
  }

  /** `gaussianWave(x, mean, amplitude, width)` with `Math.exp` supplied as `exp`; a zero
      amplitude gives a flat zero. */
  function GaussianWave(exp: real -> real, x: real, mean: real, amp: real, width: Width): (y: real)
    ensures amp == 0.0 ==> y == 0.0
  {
    assert 0.0 < 2.0 * width * width by {
      MulPositive(2.0 * width, width);
    }
    amp * exp(-((x - mean) * (x - mean)) / (2.0 * width * width))
  }

  /** Where `exp` is positive, as `Math.exp` is everywhere, the curve has the sign of its
      amplitude. */
  lemma GaussianWaveSign(exp: real -> real, x: real, mean: real, amp: real, width: Width)
    requires 0.0 < exp(-((x - mean) * (x - mean)) / (2.0 * width * width))
    ensures 0.0 < GaussianWave(exp, x, mean, amp, width) <==> 0.0 < amp
    ensures GaussianWave(exp, x, mean, amp, width) < 0.0 <==> amp < 0.0
  {
  }

  /** The curve is symmetric about its mean. */
  lemma GaussianWaveSymmetric(exp: real -> real, d: real, mean: real, amp: real, width: Width)
    ensures GaussianWave(exp, mean + d, mean, amp, width) == GaussianWave(exp, mean - d, mean, amp, width)
  {
    assert (mean + d - mean) * (mean + d - mean) == (mean - d - mean) * (mean - d - mean);
  }

  function Contribution(exp: real -> real, term: Term, x: real): real {
    match term.sign
    case Plus => GaussianWave(exp, x, term.mean, term.amp, term.width)
    case Minus => -GaussianWave(exp, x, term.mean, term.amp, term.width)
  }

  /** The value at time `x` after applying `terms` in order to a zero-filled beat. */
  function Superpose(exp: real -> real, terms: seq<Term>, x: real): real
    decreases |terms|
  {
    if |terms| == 0 then 0.0
    else Superpose(exp, terms[..|terms| - 1], x) + Contribution(exp, terms[|terms| - 1], x)
  }

  /** Applying two lists of pulses one after the other adds their effects. */
  lemma {:induction false} SuperposeAppend(exp: real -> real, a: seq<Term>, b: seq<Term>, x: real)
    ensures Superpose(exp, a + b, x) == Superpose(exp, a, x) + Superpose(exp, b, x)
    decreases |b|
  {
    if |b| > 0 {
      var b' := b[..|b| - 1];
      assert (a + b)[..|a + b| - 1] == a + b';
      SuperposeAppend(exp, a, b', x);
      assert (a + b)[|a + b| - 1] == b[|b| - 1];
    } else {
      assert a + b == a;
    }
  }

  /** A pulse added and later subtracted again at the same place leaves only what lies between. */
  lemma Cancel(exp: real -> real, mean: real, amp: real, width: Width, middle: seq<Term>, x: real)
    ensures Superpose(exp, [Term(Plus, mean, amp, width)] + middle + [Term(Minus, mean, amp, width)], x)
         == Superpose(exp, middle, x)
  {
    var added := [Term(Plus, mean, amp, width)];
    var removed := [Term(Minus, mean, amp, width)];
    SuperposeAppend(exp, added + middle, removed, x);
    SuperposeAppend(exp, added, middle, x);
    assert Superpose(exp, added, x) == Superpose(exp, [], x) + Contribution(exp, added[0], x);
    assert Superpose(exp, removed, x) == Superpose(exp, [], x) + Contribution(exp, removed[0], x);
  }

  /** The P pulse of both generators: amplitude 0.1, width 0.05 of a beat, centred at `mean`. */
  function PTerm(mean: real, beatDuration: Width): Term {
    Term(Plus, mean, 0.1, 0.05 * beatDuration)
  }

  /** The QRS complex and T wave both generators add to every beat, in source order. */
  function QrstTerms(beatDuration: Width): (terms: seq<Term>)
    ensures |terms| == 4
    ensures terms[0].sign == Minus && terms[0].mean == Position(Q, beatDuration)
    ensures terms[1].sign == Plus && terms[1].mean == Position(R, beatDuration)
    ensures terms[2].sign == Minus && terms[2].mean == Position(S, beatDuration)
    ensures terms[3].sign == Plus && terms[3].mean == Position(T, beatDuration)
  {
    [ Term(Minus, Position(Q, beatDuration), 0.15, 0.02 * beatDuration),
      Term(Plus, Position(R, beatDuration), 1.0, 0.01 * beatDuration),
      Term(Minus, Position(S, beatDuration), 0.2, 0.02 * beatDuration),
      Term(Plus, Position(T, beatDuration), 0.3, 0.1 * beatDuration) ]
  }

  /** `ekgBeat`: the superposition evaluated at every time of the beat's time axis `t`. */
  function BeatSamples(exp: real -> real, terms: seq<Term>, t: seq<real>): (beat: seq<real>)
    ensures |beat| == |t|
  {
    seq(|t|, k requires 0 <= k < |t| => Superpose(exp, terms, t[k]))
  }
}
