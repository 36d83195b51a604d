/** Sample-index bookkeeping shared by both generators: the time axis, where beat `i`
    starts and ends, and the loop that copies one beat's samples into the signal.
    A beat spans `spb = beatDuration * samplingRate` samples (a real number); beat `i`
    covers the indices [BeatStart(i), BeatEnd(i)). */
module Beats {
  import opened Js

  /** How a generator stores a beat sample: `+=` (App.js) or `=` (ekgUtils.js). */
  datatype Store = Accumulate | Overwrite

  function Stored(store: Store, previous: real, v: real): real {
    match store
    case Accumulate => previous + v
    case Overwrite => v
  }

  /** `Array(n).fill(0)` */
  function Zeros(n: nat): (z: seq<real>)
    ensures |z| == n
    ensures forall j :: 0 <= j < n ==> z[j] == 0.0
  {
    seq(n, _ => 0.0)
  }

  /** `Array.from({ length: n }, (_, i) => i / samplingRate)` */
  function TimeAxis(n: nat, samplingRate: real): (t: seq<real>)
    requires samplingRate > 0.0
    ensures |t| == n
  {
    seq(n, i requires 0 <= i < n => i as real / samplingRate)
  }

  /** The time axis starts at 0, is strictly increasing and evenly spaced by 1/samplingRate,
      and sample `i` sits at time `i / samplingRate`. */
  lemma TimeAxisEvenlySpaced(n: nat, samplingRate: real)
    requires samplingRate > 0.0
    ensures n > 0 ==> TimeAxis(n, samplingRate)[0] == 0.0
    ensures forall i :: 0 <= i < n ==> TimeAxis(n, samplingRate)[i] * samplingRate == i as real
    ensures forall i :: 0 < i < n ==>
      TimeAxis(n, samplingRate)[i] - TimeAxis(n, samplingRate)[i - 1] == 1.0 / samplingRate
    ensures forall i, k :: 0 <= i < k < n ==> TimeAxis(n, samplingRate)[i] < TimeAxis(n, samplingRate)[k]
  {
    var t := TimeAxis(n, samplingRate);
    forall i | 0 <= i < n
      ensures t[i] * samplingRate == i as real
    {
      DivThenMul(i as real, samplingRate);
    }
    forall i | 0 < i < n
      ensures t[i] - t[i - 1] == 1.0 / samplingRate
    {
      DivDifference(i as real, (i - 1) as real, samplingRate);
    }
    forall i, k | 0 <= i < k < n
      ensures t[i] < t[k]
    {
      DivDifference(k as real, i as real, samplingRate);
      DivPositive((k - i) as real, samplingRate);
    }
  }

  lemma DivThenMul(x: real, d: real)
    requires d > 0.0
    ensures x / d * d == x
  {
  }

  lemma DivDifference(x: real, y: real, d: real)
    requires d > 0.0
    ensures x / d - y / d == (x - y) / d
  {
  }

  lemma DivPositive(x: real, d: real)
    requires x > 0.0 && d > 0.0
    ensures x / d > 0.0
  {
  }

  /** Multiplying by a non-negative factor preserves order. */
  lemma MulMonotonic(x: real, y: real, z: real)
    ensures x <= y && 0.0 <= z ==> x * z <= y * z
  {
    if x <= y && 0.0 <= z {
      assert y * z == x * z + (y - x) * z;
    }
  }

  /** `Math.floor(i * beatDuration * samplingRate)` */
  function BeatStart(i: int, spb: real): (s: int)
    ensures 0 <= i && 0.0 <= spb ==> 0 <= s
  {
    MulMonotonic(0.0, i as real, spb);
    (i as real * spb).Floor
  }

  /** `Math.floor(beatDuration * samplingRate)`: every beat writes this many samples at most. */
  function BeatLength(spb: real): int {
    spb.Floor
  }

  /** `start + Math.floor(beatDuration * samplingRate)` */
  function BeatEnd(i: int, spb: real): int {
    BeatStart(i, spb) + BeatLength(spb)
  }

  /** Flooring two summands separately never exceeds flooring their sum. */
  lemma FloorSuperadditive(x: real, y: real)
    ensures x.Floor + y.Floor <= (x + y).Floor
  {
    assert (x.Floor + y.Floor) as real <= x + y;
  }

  lemma FloorMonotonic(x: real, y: real)
    requires x <= y
    ensures x.Floor <= y.Floor
  {
  }

  /** Scaling by a non-negative factor and flooring preserves order, so a larger fraction of a
      beat never gives an earlier sample. */
  lemma ScaledMonotonic(c: real, d: real, spb: real)
    ensures c <= d && 0.0 <= spb ==> (c * spb).Floor <= (d * spb).Floor
  {
    MulMonotonic(c, d, spb);
    if c <= d && 0.0 <= spb {
      FloorMonotonic(c * spb, d * spb);
    }
  }

  /** A beat ends no later than the next one starts, so consecutive beats never overlap. */
  lemma BeatEndBeforeNextStart(i: int, spb: real)
    requires 0.0 <= spb
    ensures BeatStart(i, spb) <= BeatEnd(i, spb) <= BeatStart(i + 1, spb)
  {
    FloorSuperadditive(i as real * spb, spb);
    assert (i + 1) as real * spb == i as real * spb + spb;
  }

  /** Beat starts never decrease. */
  lemma BeatStartMonotonic(i: int, k: int, spb: real)
    requires i <= k && 0.0 <= spb
    ensures BeatStart(i, spb) <= BeatStart(k, spb)
  {
    MulMonotonic(i as real, k as real, spb);
    FloorMonotonic(i as real * spb, k as real * spb);
  }

  /** Any earlier beat ends no later than a later beat starts. */
  lemma {:induction false} BeatsOrdered(i: int, k: int, spb: real)
    requires i < k && 0.0 <= spb
    ensures BeatEnd(i, spb) <= BeatStart(k, spb)
  {
    BeatEndBeforeNextStart(i, spb);
    BeatStartMonotonic(i + 1, k, spb);
  }

  /** When the first `m` beats start within `[0, n]`, every one of them ends within the signal. */
  lemma BeatsFit(m: nat, spb: real, n: int)
    requires 0.0 <= spb && BeatStart(m, spb) <= n
    ensures forall i :: 0 <= i < m ==> BeatEnd(i, spb) <= n
  {
    forall i | 0 <= i < m
      ensures BeatEnd(i, spb) <= n
    {
      BeatsOrdered(i, m, spb);
    }
  }

  /** The inner loop `for (j = start; j < end && j < signal.length; j++)` storing
      `beat[j - start] + offset[j]` at index `j`. */
  function WriteBeat(signal: seq<real>, start: int, end: int, beat: seq<real>, offset: seq<real>, store: Store): (r: seq<real>)
    requires 0 <= start && |offset| == |signal| && Min(end, |signal|) - start <= |beat|
    ensures |r| == |signal|
  {
    seq(|signal|, j requires 0 <= j < |signal| =>
      if start <= j < end then Stored(store, signal[j], beat[j - start] + offset[j]) else signal[j])
  }

  /** The outer loop over beats 0 .. m-1, in order. */
  function WriteBeats(signal: seq<real>, m: nat, spb: real, beat: seq<real>, offset: seq<real>, store: Store): (r: seq<real>)
    requires 0.0 < spb && |offset| == |signal| && Min(BeatLength(spb), |signal|) <= |beat|
    ensures |r| == |signal|
  {
    if m == 0 then signal
    else
      var s := BeatStart(m - 1, spb);
      WriteBeat(WriteBeats(signal, m - 1, spb, beat, offset, store), s, s + BeatLength(spb), beat, offset, store)
  }

  /** Index `j` lies in one of the first `m` beats. */
  ghost predicate Covered(j: int, m: nat, spb: real) {
    exists i :: 0 <= i < m && BeatStart(i, spb) <= j < BeatEnd(i, spb)
  }

  /** Laying `m` beats into an all-zero signal: because beats never overlap, every sample of
      beat `i` holds exactly one contribution, `beat[j - start] + offset[j]`, whether the
      generator adds (`+=`) or overwrites (`=`); a sample no beat covers stays 0. */
  lemma {:induction false} LaidOut(m: nat, spb: real, n: nat, beat: seq<real>, offset: seq<real>, store: Store)
    requires 0.0 < spb && |offset| == n && Min(BeatLength(spb), n) <= |beat|
    ensures forall i, j :: 0 <= i < m && BeatStart(i, spb) <= j < BeatEnd(i, spb) && j < n ==>
      WriteBeats(Zeros(n), m, spb, beat, offset, store)[j] == beat[j - BeatStart(i, spb)] + offset[j]
    ensures forall j :: 0 <= j < n && !Covered(j, m, spb) ==>
      WriteBeats(Zeros(n), m, spb, beat, offset, store)[j] == 0.0
  {
    if m > 0 {
      LaidOut(m - 1, spb, n, beat, offset, store);
      var prev := WriteBeats(Zeros(n), m - 1, spb, beat, offset, store);
      var out := WriteBeats(Zeros(n), m, spb, beat, offset, store);
      var s := BeatStart(m - 1, spb);
      var e := BeatEnd(m - 1, spb);
      assert out == WriteBeat(prev, s, e, beat, offset, store);
      forall i | 0 <= i < m - 1
        ensures BeatEnd(i, spb) <= s
      {
        BeatsOrdered(i, m - 1, spb);
      }
      forall i, j | 0 <= i < m && BeatStart(i, spb) <= j < BeatEnd(i, spb) && j < n
        ensures out[j] == beat[j - BeatStart(i, spb)] + offset[j]
      {
        if i < m - 1 {
          assert out[j] == prev[j];
        } else {
          assert !Covered(j, m - 1, spb);
          assert out[j] == Stored(store, 0.0, beat[j - s] + offset[j]);
        }
      }
      forall j | 0 <= j < n && !Covered(j, m, spb)
        ensures out[j] == 0.0
      {
        assert !(s <= j < e);
        assert !Covered(j, m - 1, spb);
      }
    }
  }

  /** Entry `q` of block `i` of K-sized blocks sits at index `i * K + q`. */
  lemma DivModOfBlock(i: nat, K: nat, q: int, idx: int)
    requires 0 <= q < K && idx == i * K + q
    ensures idx / K == i && idx % K == q
  {
    var d, r := idx / K, idx % K;
    assert (i - d) * K == r - q;
    if i - d >= 1 {
      MulAtLeast(i - d, K);
    } else if i - d <= -1 {
      MulAtLeast(d - i, K);
    }
  }

  lemma MulAtLeast(x: int, K: nat)
    requires x >= 1
    ensures x * K >= K
  {
    assert x * K == (x - 1) * K + K;
  }

  /** An index below `m * K` lies in one of the first `m` blocks of size K. */
  lemma DivBelow(idx: int, K: nat, m: nat)
    requires 0 <= idx < m * K
    ensures 0 <= idx / K < m
  {
    if idx / K >= m {
      MulAtLeast(idx / K - m + 1, K);
      MulNonnegInt(idx / K - m, K);
    }
  }

  lemma MulNonnegInt(x: nat, y: nat)
    ensures x * y >= 0
  {
  }
}
