/** The slice of JavaScript's semantics that the EKG generators rely on: truthiness,
    numeric coercion, default parameters, `Array.from` lengths, `slice`, `Math.ceil`,
    counted `for` loops, `toLowerCase` and the `Math.floor(Math.random() * n)` idiom.
    Numbers are exact reals: NaN is modelled as a missing value where it can arise,
    and IEEE-754 rounding is not modelled. */
module Js {

  datatype Option<+T> = None | Some(value: T)

  /** An exception thrown by a JavaScript operation. */
  datatype JsError = TypeError(message: string)

  /** The completion of a JavaScript call: a normal return or a thrown exception. */
  datatype Completion<+T> = Normal(value: T) | Throw(error: JsError)

  /** The JavaScript values that can reach the generators' parameters. */
  datatype JsValue =
    | Undefined
    | Null
    | Bool(b: bool)
    | Num(n: real)
    | Str(s: string)
    | Obj(fields: map<string, JsValue>)

  /** ToBoolean: the test behind `if (v)`, `v ? a : b` and `a && b`. */
  predicate Truthy(v: JsValue)
    ensures v.Obj? ==> Truthy(v)
    ensures v.Str? ==> (Truthy(v) <==> |v.s| > 0)
    ensures !v.Str? && !v.Obj? ==> (Truthy(v) <==> ToNumber(v).Some? && ToNumber(v).value != 0.0)
  {
    match v
    case Undefined => false
    case Null => false
    case Bool(b) => b
    case Num(n) => n != 0.0
    case Str(s) => s != ""
    case Obj(_) => true
  }

  /** ToNumber, with `None` standing for NaN. Non-empty strings are read as NaN. */
  function ToNumber(v: JsValue): Option<real> {
    match v
    case Undefined => None
    case Null => Some(0.0)
    case Bool(b) => Some(if b then 1.0 else 0.0)
    case Num(n) => Some(n)
    case Str(s) => if s == "" then Some(0.0) else None
    case Obj(_) => None
  }

  /** The value a parameter with a default receives from the `i`-th argument:
      a missing or `undefined` argument yields the default. */
  function Argument(args: seq<JsValue>, i: nat, default: JsValue): (v: JsValue)
    ensures i < |args| && !args[i].Undefined? ==> v == args[i]
    ensures (i >= |args| || args[i].Undefined?) ==> v == default
  {
    if i < |args| && !args[i].Undefined? then args[i] else default
  }

  /** Property access `o.key` on a plain object. */
  function Get(o: map<string, JsValue>, key: string): JsValue {
    if key in o then o[key] else Undefined
  }

  function Min(a: int, b: int): int { if a <= b then a else b }

  function Max(a: int, b: int): int { if a <= b then b else a }

  /** `Math.ceil`: the least integer not below `x`. */
  function Ceil(x: real): (c: int)
    ensures x <= c as real < x + 1.0
  {
    -((-x).Floor)
  }

  /** The length `Array.from({ length: x })` gives: ToLength truncates a positive
      length and turns a non-positive one into 0. */
  function ToLength(x: real): (n: nat)
    ensures x <= 0.0 ==> n == 0
    ensures x > 0.0 ==> n as real <= x < n as real + 1.0
  {
    if x <= 0.0 then 0 else x.Floor
  }

  /** The number of elements `a.slice(0, end)` keeps of an array of length `len`:
      a negative `end` counts back from the end of the array. */
  function SliceEnd(len: nat, end: int): (k: nat)
    ensures k <= len
    ensures 0 <= end ==> k == Min(end, len)
    ensures end < 0 ==> k == Max(len + end, 0)
  {
    if end < 0 then Max(len + end, 0) else Min(end, len)
  }

  /** How often `for (let i = 0; i < x; i++)` runs its body: the body runs for
      i = 0 .. c-1, all below `x`, and the test fails at i = c. */
  function LoopCount(x: real): (c: nat)
    ensures x <= c as real
    ensures c == 0 || ((c - 1) as real) < x
  {
    if x <= 0.0 then 0 else Ceil(x)
  }

  /** `arr[Math.floor(r * arr.length)]` with `r` drawn by `Math.random()` from [0, 1). */
  function RandomIndex(r: real, n: nat): (k: int)
    requires 0.0 <= r < 1.0 && n > 0
    ensures 0 <= k < n
  {
    assert r * n as real < n as real;
    (r * n as real).Floor
  }

  /** Index `k` is picked exactly by the draws in [k/n, (k+1)/n): every entry is reachable
      and has an equal share of the draws. */
  lemma RandomIndexPicks(r: real, n: nat, k: int)
    requires 0.0 <= r < 1.0 && n > 0
    ensures RandomIndex(r, n) == k <==> k as real / n as real <= r < (k + 1) as real / n as real
  {
    var x := r * n as real;
    assert r == x / n as real;
    if RandomIndex(r, n) == k {
      assert k as real <= x < (k + 1) as real;
    }
    if k as real / n as real <= r < (k + 1) as real / n as real {
      assert k as real <= x < (k + 1) as real;
    }
  }

  /** `toLowerCase` on one character; only the ASCII letters are mapped. */
  function LowerChar(c: char): char {
    if 'A' <= c <= 'Z' then (c as int + 32) as char else c
  }

  function ToLowerCase(s: string): (r: string)
    ensures |r| == |s|
    ensures forall i :: 0 <= i < |s| ==> r[i] == LowerChar(s[i])
  {
    seq(|s|, i requires 0 <= i < |s| => LowerChar(s[i]))
  }

  /** Lower-casing leaves no upper-case ASCII letter behind and is idempotent. */
  lemma ToLowerCaseIdempotent(s: string)
    ensures forall i :: 0 <= i < |s| ==> !('A' <= ToLowerCase(s)[i] <= 'Z')
    ensures ToLowerCase(ToLowerCase(s)) == ToLowerCase(s)
  {
  }
}
