/**
 * Real arithmetic used across the valuation code: integer powers, sums,
 * Python's truncating `int(...)` and the extended reals that stand for
 * `float('inf')`.
 */
module Numbers {

  /** `x ** n` for a natural exponent. */
  function Pow(x: real, n: nat): real
    decreases n
  {
    if n == 0 then 1.0 else x * Pow(x, n - 1)
  }

  lemma {:induction false} PowPositive(x: real, n: nat)
    requires x > 0.0
    ensures Pow(x, n) > 0.0
    decreases n
  {
    if n > 0 {
      PowPositive(x, n - 1);
    }
  }

  lemma {:induction false} PowNonZero(x: real, n: nat)
    requires x != 0.0
    ensures Pow(x, n) != 0.0
    decreases n
  {
    if n > 0 {
      PowNonZero(x, n - 1);
    }
  }

  /** Python's `sum(s)`, added left to right. */
  function Sum(s: seq<real>): real
    decreases |s|
  {
    if s == [] then 0.0 else Sum(s[..|s| - 1]) + s[|s| - 1]
  }

  function Min(a: real, b: real): real { if a <= b then a else b }

  function Max(a: real, b: real): real { if a >= b then a else b }

  function Abs(x: real): real { if x < 0.0 then -x else x }

  /** Python's `int(x)` on a float: truncation toward zero. */
  function Trunc(x: real): (r: int)
    ensures x >= 0.0 ==> r as real <= x < r as real + 1.0
    ensures x < 0.0 ==> r as real - 1.0 < x <= r as real
  {
    if x >= 0.0 then x.Floor else -((-x).Floor)
  }

  /** A float that may be `+inf`; the source only ever produces `float('inf')`. */
  datatype Ext = Finite(value: real) | PosInf {
    /** `self < c` with Python's ordering of `inf`. */
    predicate Below(c: real) {
      Finite? && value < c
    }

    /** `self > c` with Python's ordering of `inf`. */
    predicate Above(c: real) {
      PosInf? || value > c
    }
  }
}
