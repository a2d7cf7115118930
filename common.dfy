/** Shared vocabulary of the preprocessing model: the exceptions the source raises,
    a result type for operations that can raise, and the two pieces of Python
    semantics the source relies on (slice bounds and `int()` of a float). */
module Common {

  /** The Python exception classes raised by the modelled functions. A bare
      `raise Exception(...)` (unknown keyword argument) is `UnknownKeyword`. */
  datatype Error = ValueError | IndexError | AssertionError | TypeError | UnknownKeyword | ZeroDivisionError

  datatype Result<T> = Ok(value: T) | Err(error: Error)

  datatype Option<T> = None | Some(value: T)

  function Min(a: int, b: int): int { if a <= b then a else b }

  function Max(a: int, b: int): int { if a >= b then a else b }

  function MinReal(a: real, b: real): real { if a <= b then a else b }

  /** Where a slice bound `i` lands on an axis of length `n` in Python: a negative
      bound counts from the end, and the result is clamped to [0, n]. */
  function SliceBound(i: int, n: nat): (b: nat)
    ensures b <= n
    ensures 0 <= i <= n ==> b == i
  {
    if i < 0 then (if i + n < 0 then 0 else i + n)
    else if i > n then n
    else i
  }

  /** Where the Python slice `lo:hi` stops on an axis of length `n`: at the
      normalised `hi`, or at the normalised start when that is further on, which
      makes the slice empty. */
  function SliceStop(lo: int, hi: int, n: nat): (s: nat)
    ensures SliceBound(lo, n) <= s <= n
    ensures 0 <= lo <= hi <= n ==> s == hi
    ensures 0 <= hi <= lo ==> s == SliceBound(lo, n)
  {
    if SliceBound(hi, n) < SliceBound(lo, n) then SliceBound(lo, n) else SliceBound(hi, n)
  }

  /** Python's `int(x)` for a float: truncation toward zero. */
  function Trunc(x: real): (r: int)
    ensures x >= 0.0 ==> r as real <= x < r as real + 1.0
    ensures x < 0.0 ==> r as real - 1.0 < x <= r as real
  {
    if x >= 0.0 then x.Floor else -((-x).Floor)
  }

  /** A non-negative value in [k, k + 1) truncates to k. */
  lemma TruncBetween(x: real, k: int)
    requires 0 <= k && k as real <= x < (k + 1) as real
    ensures Trunc(x) == k
  {
  }

  /** `int(m / 2)` with Python's true division is integer halving rounded toward zero. */
  lemma TruncHalf(m: int)
    ensures Trunc(m as real / 2.0) == if m >= 0 then m / 2 else -((-m) / 2)
  {
    var t := Trunc(m as real / 2.0);
    if m >= 0 {
      assert m == 2 * (m / 2) + m % 2;
      assert (m / 2) as real <= m as real / 2.0 < (m / 2) as real + 1.0;
    } else {
      var k := -m;
      assert k == 2 * (k / 2) + k % 2;
      assert -((k / 2) as real) - 1.0 < m as real / 2.0 <= -((k / 2) as real);
    }
  }
}
