/** The Python built-ins the clipping and plotting code computes with:
    `min`, `max`, `int()` of a float, and slicing a sequence. */
module Numeric {

  function Min(a: real, b: real): (r: real)
    ensures r <= a && r <= b
    ensures r == a || r == b
  {
    if a <= b then a else b
  }

  function Max(a: real, b: real): (r: real)
    ensures r >= a && r >= b
    ensures r == a || r == b
  {
    if a >= b then a else b
  }

  /** `int(x)`: rounds toward zero, so it is the floor only for `x >= 0`. */
  function Trunc(x: real): (n: int)
    ensures x >= 0.0 ==> 0 <= n && n as real <= x < n as real + 1.0
    ensures x < 0.0 ==> n <= 0 && n as real - 1.0 < x <= n as real
  {
    if x >= 0.0 then x.Floor else -((-x).Floor)
  }

  /** `t * n` for a count `n` (a sample rate), as the `n`-fold sum of `t`. */
  function Times(t: real, n: nat): (r: real) {
    if n == 0 then 0.0 else Times(t, n - 1) + t
  }

  lemma {:induction false} TimesIsProduct(t: real, n: nat)
    ensures Times(t, n) == t * n as real
  {
    if n > 0 {
      TimesIsProduct(t, n - 1);
    }
  }

  lemma {:induction false} TimesMonotone(a: real, b: real, n: nat)
    requires a <= b
    ensures Times(a, n) <= Times(b, n)
  {
    if n > 0 {
      TimesMonotone(a, b, n - 1);
    }
  }

  lemma TimesOfZero(n: nat)
    ensures Times(0.0, n) == 0.0
  {
    TimesIsProduct(0.0, n);
  }

  /** `(n / sr) * sr == n`: a duration in seconds, times the rate, is back
      the sample count. */
  lemma TimesOverRate(n: nat, sr: nat)
    requires sr > 0
    ensures Times(n as real / sr as real, sr) == n as real
  {
    TimesIsProduct(n as real / sr as real, sr);
  }

  /** Where a slice bound `i` lands in a sequence of length `n`: a negative
      bound counts from the end, and both kinds are clamped to `0..n`. */
  function SliceBound(i: int, n: nat): (k: nat)
    ensures k <= n
    ensures 0 <= i <= n ==> k == i
    ensures i > n ==> k == n
    ensures -(n as int) <= i < 0 ==> k == n + i
    ensures i < -(n as int) ==> k == 0
  {
    if i >= 0 then (if i <= n then i else n)
    else if n + i >= 0 then n + i
    else 0
  }

  /** `y[a:b]`, Python's slice with step one. */
  function PySlice<T>(y: seq<T>, a: int, b: int): (r: seq<T>)
    ensures |r| <= |y|
  {
    var lo, hi := SliceBound(a, |y|), SliceBound(b, |y|);
    if lo < hi then y[lo..hi] else []
  }

  /** `len(range(a, b))`. */
  function RangeLength(a: int, b: int): (n: nat)
    ensures n as int >= b - a
    ensures n == 0 || n == b - a
  {
    if a < b then b - a else 0
  }

  /** With bounds inside the sequence, the slice is the plain subsequence. */
  lemma PySliceInside<T>(y: seq<T>, a: int, b: int)
    requires 0 <= a <= b <= |y|
    ensures PySlice(y, a, b) == y[a..b]
  {
  }

  /** With a non-negative start and a stop no later than the end, the slice
      has exactly as many elements as `range(a, b)`. */
  lemma PySliceLengthMatchesRange<T>(y: seq<T>, a: int, b: int)
    requires 0 <= a && 0 <= b <= |y|
    ensures |PySlice(y, a, b)| == RangeLength(a, b)
  {
  }

  /** `int(t * sr)` is monotone in `t`. */
  lemma TruncMonotone(x: real, y: real)
    requires 0.0 <= x <= y
    ensures Trunc(x) <= Trunc(y)
  {
  }

  /** `int()` of an integer-valued real gives that integer back. */
  lemma TruncOfInt(n: int)
    ensures Trunc(n as real) == n
  {
  }
}
