/** Backoff strategies: pure maps from a retry ordinal to a wait.

    A `time.Duration` is an integer count of nanoseconds. The floating-point
    arithmetic of the exponential variants is computed exactly over `real`,
    and the conversion back to `time.Duration` truncates toward zero, as Go's
    float-to-integer conversion does. The one random input, `rand.Float64()`,
    is an explicit `draw` in `[0, 1)`. */
module Backoff {

  /** Nanoseconds, like Go's `time.Duration`. */
  type Duration = int

  const Nanosecond: Duration := 1
  const Millisecond: Duration := 1_000_000
  const Second: Duration := 1_000_000_000

  const MinInt64: int := -0x8000_0000_0000_0000
  const MaxInt64: int := 0x7fff_ffff_ffff_ffff

  predicate InInt64(x: int) {
    MinInt64 <= x <= MaxInt64
  }

  /** Two's-complement wrap-around of a 64-bit signed product or sum. */
  function Wrap64(x: int): (r: int)
    ensures InInt64(r)
    ensures (r - x) % 0x1_0000_0000_0000_0000 == 0
    ensures InInt64(x) ==> r == x
  {
    (x - MinInt64) % 0x1_0000_0000_0000_0000 + MinInt64
  }

  /** Go's conversion of a float to an integer type: truncation toward zero. */
  function Trunc(x: real): (r: int)
    ensures 0.0 <= x ==> 0 <= r && r as real <= x < r as real + 1.0
    ensures x < 0.0 ==> r <= 0 && r as real - 1.0 < x <= r as real
  {
    if x >= 0.0 then x.Floor else -((-x).Floor)
  }

  function Pow2(n: nat): (r: nat)
    ensures r >= 1
  {
    if n == 0 then 1 else 2 * Pow2(n - 1)
  }

  /** `math.Exp2` on an integer exponent, exactly. */
  function Exp2(n: int): (r: real)
    ensures r > 0.0
  {
    if n >= 0 then Pow2(n) as real else 1.0 / Pow2(-n) as real
  }

  /** Doubling the exponent by one doubles `Exp2`, on negative exponents too. */
  lemma Exp2Step(n: int)
    ensures Exp2(n + 1) == 2.0 * Exp2(n)
  {
    if n < -1 {
      var p := Pow2(-n - 1) as real;
      assert Pow2(-n) as real == 2.0 * p;
      calc {
        2.0 * Exp2(n);
        2.0 * (1.0 / (2.0 * p));
        1.0 / p;
      }
    }
  }

  /** `Exp2` never decreases as the exponent grows. */
  lemma {:induction false} Exp2Monotone(n: int, m: int)
    requires n <= m
    ensures Exp2(n) <= Exp2(m)
    decreases m - n
  {
    if n < m {
      Exp2Step(n);
      Exp2Monotone(n + 1, m);
    }
  }

  /** `uniform(min, max)`: `min + draw * (max - min)` for a `draw` of
      `rand.Float64()`. */
  function Uniform(lo: real, hi: real, draw: real): (u: real)
    requires 0.0 <= draw < 1.0
    ensures lo < hi ==> lo <= u < hi
    ensures lo == hi ==> u == lo
    ensures hi < lo ==> hi < u <= lo
  {
    lo + Scale(draw, hi - lo)
  }

  /** `rand.Float64() * width`: a draw in `[0, 1)` scales a width to a
      value between zero (included) and the width (excluded). */
  function Scale(draw: real, width: real): (r: real)
    requires 0.0 <= draw < 1.0
    ensures 0.0 < width ==> 0.0 <= r < width
    ensures width == 0.0 ==> r == 0.0
    ensures width < 0.0 ==> width < r <= 0.0
  {
    if 0.0 < width then
      PositiveProduct(1.0 - draw, width);
      draw * width
    else if width < 0.0 then
      PositiveProduct(1.0 - draw, -width);
      draw * width
    else
      draw * width
  }

  lemma PositiveProduct(a: real, b: real)
    requires 0.0 < a && 0.0 < b
    ensures 0.0 < a * b
  {
  }

  /** `exponentialBackoff.expo`: `min(cap, base * 2^retry)` as a float. */
  function Expo(base: Duration, cap: Duration, retry: int): (v: real)
    ensures v <= cap as real
    ensures v <= Exp2(retry) * base as real
    ensures v == cap as real || v == Exp2(retry) * base as real
  {
    var grown := Exp2(retry) * base as real;
    if cap as real <= grown then cap as real else grown
  }

  /** The strategy variants and the parameters each carries. */
  datatype Strategy =
    | Linear(slope: Duration)
    | Constant(interval: Duration)
    | Exponential(base: Duration, cap: Duration)
    | EqualJitter(base: Duration, cap: Duration)
    | FullJitter(base: Duration, cap: Duration)
    | DecorrelatedJitter(base: Duration, cap: Duration, sleep: Duration)

  /** `backoffStrategy.backoff(retry)` for each variant; `draw` is the one
      `rand.Float64()` the jittered variants consume. */
  function Wait(s: Strategy, retry: int, draw: real): (wait: Duration)
    requires 0.0 <= draw < 1.0
    ensures s.Linear? ==> InInt64(wait)
    ensures s.Constant? ==> wait == s.interval
    ensures s.Exponential? || s.DecorrelatedJitter? ==> wait <= s.cap
  {
    match s
    case Linear(slope) => Wrap64(retry * slope)
    case Constant(interval) => interval
    case Exponential(base, cap) => Trunc(Expo(base, cap, retry))
    case EqualJitter(base, cap) =>
      var v := Expo(base, cap, retry);
      Trunc(v / 2.0 + Uniform(0.0, v / 2.0, draw))
    case FullJitter(base, cap) =>
      var v := Expo(base, cap, retry);
      Trunc(Uniform(0.0, v, draw))
    case DecorrelatedJitter(base, cap, sleep) =>
      var u := Uniform(base as real, 3.0 * sleep as real, draw);
      Trunc(if cap as real <= u then cap as real else u)
  }

  // ---------------------------------------------------------------------
  // Properties of expo

  /** For a non-negative ordinal `expo` is the integer `min(cap, base * 2^n)`. */
  lemma ExpoExact(base: Duration, cap: Duration, n: nat)
    ensures Expo(base, cap, n) == (if cap <= base * Pow2(n) then cap else base * Pow2(n)) as real
  {
    var p := Pow2(n);
    var grown := base * p;
    assert Exp2(n) == p as real;
    CastProduct(p, base);
    assert Exp2(n) * base as real == grown as real;
    assert cap as real <= grown as real <==> cap <= grown;
  }

  /** Converting an integer product to `real` multiplies the converted factors. */
  lemma CastProduct(a: int, b: int)
    ensures (b * a) as real == a as real * b as real
  {
  }

  /** `expo` does not decrease in the ordinal when `base` is non-negative. */
  lemma ExpoMonotone(base: Duration, cap: Duration, n: int, m: int)
    requires 0 <= base
    requires n <= m
    ensures Expo(base, cap, n) <= Expo(base, cap, m)
  {
    Exp2Monotone(n, m);
    ScaleMonotone(Exp2(n), Exp2(m), base as real);
    MinMonotone(cap as real, Exp2(n) * base as real, Exp2(m) * base as real);
  }

  /** Capping keeps the order. */
  lemma MinMonotone(c: real, x: real, y: real)
    requires x <= y
    ensures (if c <= x then c else x) <= (if c <= y then c else y)
  {
  }

  /** Multiplying by a non-negative factor keeps the order. */
  lemma ScaleMonotone(x: real, y: real, k: real)
    requires x <= y && 0.0 <= k
    ensures x * k <= y * k
  {
    assert (y - x) * k >= 0.0;
  }

  /** The `ExampleExpo` output: base 1ns, cap 10ns gives 2, 4, 8. */
  lemma ExpoExamples()
    ensures Expo(Nanosecond, 10 * Nanosecond, 1) == 2.0
    ensures Expo(Nanosecond, 10 * Nanosecond, 2) == 4.0
    ensures Expo(Nanosecond, 10 * Nanosecond, 3) == 8.0
  {
    assert Pow2(3) == 8;
  }

  // ---------------------------------------------------------------------
  // Properties of each strategy

  /** Linear backoff is `retry * slope`, wrapping like a 64-bit product. */
  lemma LinearIsProduct(slope: Duration, retry: int, draw: real)
    requires 0.0 <= draw < 1.0
    ensures InInt64(retry * slope) ==> Wait(Linear(slope), retry, draw) == retry * slope
    ensures InInt64(Wait(Linear(slope), retry, draw))
  {
  }

  /** The `ExampleLinearBackoff` output: slope 1s gives 1s, 2s, 3s. */
  lemma LinearExamples(draw: real)
    requires 0.0 <= draw < 1.0
    ensures Wait(Linear(Second), 1, draw) == Second
    ensures Wait(Linear(Second), 2, draw) == 2 * Second
    ensures Wait(Linear(Second), 3, draw) == 3 * Second
  {
  }

  /** Constant backoff is `interval`, whatever the ordinal and the draw. */
  lemma ConstantIgnoresRetry(interval: Duration, n: int, m: int, d1: real, d2: real)
    requires 0.0 <= d1 < 1.0 && 0.0 <= d2 < 1.0
    ensures Wait(Constant(interval), n, d1) == Wait(Constant(interval), m, d2) == interval
  {
  }

  /** Exponential backoff is `expo(retry)` truncated; for `n >= 0` it is
      exactly `min(cap, base * 2^n)`. */
  lemma ExponentialIsExpo(base: Duration, cap: Duration, n: nat, draw: real)
    requires 0.0 <= draw < 1.0
    ensures Wait(Exponential(base, cap), n, draw) == Trunc(Expo(base, cap, n))
    ensures Wait(Exponential(base, cap), n, draw) == if cap <= base * Pow2(n) then cap else base * Pow2(n)
    ensures Wait(Exponential(base, cap), n, draw) <= cap
  {
    ExpoExact(base, cap, n);
  }

  /** The `ExampleExponentialBackoff` output: base 1s, cap 10s gives
      2s, 4s, 8s, 10s, 10s. */
  lemma ExponentialExamples(draw: real)
    requires 0.0 <= draw < 1.0
    ensures Wait(Exponential(Second, 10 * Second), 1, draw) == 2 * Second
    ensures Wait(Exponential(Second, 10 * Second), 2, draw) == 4 * Second
    ensures Wait(Exponential(Second, 10 * Second), 3, draw) == 8 * Second
    ensures Wait(Exponential(Second, 10 * Second), 4, draw) == 10 * Second
    ensures Wait(Exponential(Second, 10 * Second), 5, draw) == 10 * Second
  {
    ExponentialIsExpo(Second, 10 * Second, 1, draw);
    ExponentialIsExpo(Second, 10 * Second, 2, draw);
    ExponentialIsExpo(Second, 10 * Second, 3, draw);
    ExponentialIsExpo(Second, 10 * Second, 4, draw);
    ExponentialIsExpo(Second, 10 * Second, 5, draw);
    assert Pow2(3) == 8;
    assert Pow2(4) == 16;
    assert Pow2(5) == 32;
  }

  /** Equal jitter keeps half of `expo` and randomises the other half: the
      wait is at least half of `expo` (up to truncation) and below `expo`. */
  lemma EqualJitterBounds(base: Duration, cap: Duration, n: int, draw: real)
    requires 0.0 <= draw < 1.0
    ensures var v := Expo(base, cap, n);
      0.0 <= v ==> Trunc(v / 2.0) <= Wait(EqualJitter(base, cap), n, draw)
    ensures var v := Expo(base, cap, n);
      0.0 < v ==> (Wait(EqualJitter(base, cap), n, draw) as real) < v
    ensures var v := Expo(base, cap, n);
      v == 0.0 ==> Wait(EqualJitter(base, cap), n, draw) == 0
  {
    var v := Expo(base, cap, n);
    var x := v / 2.0 + Uniform(0.0, v / 2.0, draw);
    if 0.0 <= v {
      assert v / 2.0 <= x;
      TruncMonotone(v / 2.0, x);
    }
  }

  lemma TruncMonotone(a: real, b: real)
    requires 0.0 <= a <= b
    ensures Trunc(a) <= Trunc(b)
  {
  }

  /** Full jitter draws the whole wait: it is never negative and, when
      `expo` is positive, below `expo`. */
  lemma FullJitterBounds(base: Duration, cap: Duration, n: int, draw: real)
    requires 0.0 <= draw < 1.0
    ensures var v := Expo(base, cap, n);
      0.0 <= v ==> 0 <= Wait(FullJitter(base, cap), n, draw)
    ensures var v := Expo(base, cap, n);
      0.0 < v ==> (Wait(FullJitter(base, cap), n, draw) as real) < v
  {
  }

  /** Decorrelated jitter is `min(cap, u)` with `u` drawn in
      `[base, 3 * sleep)`: never above `cap`, at least `base` when
      `base <= cap` and `base <= 3 * sleep`. */
  lemma DecorrelatedJitterBounds(base: Duration, cap: Duration, sleep: Duration, n: int, draw: real)
    requires 0.0 <= draw < 1.0
    ensures Wait(DecorrelatedJitter(base, cap, sleep), n, draw) <= cap
    ensures base <= cap && base <= 3 * sleep ==>
      base <= Wait(DecorrelatedJitter(base, cap, sleep), n, draw)
    ensures 0 <= base < 3 * sleep ==>
      Wait(DecorrelatedJitter(base, cap, sleep), n, draw) < 3 * sleep
  {
  }

  /** Decorrelated jitter ignores the ordinal: only `sleep` and the draw
      decide the wait, and a call leaves the strategy value unchanged, so
      every call draws from the same range. */
  lemma DecorrelatedIgnoresRetry(s: Strategy, n: int, m: int, draw: real)
    requires s.DecorrelatedJitter?
    requires 0.0 <= draw < 1.0
    ensures Wait(s, n, draw) == Wait(s, m, draw)
  {
  }

  /** Parameters a caller would configure: nothing negative. */
  predicate NonNegative(s: Strategy) {
    match s
    case Linear(slope) => 0 <= slope
    case Constant(interval) => 0 <= interval
    case Exponential(base, cap) => 0 <= base && 0 <= cap
    case EqualJitter(base, cap) => 0 <= base && 0 <= cap
    case FullJitter(base, cap) => 0 <= base && 0 <= cap
    case DecorrelatedJitter(base, cap, sleep) => 0 <= base && 0 <= cap && 0 <= sleep
  }

  /** With non-negative parameters no strategy returns a negative wait for
      a positive ordinal (the linear product must fit in 64 bits). */
  lemma WaitNonNegative(s: Strategy, n: int, draw: real)
    requires NonNegative(s)
    requires 1 <= n
    requires s.Linear? ==> n * s.slope <= MaxInt64
    requires 0.0 <= draw < 1.0
    ensures 0 <= Wait(s, n, draw)
  {
    match s
    case Linear(slope) =>
      assert 0 <= n * slope;
    case Constant(_) =>
    case Exponential(base, cap) =>
    case EqualJitter(base, cap) =>
      EqualJitterBounds(base, cap, n, draw);
    case FullJitter(base, cap) =>
      FullJitterBounds(base, cap, n, draw);
    case DecorrelatedJitter(base, cap, sleep) =>
  }
}
