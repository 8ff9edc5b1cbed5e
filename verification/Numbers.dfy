// Real arithmetic shared by every component: extrema, sums, and rounding to four decimals.
module Numbers {

  function Max(a: real, b: real): (r: real)
    ensures r >= a && r >= b && (r == a || r == b)
  {
    if a < b then b else a
  }

  function Min(a: real, b: real): (r: real)
    ensures r <= a && r <= b && (r == a || r == b)
  {
    if b < a then b else a
  }

  function MinNat(a: nat, b: nat): nat {
    if b < a then b else a
  }

  function Sum(xs: seq<real>): real {
    if |xs| == 0 then 0.0 else Sum(xs[..|xs| - 1]) + xs[|xs| - 1]
  }

  lemma SumAppend(xs: seq<real>, x: real)
    ensures Sum(xs + [x]) == Sum(xs) + x
  {
    assert (xs + [x])[..|xs|] == xs;
  }

  lemma {:induction false} SumNonNegative(xs: seq<real>)
    requires forall i :: 0 <= i < |xs| ==> xs[i] >= 0.0
    ensures Sum(xs) >= 0.0
  {
    if |xs| > 0 {
      SumNonNegative(xs[..|xs| - 1]);
    }
  }

  // n copies of x.  Kept as repeated addition so that the proofs about it stay linear.
  function Times(n: nat, x: real): real {
    if n == 0 then 0.0 else Times(n - 1, x) + x
  }

  lemma {:induction false} TimesIsProduct(n: nat, x: real)
    ensures Times(n, x) == n as real * x
  {
    if n > 0 {
      TimesIsProduct(n - 1, x);
      assert n as real * x == (n - 1) as real * x + x;
    }
  }

  lemma {:induction false} TimesSum(n: nat, x: real, y: real)
    ensures Times(n, x + y) == Times(n, x) + Times(n, y)
    ensures Times(n, x - y) == Times(n, x) - Times(n, y)
  {
    if n > 0 {
      TimesSum(n - 1, x, y);
    }
  }

  lemma {:induction false} TimesMonotone(n: nat, x: real, y: real)
    requires x <= y
    ensures Times(n, x) <= Times(n, y)
  {
    if n > 0 {
      TimesMonotone(n - 1, x, y);
    }
  }

  // A product under a name of its own, where what surrounds it is not linear either.
  function Product(a: real, b: real): (r: real)
    ensures a >= 0.0 && b >= 0.0 ==> r >= 0.0
  {
    a * b
  }

  lemma ProductSign(a: real, b: real)
    ensures a >= 0.0 && b >= 0.0 ==> a * b >= 0.0
    ensures a > 0.0 && b > 0.0 ==> a * b > 0.0
  {
  }

  lemma ProductMonotone(a: real, x: real, y: real)
    requires a >= 0.0 && x <= y
    ensures a * x <= a * y
  {
    ProductSign(a, y - x);
    assert a * (y - x) == a * y - a * x;
  }

  // Half of the last kept decimal: the most a rounded value is away from its argument.
  const HALF_STEP := 0.00005

  /** Rounding to four decimals, halves to the even neighbour, as Python rounds an exact value. */
  function Round4(x: real): (r: real)
    ensures x - HALF_STEP <= r <= x + HALF_STEP
    ensures x >= 0.0 ==> r >= 0.0
  {
    var below := (x * 10000.0).Floor;
    var rest := x * 10000.0 - below as real;
    if rest > 0.5 || (rest == 0.5 && below % 2 == 1) then (below + 1) as real / 10000.0
    else below as real / 10000.0
  }

  // It is the nearest multiple of a ten-thousandth, and the even one of two that are as near.
  lemma Round4IsNearest(x: real) returns (k: int)
    ensures 10000.0 * Round4(x) == k as real && -0.5 <= 10000.0 * x - k as real <= 0.5
    ensures 10000.0 * x - k as real == 0.5 || 10000.0 * x - k as real == -0.5 ==> k % 2 == 0
  {
    var below := (x * 10000.0).Floor;
    var rest := x * 10000.0 - below as real;
    k := if rest > 0.5 || (rest == 0.5 && below % 2 == 1) then below + 1 else below;
  }

  lemma Round4Monotone(x: real, y: real)
    requires x <= y
    ensures Round4(x) <= Round4(y)
  {
    var a, b := (x * 10000.0).Floor, (y * 10000.0).Floor;
    if a == b {
      assert x * 10000.0 - a as real <= y * 10000.0 - b as real;
    } else {
      assert a + 1 <= b;
    }
  }

  // Which values up to one are reported as one.
  lemma Round4IsOne(x: real)
    requires x <= 1.0
    ensures Round4(x) <= 1.0
    ensures Round4(x) == 1.0 <==> x >= 1.0 - HALF_STEP
  {
    Round4Monotone(x, 1.0);
    assert (x * 10000.0).Floor <= 10000;
    if x >= 1.0 - HALF_STEP && x < 1.0 {
      assert (x * 10000.0).Floor == 9999;
    }
  }

  // Rounding to two decimals.
  function Round2(x: real): real {
    Round4(x / 100.0) * 100.0
  }

  lemma Round2Monotone(x: real, y: real)
    requires x <= y
    ensures Round2(x) <= Round2(y)
  {
    Round4Monotone(x / 100.0, y / 100.0);
  }

  // Rounding to six decimals.
  function Round6(x: real): real {
    Round4(x * 100.0) / 100.0
  }

  // Truncation toward zero of a non-negative value, which is Python's int().
  function Truncate(x: real): (n: nat)
    requires x >= 0.0
    ensures n as real <= x < n as real + 1.0
  {
    x.Floor
  }
}
