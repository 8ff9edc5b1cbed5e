// The two statistics of the metrics report: Jain's fairness index and interpolated quantiles.
module Statistics {
  import opened Numbers

  // ----- Jain's index

  function SignedProduct(a: real, b: real): (r: real)
    ensures (a > 0.0 && b > 0.0) || (a < 0.0 && b < 0.0) ==> r > 0.0
    ensures a == 0.0 || b == 0.0 ==> r == 0.0
  {
    a * b
  }

  function Square(x: real): (r: real)
    ensures x != 0.0 ==> r > 0.0
    ensures x == 0.0 ==> r == 0.0
  {
    SignedProduct(x, x)
  }

  function SumSquares(xs: seq<real>): (r: real)
    ensures r >= 0.0
  {
    if |xs| == 0 then 0.0 else SumSquares(xs[..|xs| - 1]) + Square(xs[|xs| - 1])
  }

  function Ratio(n: real, squareOfSum: real, sumOfSquares: real): real {
    var denominator := n * sumOfSquares;
    if denominator == 0.0 then 1.0 else squareOfSum / denominator
  }

  function JainsIndex(values: seq<real>): real {
    if |values| == 0 then 1.0 else Ratio(|values| as real, Square(Sum(values)), SumSquares(values))
  }

  ghost predicate AllEqual(xs: seq<real>) {
    forall i, j :: 0 <= i < j < |xs| ==> xs[i] == xs[j]
  }

  // Sum of squared distances of the values from x.
  function SquaredSpread(xs: seq<real>, x: real): (r: real)
    ensures r >= 0.0
  {
    if |xs| == 0 then 0.0 else SquaredSpread(xs[..|xs| - 1], x) + Square(xs[|xs| - 1] - x)
  }

  lemma SquareExpands(a: real, b: real)
    ensures Square(a + b) == Square(a) + 2.0 * (a * b) + Square(b)
    ensures Square(a - b) == Square(a) - 2.0 * (a * b) + Square(b)
  {
  }

  // Sum of the values' products with x.
  function Cross(xs: seq<real>, x: real): real {
    if |xs| == 0 then 0.0 else Cross(xs[..|xs| - 1], x) + xs[|xs| - 1] * x
  }

  lemma {:induction false} CrossIsProduct(xs: seq<real>, x: real)
    ensures Cross(xs, x) == Sum(xs) * x
  {
    if |xs| > 0 {
      CrossIsProduct(xs[..|xs| - 1], x);
      Distribute(Sum(xs[..|xs| - 1]), xs[|xs| - 1], x);
    }
  }

  lemma Distribute(a: real, b: real, x: real)
    ensures (a + b) * x == a * x + b * x
  {
  }

  lemma {:induction false} SpreadExpands(xs: seq<real>, x: real)
    ensures SquaredSpread(xs, x) == SumSquares(xs) - 2.0 * Cross(xs, x) + Times(|xs|, Square(x))
  {
    if |xs| > 0 {
      SpreadExpands(xs[..|xs| - 1], x);
      SquareExpands(xs[|xs| - 1], x);
    }
  }

  lemma {:induction false} SpreadZero(xs: seq<real>, x: real)
    ensures SquaredSpread(xs, x) == 0.0 <==> forall i :: 0 <= i < |xs| ==> xs[i] == x
  {
    if |xs| > 0 {
      var init, y := xs[..|xs| - 1], xs[|xs| - 1];
      SpreadZero(init, x);
      assert xs == init + [y];
    }
  }

  // How far n * (sum of squares) exceeds the square of the sum.
  function Gap(xs: seq<real>): (r: real)
    ensures r >= 0.0
  {
    if |xs| == 0 then 0.0 else Gap(xs[..|xs| - 1]) + SquaredSpread(xs[..|xs| - 1], xs[|xs| - 1])
  }

  lemma SquareOfSum(xs: seq<real>, x: real)
    ensures Square(Sum(xs) + x) == Square(Sum(xs)) + 2.0 * Cross(xs, x) + Square(x)
  {
    CrossIsProduct(xs, x);
    SquareExpands(Sum(xs), x);
  }

  // Cauchy-Schwarz with its remainder: n * Q - S * S is a sum of squared differences.
  lemma {:induction false} GapIsRemainder(xs: seq<real>)
    ensures Times(|xs|, SumSquares(xs)) - Square(Sum(xs)) == Gap(xs)
  {
    if |xs| > 0 {
      var init, x := xs[..|xs| - 1], xs[|xs| - 1];
      GapIsRemainder(init);
      GapAdds(init, x);
      assert xs[|init|] == x;
    }
  }

  lemma GapAdds(init: seq<real>, x: real)
    requires Times(|init|, SumSquares(init)) - Square(Sum(init)) == Gap(init)
    ensures Times(|init| + 1, SumSquares(init) + Square(x)) - Square(Sum(init) + x) == Gap(init) + SquaredSpread(init, x)
  {
    var n, q, xx, s := |init|, SumSquares(init), Square(x), Sum(init);
    SpreadExpands(init, x);
    SquareOfSum(init, x);
    TimesSum(n, q, xx);
    GapStep(Times(n, q), Times(n, xx), q, xx, Square(s), Cross(init, x), Square(s + x), Gap(init), SquaredSpread(init, x));
  }

  lemma GapStep(nq: real, nx: real, q: real, xx: real, ss: real, sx: real, ss': real, gap: real, spread: real)
    requires nq - ss == gap && ss' == ss + 2.0 * sx + xx && spread == q - 2.0 * sx + nx
    ensures (nq + nx) + (q + xx) - ss' == gap + spread
  {
  }

  lemma {:induction false} GapZero(xs: seq<real>)
    ensures Gap(xs) == 0.0 <==> AllEqual(xs)
  {
    if |xs| > 0 {
      var init, x := xs[..|xs| - 1], xs[|xs| - 1];
      GapZero(init);
      SpreadZero(init, x);
      assert forall i :: 0 <= i < |init| ==> init[i] == xs[i];
    }
  }

  lemma {:induction false} SumSquaresBounds(xs: seq<real>)
    requires forall i :: 0 <= i < |xs| ==> xs[i] >= 0.0
    ensures Sum(xs) >= 0.0 && Square(Sum(xs)) >= SumSquares(xs)
    ensures SumSquares(xs) == 0.0 ==> AllEqual(xs)
  {
    if |xs| > 0 {
      var init, x := xs[..|xs| - 1], xs[|xs| - 1];
      SumSquaresBounds(init);
      SquareExpands(Sum(init), x);
      ProductSign(Sum(init), x);
    }
    SumSquaresZero(xs);
  }

  lemma {:induction false} SumSquaresZero(xs: seq<real>)
    ensures SumSquares(xs) == 0.0 <==> forall i :: 0 <= i < |xs| ==> xs[i] == 0.0
  {
    if |xs| > 0 {
      SumSquaresZero(xs[..|xs| - 1]);
      assert xs == xs[..|xs| - 1] + [xs[|xs| - 1]];
    }
  }

  // The index lies between 1/n and 1, and is 1 exactly when all values are the same.
  lemma JainsIndexBounds(values: seq<real>)
    requires |values| > 0 && forall i :: 0 <= i < |values| ==> values[i] >= 0.0
    ensures 1.0 / |values| as real <= JainsIndex(values) <= 1.0
    ensures JainsIndex(values) == 1.0 <==> AllEqual(values)
  {
    GapIsRemainder(values);
    GapZero(values);
    SumSquaresBounds(values);
    RatioBounds(|values|, Square(Sum(values)), SumSquares(values));
  }

  lemma RatioBounds(n: nat, ss: real, q: real)
    requires n > 0 && Times(n, q) >= ss >= q >= 0.0
    ensures 1.0 / n as real <= Ratio(n as real, ss, q) <= 1.0
    ensures Ratio(n as real, ss, q) == 1.0 <==> q == 0.0 || Times(n, q) - ss == 0.0
  {
    TimesIsProduct(n, q);
    RealRatioBounds(n as real, ss, q, Times(n, q));
  }

  lemma RealRatioBounds(n: real, ss: real, q: real, d: real)
    requires n >= 1.0 && d == n * q && d >= ss >= q >= 0.0
    ensures 1.0 / n <= Ratio(n, ss, q) <= 1.0
    ensures Ratio(n, ss, q) == 1.0 <==> q == 0.0 || d - ss == 0.0
  {
    if q > 0.0 {
      ProductSign(n, q);
      assert 1.0 / n == q / d;
    }
  }

  // ----- quantiles

  function Insert(x: real, sorted: seq<real>): (r: seq<real>)
    ensures multiset(r) == multiset{x} + multiset(sorted)
  {
    if |sorted| == 0 then [x]
    else if sorted[0] < x then
      assert sorted == [sorted[0]] + sorted[1..];
      [sorted[0]] + Insert(x, sorted[1..])
    else [x] + sorted
  }

  function Sorted(xs: seq<real>): (r: seq<real>)
    ensures multiset(r) == multiset(xs) && |r| == |xs|
  {
    if |xs| == 0 then []
    else
      assert xs == [xs[0]] + xs[1..];
      var r := Insert(xs[0], Sorted(xs[1..]));
      assert |r| == |multiset(r)| == |multiset(xs)|;
      r
  }

  ghost predicate Ordered(xs: seq<real>) {
    forall i, j :: 0 <= i <= j < |xs| ==> xs[i] <= xs[j]
  }

  lemma {:induction false} InsertOrdered(x: real, sorted: seq<real>)
    requires Ordered(sorted)
    ensures Ordered(Insert(x, sorted))
  {
    if |sorted| > 0 && sorted[0] < x {
      InsertOrdered(x, sorted[1..]);
      var r := Insert(x, sorted[1..]);
      forall j | 0 <= j < |r| ensures sorted[0] <= r[j] {
        assert r[j] in multiset(r);
        assert r[j] == x || r[j] in sorted[1..];
      }
    }
  }

  lemma {:induction false} SortedOrdered(xs: seq<real>)
    ensures Ordered(Sorted(xs))
  {
    if |xs| > 0 {
      SortedOrdered(xs[1..]);
      InsertOrdered(xs[0], Sorted(xs[1..]));
    }
  }

  lemma TailBag(a: seq<real>)
    requires |a| > 0
    ensures a == [a[0]] + a[1..] && a[0] in multiset(a)
    ensures multiset(a[1..]) == multiset(a) - multiset{a[0]}
  {
    assert a == [a[0]] + a[1..];
  }

  lemma TailsAgree(a: seq<real>, b: seq<real>)
    requires |a| > 0 && |b| > 0 && a[0] == b[0] && multiset(a) == multiset(b)
    ensures multiset(a[1..]) == multiset(b[1..])
  {
    TailBag(a);
    TailBag(b);
  }

  lemma LeastFirst(a: seq<real>, x: real)
    requires Ordered(a) && x in multiset(a)
    ensures |a| > 0 && a[0] <= x
  {
  }

  lemma SameLeast(a: seq<real>, b: seq<real>)
    requires Ordered(a) && Ordered(b) && multiset(a) == multiset(b) && |a| > 0
    ensures |b| > 0 && a[0] == b[0]
  {
    TailBag(a);
    LeastFirst(b, a[0]);
    TailBag(b);
    LeastFirst(a, b[0]);
  }

  lemma TailOrdered(a: seq<real>)
    requires Ordered(a) && |a| > 0
    ensures Ordered(a[1..])
  {
  }

  lemma {:induction false} OrderedUnique(a: seq<real>, b: seq<real>)
    requires Ordered(a) && Ordered(b) && multiset(a) == multiset(b)
    ensures a == b
  {
    if |a| == 0 {
      assert |b| == |multiset(b)| == |multiset(a)| == 0;
    } else {
      SameLeast(a, b);
      TailsAgree(a, b);
      TailOrdered(a);
      TailOrdered(b);
      OrderedUnique(a[1..], b[1..]);
      assert a == [a[0]] + a[1..] && b == [b[0]] + b[1..];
    }
  }

  function Ceiling(x: real): int {
    if x.Floor as real == x then x.Floor else x.Floor + 1
  }

  // The value at a fractional position of an ordered list.
  function At(ordered: seq<real>, index: real): real
    requires |ordered| > 0 && 0.0 <= index <= (|ordered| - 1) as real
  {
    var lower, upper := index.Floor, Ceiling(index);
    if lower == upper then ordered[lower]
    else ordered[lower] + (ordered[upper] - ordered[lower]) * (index - lower as real)
  }

  function Portion(last: real, q: real): (x: real)
    requires last >= 0.0 && 0.0 <= q <= 1.0
    ensures 0.0 <= x <= last && (q == 0.0 ==> x == 0.0) && (q == 1.0 ==> x == last)
  {
    ProductMonotone(last, 0.0, q);
    ProductMonotone(last, q, 1.0);
    last * q
  }

  function Position(n: nat, q: real): (x: real)
    requires n > 0 && 0.0 <= q <= 1.0
    ensures 0.0 <= x <= (n - 1) as real
    ensures (q == 0.0 ==> x == 0.0) && (q == 1.0 ==> x == (n - 1) as real)
  {
    Portion((n - 1) as real, q)
  }

  lemma PortionMonotone(last: real, q: real, r: real)
    requires last >= 0.0 && 0.0 <= q <= r <= 1.0
    ensures Portion(last, q) <= Portion(last, r)
  {
    ProductMonotone(last, q, r);
  }

  function Quantile(values: seq<real>, q: real): real
    requires 0.0 <= q <= 1.0
  {
    if |values| == 0 then 0.0 else At(Sorted(values), Position(|values|, q))
  }

  // The order in which values were recorded does not matter.
  lemma QuantilePermutes(a: seq<real>, b: seq<real>, q: real)
    requires multiset(a) == multiset(b) && 0.0 <= q <= 1.0
    ensures Quantile(a, q) == Quantile(b, q)
  {
    SortedOrdered(a);
    SortedOrdered(b);
    OrderedUnique(Sorted(a), Sorted(b));
    assert |a| == |b|;
  }

  // A point of a segment lies between its ends, further along is further up.
  lemma Between(low: real, high: real, t: real, u: real)
    requires low <= high && 0.0 <= t <= u <= 1.0
    ensures low <= low + (high - low) * t <= low + (high - low) * u <= high
  {
  }

  lemma AtBetween(ordered: seq<real>, x: real)
    requires Ordered(ordered) && |ordered| > 0 && 0.0 <= x <= (|ordered| - 1) as real
    ensures ordered[x.Floor] <= At(ordered, x) <= ordered[Ceiling(x)]
  {
    var lower := x.Floor;
    if lower != Ceiling(x) {
      Between(ordered[lower], ordered[lower + 1], x - lower as real, 1.0);
    }
  }

  lemma AtMonotone(ordered: seq<real>, x: real, y: real)
    requires Ordered(ordered) && |ordered| > 0 && 0.0 <= x <= y <= (|ordered| - 1) as real
    ensures At(ordered, x) <= At(ordered, y)
  {
    AtBetween(ordered, x);
    AtBetween(ordered, y);
    if x.Floor == y.Floor {
      if x.Floor as real != y {
        Between(ordered[x.Floor], ordered[x.Floor + 1], x - x.Floor as real, y - x.Floor as real);
      }
    } else {
      assert Ceiling(x) <= y.Floor;
    }
  }

  // Quantiles never cross: a larger q never gives a smaller value.
  lemma QuantileMonotone(values: seq<real>, q: real, r: real)
    requires 0.0 <= q <= r <= 1.0
    ensures Quantile(values, q) <= Quantile(values, r)
  {
    if |values| > 0 {
      PortionMonotone((|values| - 1) as real, q, r);
      SortedOrdered(values);
      AtMonotone(Sorted(values), Position(|values|, q), Position(|values|, r));
    }
  }

  // Every quantile lies between the least and the greatest value, which are the extreme ones.
  lemma QuantileRange(values: seq<real>, q: real, i: nat)
    requires 0.0 <= q <= 1.0 && i < |values|
    ensures Quantile(values, 0.0) <= values[i] <= Quantile(values, 1.0)
    ensures Quantile(values, 0.0) <= Quantile(values, q) <= Quantile(values, 1.0)
    ensures Quantile(values, 0.0) in values && Quantile(values, 1.0) in values
  {
    QuantileMonotone(values, 0.0, q);
    QuantileMonotone(values, q, 1.0);
    QuantileEnds(values);
    var s := Sorted(values);
    SortedOrdered(values);
    assert s[0] in multiset(s) && s[|s| - 1] in multiset(s) && values[i] in multiset(values);
    var k :| 0 <= k < |s| && s[k] == values[i];
  }

  lemma QuantileEnds(values: seq<real>)
    requires |values| > 0
    ensures Quantile(values, 0.0) == Sorted(values)[0]
    ensures Quantile(values, 1.0) == Sorted(values)[|values| - 1]
  {
  }

  // ----- ranks

  function CountIn(xs: seq<real>, p: real -> bool): nat {
    if |xs| == 0 then 0 else CountIn(xs[1..], p) + (if p(xs[0]) then 1 else 0)
  }

  function Below(x: real): real -> bool {
    (y: real) => y < x
  }

  function UpTo(x: real): real -> bool {
    (y: real) => y <= x
  }

  // The value that k others come before in order: no more than k are less, and more than k are
  // no greater.
  ghost predicate Ranks(values: seq<real>, k: nat, x: real) {
    x in values && CountIn(values, Below(x)) <= k < CountIn(values, UpTo(x))
  }

  lemma {:induction false} InsertCount(x: real, sorted: seq<real>, p: real -> bool)
    ensures CountIn(Insert(x, sorted), p) == CountIn(sorted, p) + (if p(x) then 1 else 0)
  {
    if |sorted| > 0 && sorted[0] < x {
      InsertCount(x, sorted[1..], p);
      assert Insert(x, sorted)[1..] == Insert(x, sorted[1..]);
    } else {
      assert Insert(x, sorted)[1..] == sorted;
    }
  }

  lemma {:induction false} SortedCount(xs: seq<real>, p: real -> bool)
    ensures CountIn(Sorted(xs), p) == CountIn(xs, p)
  {
    if |xs| > 0 {
      SortedCount(xs[1..], p);
      InsertCount(xs[0], Sorted(xs[1..]), p);
    }
  }

  lemma {:induction false} CountFirst(xs: seq<real>, n: nat, p: real -> bool)
    requires n <= |xs|
    ensures (forall i :: 0 <= i < n ==> p(xs[i])) ==> CountIn(xs, p) >= n
    ensures (forall i :: n <= i < |xs| ==> !p(xs[i])) ==> CountIn(xs, p) <= n
  {
    if |xs| > 0 {
      if n > 0 {
        CountFirst(xs[1..], n - 1, p);
      } else {
        CountFirst(xs[1..], 0, p);
      }
    }
  }

  lemma SortedRanks(values: seq<real>, k: nat)
    requires k < |values|
    ensures Ranks(values, k, Sorted(values)[k])
  {
    var s := Sorted(values);
    var x := s[k];
    SortedOrdered(values);
    SortedCount(values, Below(x));
    SortedCount(values, UpTo(x));
    CountFirst(s, k, Below(x));
    CountFirst(s, k + 1, UpTo(x));
    assert x in multiset(s);
  }

  // Values of one rank are equal.
  lemma {:induction false} CountsNest(values: seq<real>, x: real, y: real)
    requires x < y
    ensures CountIn(values, UpTo(x)) <= CountIn(values, Below(y))
  {
    if |values| > 0 {
      CountsNest(values[1..], x, y);
    }
  }

  lemma RankUnique(values: seq<real>, k: nat, x: real, y: real)
    requires Ranks(values, k, x) && Ranks(values, k, y)
    ensures x == y
  {
    if x < y {
      CountsNest(values, x, y);
    } else if y < x {
      CountsNest(values, y, x);
    }
  }

  lemma AtPosition(ordered: seq<real>, index: real, k: nat, t: real)
    requires |ordered| > 0 && 0.0 <= index <= (|ordered| - 1) as real && index == k as real + t && 0.0 <= t < 1.0
    ensures k < |ordered| && (t > 0.0 ==> k + 1 < |ordered|)
    ensures t == 0.0 ==> At(ordered, index) == ordered[k]
    ensures t > 0.0 ==> At(ordered, index) == ordered[k] + (ordered[k + 1] - ordered[k]) * t
  {
    assert index.Floor == k;
  }

  // Where q falls t of the way from the k-th value to the next, the quantile lies t of the way
  // between the two.
  lemma QuantileInterpolates(values: seq<real>, q: real, k: nat, t: real) returns (a: real, b: real)
    requires |values| > 0 && 0.0 <= q <= 1.0 && 0.0 <= t < 1.0 && (|values| - 1) as real * q == k as real + t
    ensures Ranks(values, k, a) && (t == 0.0 ==> Quantile(values, q) == a)
    ensures t > 0.0 ==> Ranks(values, k + 1, b) && Quantile(values, q) == a + (b - a) * t
  {
    var s := Sorted(values);
    PositionIs(|values|, q);
    AtPosition(s, Position(|values|, q), k, t);
    a, b := s[k], s[k];
    SortedRanks(values, k);
    if t > 0.0 {
      b := s[k + 1];
      SortedRanks(values, k + 1);
    }
  }

  lemma PositionIs(n: nat, q: real)
    requires n > 0 && 0.0 <= q <= 1.0
    ensures Position(n, q) == (n - 1) as real * q
  {
  }

  // ----- what the fairness index counts

  lemma {:induction false} EqualSharesSum(values: seq<real>, x: real)
    requires forall i :: 0 <= i < |values| ==> values[i] == x || values[i] == 0.0
    requires x > 0.0
    ensures var k := CountIn(values, UpTo(0.0));
            k <= |values| && Sum(values) == Times(|values| - k, x) && SumSquares(values) == Times(|values| - k, Square(x))
  {
    if |values| > 0 {
      var rest, n := values[1..], |values|;
      EqualSharesSum(rest, x);
      SumFront(values);
    }
  }

  lemma {:induction false} SumFront(values: seq<real>)
    requires |values| > 0
    ensures Sum(values) == values[0] + Sum(values[1..])
    ensures SumSquares(values) == Square(values[0]) + SumSquares(values[1..])
  {
    if |values| > 1 {
      SumFront(values[..|values| - 1]);
      assert values[..|values| - 1][1..] == values[1..][..|values| - 2];
    }
  }

  // Where some tenants get one share and the others nothing, it is the part that get it.
  lemma IndexCountsServed(values: seq<real>, x: real)
    requires x > 0.0 && forall i :: 0 <= i < |values| ==> values[i] == x || values[i] == 0.0
    requires exists i :: 0 <= i < |values| && values[i] == x
    ensures var k := |values| - CountIn(values, UpTo(0.0));
            0 < k <= |values| && Times(|values|, JainsIndex(values)) == k as real
  {
    EqualSharesSum(values, x);
    NotAllCount(values, UpTo(0.0));
    ServedIndex(|values|, |values| - CountIn(values, UpTo(0.0)), x, Sum(values), SumSquares(values), JainsIndex(values));
  }

  lemma ServedIndex(n: nat, k: nat, x: real, sum: real, squares: real, index: real)
    requires n >= k >= 1 && x > 0.0 && sum == Times(k, x) && squares == Times(k, Square(x))
    requires index == Ratio(n as real, Square(sum), squares)
    ensures Times(n, index) == k as real
  {
    TimesIsProduct(k, x);
    TimesIsProduct(k, Square(x));
    TimesIsProduct(n, index);
    ServedRatio(n as real, k as real, x, sum, squares, index);
  }

  lemma {:induction false} NotAllCount(xs: seq<real>, p: real -> bool)
    ensures CountIn(xs, p) <= |xs|
    ensures (exists i :: 0 <= i < |xs| && !p(xs[i])) ==> CountIn(xs, p) < |xs|
  {
    if |xs| > 0 {
      NotAllCount(xs[1..], p);
      if i :| 0 < i < |xs| && !p(xs[i]) {
        assert xs[1..][i - 1] == xs[i];
      }
    }
  }

  lemma ServedRatio(n: real, k: real, x: real, sum: real, squares: real, index: real)
    requires n >= k >= 1.0 && x > 0.0 && sum == k * x && squares == k * Square(x) && index == Ratio(n, Square(sum), squares)
    ensures index * n == k
  {
    ProductSign(x, x);
    ProductSign(k, Square(x));
    ProductSign(n, squares);
    assert Square(sum) == k * squares;
    var d := n * squares;
    assert k * squares / d * d == k * squares;
  }
}
