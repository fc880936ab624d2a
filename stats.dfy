/**
 * Sums, means and population variances as the tools compute them with
 * `reduce`: mean = Σv / N and variance = Σ(v − mean)² / N (divisor N, not N − 1).
 */
module Stats {

  /** Σ xs, folded from the left as `reduce((sum, v) => sum + v, 0)` does. */
  function Sum(xs: seq<real>): real {
    if xs == [] then 0.0 else Sum(xs[..|xs| - 1]) + xs[|xs| - 1]
  }

  /**
   * x · y. Squares are written as `Product(d, d)` and reasoned about through the
   * lemmas below, which keeps the solver's arithmetic on products of distinct terms.
   */
  function Product(a: real, b: real): real {
    a * b
  }

  lemma ProductPositive(a: real, b: real)
    requires (a > 0.0 && b > 0.0) || (a < 0.0 && b < 0.0)
    ensures Product(a, b) > 0.0
  {
    if a < 0.0 {
      assert (-a) * (-b) > 0.0;
    }
  }

  lemma ProductNonnegative(a: real, b: real)
    requires (a >= 0.0 && b >= 0.0) || (a <= 0.0 && b <= 0.0)
    ensures Product(a, b) >= 0.0
  {
    if a < 0.0 {
      assert (-a) * (-b) >= 0.0;
    }
  }

  /** A quotient of a value in [0, c·n] by n > 0 lies in [0, c]. */
  lemma QuotientBounds(t: real, n: real, c: real)
    requires n > 0.0 && 0.0 <= t <= c * n
    ensures 0.0 <= t / n <= c
  {
    var q := t / n;
    assert q * n == t;
  }

  /** Σ x² */
  function SumSquares(xs: seq<real>): real {
    if xs == [] then 0.0 else SumSquares(xs[..|xs| - 1]) + Product(xs[|xs| - 1], xs[|xs| - 1])
  }

  /** Σ f(x) for an arbitrary projection f. */
  function SumOf<T>(xs: seq<T>, f: T -> real): real {
    if xs == [] then 0.0 else SumOf(xs[..|xs| - 1], f) + f(xs[|xs| - 1])
  }

  function Mean(xs: seq<real>): (m: real)
    requires |xs| > 0
    ensures Product(m, |xs| as real) == Sum(xs)
  {
    Sum(xs) / |xs| as real
  }

  /** Σ (v − m)² */
  function SquaredDeviations(xs: seq<real>, m: real): (r: real)
    ensures r >= 0.0
  {
    if xs == [] then 0.0
    else
      var d := xs[|xs| - 1] - m;
      ProductNonnegative(d, d);
      SquaredDeviations(xs[..|xs| - 1], m) + Product(d, d)
  }

  /** Population variance. */
  function Variance(xs: seq<real>): (v: real)
    requires |xs| > 0
    ensures v >= 0.0
    ensures Product(v, |xs| as real) == SquaredDeviations(xs, Mean(xs))
  {
    SquaredDeviations(xs, Mean(xs)) / |xs| as real
  }

  /** Every sample equals the first. */
  predicate Constant(xs: seq<real>) {
    forall i :: 0 <= i < |xs| ==> xs[i] == xs[0]
  }

  /** One sample away from m is enough to make the squared deviations positive. */
  lemma {:induction false} DeviationPositive(xs: seq<real>, m: real, i: int)
    requires 0 <= i < |xs| && xs[i] != m
    ensures SquaredDeviations(xs, m) > 0.0
  {
    var init := xs[..|xs| - 1];
    var d := xs[|xs| - 1] - m;
    if i < |xs| - 1 {
      assert init[i] == xs[i];
      DeviationPositive(init, m, i);
      ProductNonnegative(d, d);
    } else {
      ProductPositive(d, d);
    }
  }

  lemma {:induction false} DeviationZero(xs: seq<real>, m: real)
    requires forall i :: 0 <= i < |xs| ==> xs[i] == m
    ensures SquaredDeviations(xs, m) == 0.0
  {
    if xs != [] {
      var init := xs[..|xs| - 1];
      assert forall i :: 0 <= i < |init| ==> init[i] == xs[i];
      DeviationZero(init, m);
    }
  }

  lemma SquaredDeviationsZeroIff(xs: seq<real>, m: real)
    ensures SquaredDeviations(xs, m) == 0.0 <==> forall i :: 0 <= i < |xs| ==> xs[i] == m
  {
    if forall i :: 0 <= i < |xs| ==> xs[i] == m {
      DeviationZero(xs, m);
    } else {
      var i :| 0 <= i < |xs| && xs[i] != m;
      DeviationPositive(xs, m, i);
    }
  }

  lemma {:induction false} SumOfConstant(xs: seq<real>, c: real)
    requires forall i :: 0 <= i < |xs| ==> xs[i] == c
    ensures Sum(xs) == Product(|xs| as real, c)
  {
    if xs != [] {
      var init := xs[..|xs| - 1];
      assert forall i :: 0 <= i < |init| ==> init[i] == xs[i];
      SumOfConstant(init, c);
    }
  }

  /** The mean of identical samples is that sample. */
  lemma MeanOfConstant(xs: seq<real>)
    requires |xs| > 0 && Constant(xs)
    ensures Mean(xs) == xs[0]
  {
    SumOfConstant(xs, xs[0]);
  }

  /** The variance is zero exactly when every sample is the same value. */
  lemma VarianceZeroIffConstant(xs: seq<real>)
    requires |xs| > 0
    ensures Variance(xs) == 0.0 <==> Constant(xs)
  {
    var m := Mean(xs);
    SquaredDeviationsZeroIff(xs, m);
    if Constant(xs) {
      MeanOfConstant(xs);
    }
    if Variance(xs) == 0.0 {
      assert SquaredDeviations(xs, m) == 0.0;
      assert forall i :: 0 <= i < |xs| ==> xs[i] == m;
    }
  }

  /** Σ(v − m)² = Σv² − 2mΣv + N·m² */
  lemma {:induction false} SquaredDeviationsExpand(xs: seq<real>, m: real)
    ensures SquaredDeviations(xs, m)
         == SumSquares(xs) - 2.0 * Product(m, Sum(xs)) + Product(|xs| as real, Product(m, m))
  {
    if xs != [] {
      var init := xs[..|xs| - 1];
      var x := xs[|xs| - 1];
      SquaredDeviationsExpand(init, m);
      ExpandStep(SquaredDeviations(init, m), SumSquares(init), Sum(init), |init| as real, x, m);
    }
  }

  lemma ExpandStep(sd: real, q: real, s: real, k: real, x: real, m: real)
    requires sd == q - 2.0 * Product(m, s) + Product(k, Product(m, m))
    ensures sd + Product(x - m, x - m)
         == (q + Product(x, x)) - 2.0 * Product(m, s + x) + Product(k + 1.0, Product(m, m))
  {
  }

  /** N·Σv² − (Σv)² = N²·variance, the identity behind least-squares denominators. */
  lemma SpreadIdentity(xs: seq<real>)
    requires |xs| > 0
    ensures Product(|xs| as real, SumSquares(xs)) - Product(Sum(xs), Sum(xs))
         == Product(|xs| as real, SquaredDeviations(xs, Mean(xs)))
  {
    var m := Mean(xs);
    SquaredDeviationsExpand(xs, m);
    SpreadStep(|xs| as real, Sum(xs), SumSquares(xs), SquaredDeviations(xs, m), m);
  }

  lemma SpreadStep(n: real, s: real, q: real, sd: real, m: real)
    requires Product(m, n) == s
    requires sd == q - 2.0 * Product(m, s) + Product(n, Product(m, m))
    ensures Product(n, sd) == Product(n, q) - Product(s, s)
  {
    var mn := Product(m, n);
    assert Product(n, sd) == n * q - 2.0 * n * m * s + n * n * m * m;
    assert n * n * m * m == mn * mn;
    assert n * m * s == mn * s;
  }

  /** N·Σv² − (Σv)² is never negative and is zero exactly when all samples agree. */
  lemma SpreadZeroIffConstant(xs: seq<real>)
    requires |xs| > 0
    ensures Product(|xs| as real, SumSquares(xs)) - Product(Sum(xs), Sum(xs)) >= 0.0
    ensures Product(|xs| as real, SumSquares(xs)) - Product(Sum(xs), Sum(xs)) == 0.0 <==> Constant(xs)
  {
    var m := Mean(xs);
    var sd := SquaredDeviations(xs, m);
    SpreadIdentity(xs);
    ProductNonnegative(|xs| as real, sd);
    VarianceZeroIffConstant(xs);
    assert Product(Variance(xs), |xs| as real) == sd;
    if sd != 0.0 {
      ProductPositive(|xs| as real, sd);
    }
  }

  lemma {:induction false} SumOfSplit<T>(xs: seq<T>, ys: seq<T>, f: T -> real)
    ensures SumOf(xs + ys, f) == SumOf(xs, f) + SumOf(ys, f)
    decreases |ys|
  {
    if ys != [] {
      var ys' := ys[..|ys| - 1];
      assert (xs + ys)[..|xs + ys| - 1] == xs + ys';
      SumOfSplit(xs, ys', f);
    } else {
      assert xs + ys == xs;
    }
  }

  /** Taking one summand out of the middle. */
  lemma SumOfRemove<T>(ys: seq<T>, j: int, f: T -> real)
    requires 0 <= j < |ys|
    ensures SumOf(ys, f) == SumOf(ys[..j] + ys[j + 1..], f) + f(ys[j])
  {
    var a, x, b := ys[..j], [ys[j]], ys[j + 1..];
    assert ys == a + (x + b);
    assert SumOf(ys, f) == SumOf(a, f) + SumOf(x + b, f) by {
      SumOfSplit(a, x + b, f);
    }
    assert SumOf(x + b, f) == SumOf(x, f) + SumOf(b, f) by {
      SumOfSplit(x, b, f);
    }
    assert SumOf(a + b, f) == SumOf(a, f) + SumOf(b, f) by {
      SumOfSplit(a, b, f);
    }
    assert SumOf(x, f) == f(ys[j]) by {
      assert x[..0] == [];
    }
  }

  /** Removing one occurrence of x from two sequences with equal multisets leaves equal multisets. */
  lemma MultisetRemove<T>(xs: seq<T>, ys: seq<T>, j: int)
    requires |xs| > 0 && 0 <= j < |ys| && ys[j] == xs[|xs| - 1]
    requires multiset(xs) == multiset(ys)
    ensures multiset(xs[..|xs| - 1]) == multiset(ys[..j] + ys[j + 1..])
  {
    var x := xs[|xs| - 1];
    var init, rest := xs[..|xs| - 1], ys[..j] + ys[j + 1..];
    assert xs == init + [x];
    assert ys == ys[..j] + [x] + ys[j + 1..];
    assert multiset(init) + multiset{x} == multiset(rest) + multiset{x};
    assert multiset(init) == (multiset(init) + multiset{x}) - multiset{x};
    assert multiset(rest) == (multiset(rest) + multiset{x}) - multiset{x};
  }

  /** Sums do not depend on the order of the summands. */
  lemma {:induction false} SumOfPermutation<T>(xs: seq<T>, ys: seq<T>, f: T -> real)
    requires multiset(xs) == multiset(ys)
    ensures SumOf(xs, f) == SumOf(ys, f)
    decreases |xs|
  {
    if xs != [] {
      var x := xs[|xs| - 1];
      assert x in multiset(ys) by {
        assert x in multiset(xs);
      }
      var j :| 0 <= j < |ys| && ys[j] == x;
      MultisetRemove(xs, ys, j);
      SumOfPermutation(xs[..|xs| - 1], ys[..j] + ys[j + 1..], f);
      SumOfRemove(ys, j, f);
    } else {
      assert |ys| == |multiset(ys)| == 0;
    }
  }
}
