/**
 The pass@k estimator of scbench/repo_qa_utils.py over the reals: the product it multiplies out is the
 ratio of binomial coefficients its documentation states.
 */
module PassAtK {

  /** C(n, k), by Pascal's rule. */
  ghost function Choose(n: nat, k: nat): nat {
    if k == 0 then 1 else if n == 0 then 0 else Choose(n - 1, k - 1) + Choose(n - 1, k)
  }

  /** `1.0 - k / np.arange(n - c + 1, n + 1)`, element by element. */
  function Factors(n: nat, c: nat, k: nat): (r: seq<real>)
    requires c <= n
    ensures |r| == c
  {
    seq(c, j requires 0 <= j < c => 1.0 - k as real / (n - c + 1 + j) as real)
  }

  /** `np.prod` */
  function Prod(xs: seq<real>): real {
    if xs == [] then 1.0 else Prod(xs[..|xs| - 1]) * xs[|xs| - 1]
  }

  /** The estimator for `n` samples of which `c` are correct. */
  function Estimate(n: nat, c: nat, k: nat): real
    requires c <= n
  {
    if n - c < k then 1.0 else 1.0 - Prod(Factors(n, c, k))
  }

  // ----- binomial coefficients

  lemma {:induction false} Absorb(n: nat, k: nat)
    requires n >= 1 && k >= 1
    ensures k * Choose(n, k) == n * Choose(n - 1, k - 1)
    decreases n
  {
    if n == 1 {
      assert Choose(0, k - 1) == if k == 1 then 1 else 0;
      assert Choose(1, k) == Choose(0, k - 1) + Choose(0, k);
    } else {
      Absorb(n - 1, k);
      var a, b := Choose(n - 1, k - 1), Choose(n - 1, k);
      if k == 1 {
        assert a == 1;
      } else {
        Absorb(n - 1, k - 1);
        assert a == Choose(n - 2, k - 2) + Choose(n - 2, k - 1);
        Expand(n, k, a, b, Choose(n - 2, k - 2), Choose(n - 2, k - 1));
      }
    }
  }

  lemma Expand(n: int, k: int, a: int, b: int, x: int, y: int)
    requires k * b == (n - 1) * y && (k - 1) * a == (n - 1) * x && a == x + y
    ensures k * (a + b) == n * a
  {
    assert k * (a + b) == (k - 1) * a + a + k * b;
    assert (n - 1) * x + (n - 1) * y == (n - 1) * a;
  }

  /** Dropping one element: n C(n-1, k) = (n - k) C(n, k). */
  lemma DropOne(n: nat, k: nat)
    requires 1 <= n && k <= n
    ensures n * Choose(n - 1, k) == (n - k) * Choose(n, k)
  {
    if k >= 1 {
      Absorb(n, k);
      assert Choose(n, k) == Choose(n - 1, k - 1) + Choose(n - 1, k);
      var a, b := Choose(n - 1, k - 1), Choose(n - 1, k);
      assert (n - k) * (a + b) == n * a + n * b - k * (a + b);
    }
  }

  lemma {:induction false} ChooseZero(n: nat, k: nat)
    ensures Choose(n, k) == 0 <==> n < k
  {
    if k > 0 && n > 0 {
      ChooseZero(n - 1, k - 1);
      ChooseZero(n - 1, k);
    }
  }

  lemma {:induction false} ChooseMonotone(m: nat, n: nat, k: nat)
    requires m <= n
    ensures Choose(m, k) <= Choose(n, k)
    decreases n
  {
    if m < n && k > 0 {
      ChooseMonotone(m, n - 1, k);
    }
  }

  // ----- the product

  lemma Cancel(n: real, x: real, y: real)
    requires n > 0.0 && n * x == n * y
    ensures x == y
  {
    assert n * (x - y) == 0.0;
  }

  lemma CastProduct(x: int, y: int)
    ensures (x * y) as real == x as real * y as real
  {
  }

  lemma FactorTimes(n: real, k: real, f: real)
    requires n > 0.0 && f == 1.0 - k / n
    ensures f * n == n - k
  {
    var q := k / n;
    assert q * n == k;
    assert f * n == n - q * n;
  }

  lemma Scale(n: real, m: real, f: real, c: real, d: real)
    requires n > 0.0 && f * n == m && n * d == m * c
    ensures f * c == d
  {
    assert n * (f * c) == (f * n) * c;
    Cancel(n, f * c, d);
  }

  lemma DropOneReal(n: nat, k: nat)
    requires 1 <= n && k <= n
    ensures n as real * Choose(n - 1, k) as real == (n as real - k as real) * Choose(n, k) as real
  {
    DropOne(n, k);
    CastProduct(n, Choose(n - 1, k));
    CastProduct(n - k, Choose(n, k));
  }

  /** One factor takes C(n, k) to C(n-1, k). */
  lemma OneFactor(n: nat, k: nat, f: real)
    requires 1 <= n && k <= n && f == 1.0 - k as real / n as real
    ensures f * Choose(n, k) as real == Choose(n - 1, k) as real
  {
    DropOneReal(n, k);
    FactorTimes(n as real, k as real, f);
    Scale(n as real, n as real - k as real, f, Choose(n, k) as real, Choose(n - 1, k) as real);
  }

  /** Mentioned where a product is computed; elsewhere the verifier need not multiply. */
  ghost predicate Multiply(key: int) { true }

  /** a * b == c */
  ghost predicate Times(a: real, b: real, c: real) {
    forall key :: Multiply(key) ==> a * b == c
  }

  lemma TimesProduct(a: real, b: real, c: real)
    ensures Times(a, b, c) <==> a * b == c
  {
    assert Multiply(0);
  }

  lemma Chain(p: real, f: real, pf: real, c: real, d: real, e: real)
    requires Times(f, c, d) && Times(p, d, e) && Times(p, f, pf)
    ensures Times(pf, c, e)
  {
    TimesProduct(f, c, d);
    TimesProduct(p, d, e);
    TimesProduct(p, f, pf);
    TimesProduct(pf, c, e);
    assert (p * f) * c == p * (f * c);
  }

  lemma FactorStep(n: nat, c: nat, k: nat, j: nat)
    requires c <= n && k <= n - c && j < c
    ensures Times(Factors(n, c, k)[j], Choose(n - c + 1 + j, k) as real, Choose(n - c + j, k) as real)
  {
    TimesProduct(Factors(n, c, k)[j], Choose(n - c + 1 + j, k) as real, Choose(n - c + j, k) as real);
    OneFactor(n - c + 1 + j, k, Factors(n, c, k)[j]);
  }

  lemma ProdSnoc(xs: seq<real>, m: nat)
    requires m < |xs|
    ensures Times(Prod(xs[..m]), xs[m], Prod(xs[..m + 1]))
  {
    TimesProduct(Prod(xs[..m]), xs[m], Prod(xs[..m + 1]));
    assert xs[..m + 1][..m] == xs[..m];
  }

  /** The factors telescope: the first m of them take C(n-c+m, k) to C(n-c, k). */
  lemma {:induction false} Telescope(n: nat, c: nat, k: nat, m: nat)
    requires c <= n && k <= n - c && m <= c
    ensures Times(Prod(Factors(n, c, k)[..m]), Choose(n - c + m, k) as real, Choose(n - c, k) as real)
    decreases m
  {
    var fs := Factors(n, c, k);
    if m > 0 {
      Telescope(n, c, k, m - 1);
      FactorStep(n, c, k, m - 1);
      ProdSnoc(fs, m - 1);
      Chain(Prod(fs[..m - 1]), fs[m - 1], Prod(fs[..m]),
            Choose(n - c + m, k) as real, Choose(n - c + m - 1, k) as real, Choose(n - c, k) as real);
    } else {
      TimesProduct(1.0, Choose(n - c, k) as real, Choose(n - c, k) as real);
    }
  }

  lemma Quotient(p: real, total: real, x: real)
    requires total > 0.0 && Times(p, total, x)
    ensures p == x / total
  {
    TimesProduct(p, total, x);
    Cancel(total, p, x / total);
  }

  lemma ProductIsRatio(n: nat, c: nat, k: nat)
    requires c <= n && k <= n - c
    ensures Choose(n, k) > 0
    ensures Prod(Factors(n, c, k)) == Choose(n - c, k) as real / Choose(n, k) as real
  {
    ChooseZero(n, k);
    Telescope(n, c, k, c);
    assert Factors(n, c, k)[..c] == Factors(n, c, k);
    Quotient(Prod(Factors(n, c, k)), Choose(n, k) as real, Choose(n - c, k) as real);
  }

  /** The documented value, in both branches: 1 - C(n-c, k) / C(n, k). */
  lemma EstimateIsBinomialRatio(n: nat, c: nat, k: nat)
    requires c <= n && k <= n
    ensures Choose(n, k) > 0
    ensures Estimate(n, c, k) == 1.0 - Choose(n - c, k) as real / Choose(n, k) as real
  {
    if n - c >= k {
      ProductIsRatio(n, c, k);
    } else {
      ChooseZero(n, k);
      ChooseZero(n - c, k);
      TimesProduct(0.0, Choose(n, k) as real, 0.0);
      Quotient(0.0, Choose(n, k) as real, 0.0);
    }
  }

  lemma RatioOrder(x: nat, y: nat, total: nat)
    requires total > 0 && x <= y
    ensures x as real / total as real <= y as real / total as real
    ensures x < y ==> x as real / total as real < y as real / total as real
  {
  }

  /** A probability, 0 when nothing is correct (and there are k samples at all) and 1 exactly when any k samples must contain a correct one. */
  lemma EstimateRange(n: nat, c: nat, k: nat)
    requires c <= n
    ensures 0.0 <= Estimate(n, c, k) <= 1.0
    ensures Estimate(n, 0, k) == if k <= n then 0.0 else 1.0
    ensures Estimate(n, c, k) == 1.0 <==> n - c < k
  {
    if k > n {
      return;
    }
    EstimateIsBinomialRatio(n, c, k);
    EstimateIsBinomialRatio(n, 0, k);
    ChooseMonotone(n - c, n, k);
    ChooseZero(n - c, k);
    RatioOrder(Choose(n - c, k), Choose(n, k), Choose(n, k));
    RatioOrder(0, Choose(n - c, k), Choose(n, k));
    assert Choose(n, k) as real / Choose(n, k) as real == 1.0;
  }

  /** More correct samples never lower the estimate. */
  lemma EstimateMonotone(n: nat, c: nat, d: nat, k: nat)
    requires c <= d <= n
    ensures Estimate(n, c, k) <= Estimate(n, d, k)
  {
    if k > n {
      return;
    }
    EstimateIsBinomialRatio(n, c, k);
    EstimateIsBinomialRatio(n, d, k);
    ChooseMonotone(n - d, n - c, k);
    RatioOrder(Choose(n - d, k), Choose(n - c, k), Choose(n, k));
  }
}
