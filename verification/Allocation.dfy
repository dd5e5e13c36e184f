/** Capital allocation from daily P&L series: shared/mezna_shared/allocation.py.
    Standard deviations enter as numbers whose squares are the sample variances. */
module Allocation {
  import opened Options
  import opened Decimals
  import opened Sums
  import opened GaussJordan

  // ---- Covariance -----------------------------------------------------------------

  function Mean(n: nat, x: Vector): real
    requires n > 0
  {
    Sum(n, Vec(x)) / n as real
  }

  /** Deviations from the mean of the first n values. */
  function Deviation(n: nat, x: Vector): int -> real
    requires n > 0
  {
    var m := Mean(n, x);
    i => At(x, i) - m
  }

  function CoMoment(n: nat, x: Vector, y: Vector): real
    requires n > 0
  {
    Sum(n, Times(Deviation(n, x), Deviation(n, y)))
  }

  function Cov(xs: Vector, ys: Vector): real {
    var n := if |xs| <= |ys| then |xs| else |ys|;
    if n < 2 then 0.0 else CoMoment(n, xs, ys) / (n - 1) as real
  }

  function CovMatrix(series: Matrix): (m: Matrix)
    ensures Rectangular(m, |series|, |series|)
  {
    seq(|series|, i requires 0 <= i < |series| =>
      seq(|series|, j requires 0 <= j < |series| => Cov(series[i], series[j])))
  }

  function RowDot(m: Matrix, v: Vector, i: int): real {
    Sum(|v|, Times(Slice(Mat(m), i), Vec(v)))
  }

  function MatVec(m: Matrix, v: Vector): (r: Vector)
    ensures |r| == |m|
    ensures forall i :: 0 <= i < |m| ==> r[i] == RowDot(m, v, i)
  {
    seq(|m|, i => RowDot(m, v, i))
  }

  function Quad(v: Vector, m: Matrix): real {
    Sum(|m|, Times(Vec(v), Vec(MatVec(m, v))))
  }

  /** Date-aligned series: all of length days. */
  ghost predicate Aligned(series: Matrix, days: nat) {
    days >= 2 && forall i :: 0 <= i < |series| ==> |series[i]| == days
  }

  function Day(series: Matrix, t: int): int -> real {
    i => Entry(series, i, t)
  }

  /** The P&L of holding w of each of the first k series. */
  function Portfolio(w: Vector, series: Matrix, days: nat, k: nat): (p: Vector)
    ensures |p| == days
  {
    seq(days, t => Sum(k, Times(Vec(w), Day(series, t))))
  }

  ghost predicate Axpy(z: Vector, x: Vector, c: real, y: Vector) {
    |z| == |x| == |y| && forall t :: 0 <= t < |z| ==> z[t] == x[t] + c * y[t]
  }

  lemma SumVecAxpy(n: nat, z: Vector, x: Vector, c: real, y: Vector)
    requires |z| == n && Axpy(z, x, c, y)
    ensures Sum(n, Vec(z)) == Sum(n, Vec(x)) + c * Sum(n, Vec(y))
  {
    SumAxpy(n, Vec(z), Vec(x), c, Vec(y));
  }

  lemma MeanAxpy(n: nat, z: Vector, x: Vector, c: real, y: Vector)
    requires n > 0 && |z| == n && Axpy(z, x, c, y)
    ensures Mean(n, z) == Mean(n, x) + c * Mean(n, y)
  {
    hide Sum, Vec, Axpy;
    SumVecAxpy(n, z, x, c, y);
    Divides(Sum(n, Vec(z)), Sum(n, Vec(x)), c, Sum(n, Vec(y)), n as real);
  }

  lemma Divides(z: real, x: real, c: real, y: real, n: real)
    requires n != 0.0 && z == x + c * y
    ensures z / n == x / n + c * (y / n)
  {
  }

  lemma DeviationAxpy(n: nat, z: Vector, x: Vector, c: real, y: Vector)
    requires n > 0 && |z| == n && Axpy(z, x, c, y)
    ensures forall t :: 0 <= t < n ==> Deviation(n, z)(t) == Deviation(n, x)(t) + c * Deviation(n, y)(t)
  {
    MeanAxpy(n, z, x, c, y);
    hide Mean;
    forall t | 0 <= t < n ensures Deviation(n, z)(t) == Deviation(n, x)(t) + c * Deviation(n, y)(t) {
      assert z[t] == x[t] + c * y[t];
      Difference(y[t], Mean(n, y), c);
    }
  }

  lemma Difference(y: real, m: real, c: real)
    ensures c * (y - m) == c * y - c * m
  {
  }

  /** Covariance is linear in its first argument. */
  lemma CovAxpy(z: Vector, x: Vector, c: real, s: Vector, y: Vector)
    requires |z| == |y| >= 2 && Axpy(z, x, c, s)
    ensures Cov(z, y) == Cov(x, y) + c * Cov(s, y)
  {
    hide Deviation;
    var n := |z|;
    DeviationAxpy(n, z, x, c, s);
    LinearTimes(n, Deviation(n, z), Deviation(n, x), c, Deviation(n, s), Deviation(n, y));
    Divides(CoMoment(n, z, y), CoMoment(n, x, y), c, CoMoment(n, s, y), (n - 1) as real);
  }

  lemma CovSymmetric(x: Vector, y: Vector)
    ensures Cov(x, y) == Cov(y, x)
  {
    var n := if |x| <= |y| then |x| else |y|;
    if n >= 2 {
      hide Deviation;
      SumEqual(n, Times(Deviation(n, x), Deviation(n, y)), Times(Deviation(n, y), Deviation(n, x)));
    }
  }

  lemma CovSelfNonnegative(x: Vector)
    ensures Cov(x, x) >= 0.0
  {
    if |x| >= 2 {
      var d := Deviation(|x|, x);
      forall i | 0 <= i < |x| ensures Times(d, d)(i) >= 0.0 {
        SquareNonnegative(d(i));
      }
      SumNonnegative(|x|, Times(d, d));
    }
  }

  lemma SquareNonnegative(x: real)
    ensures x * x >= 0.0
  {
  }

  lemma SumShifted(n: nat, h: int -> real, f: int -> real, c: real)
    requires forall i :: 0 <= i < n ==> h(i) == f(i) - c
    ensures Sum(n, h) == Sum(n, f) - n as real * c
  {
    var one := (i: int) => 1.0;
    SumConstant(n, one, 1.0);
    SumAxpy(n, h, f, -c, one);
  }

  lemma MeanTimesSize(n: nat, x: Vector)
    requires n > 0
    ensures n as real * Mean(n, x) == Sum(n, Vec(x))
  {
  }

  lemma DeviationsCancel(n: nat, y: Vector)
    requires n > 0
    ensures Sum(n, Deviation(n, y)) == 0.0
  {
    SumShifted(n, Deviation(n, y), Vec(y), Mean(n, y));
    MeanTimesSize(n, y);
  }

  /** The products of the values of x with the deviations of y. */
  function HalfMoment(n: nat, x: Vector, y: Vector): int -> real
    requires n > 0
  {
    Times(Vec(x), Deviation(n, y))
  }

  lemma CoMomentIsHalf(n: nat, x: Vector, y: Vector)
    requires n > 0
    ensures CoMoment(n, x, y) == Sum(n, HalfMoment(n, x, y))
  {
    var mx := Mean(n, x);
    forall i | 0 <= i < n ensures Times(Deviation(n, x), Deviation(n, y))(i) == HalfMoment(n, x, y)(i) + -mx * Deviation(n, y)(i) {
      ExpandProduct(At(x, i), mx, Deviation(n, y)(i));
    }
    SumAxpy(n, Times(Deviation(n, x), Deviation(n, y)), HalfMoment(n, x, y), -mx, Deviation(n, y));
    DeviationsCancel(n, y);
  }

  lemma HalfMomentSum(n: nat, x: Vector, y: Vector)
    requires n > 0
    ensures Sum(n, HalfMoment(n, x, y)) == Sum(n, Times(Vec(x), Vec(y))) + -Mean(n, y) * Sum(n, Vec(x))
  {
    hide Sum, Mean, HalfMoment;
    forall i | 0 <= i < n ensures HalfMoment(n, x, y)(i) == Times(Vec(x), Vec(y))(i) + -Mean(n, y) * Vec(x)(i) {
      HalfMomentAt(n, x, y, i);
    }
    SumAxpy(n, HalfMoment(n, x, y), Times(Vec(x), Vec(y)), -Mean(n, y), Vec(x));
  }

  lemma HalfMomentAt(n: nat, x: Vector, y: Vector, i: nat)
    requires i < n
    ensures HalfMoment(n, x, y)(i) == Times(Vec(x), Vec(y))(i) + -Mean(n, y) * Vec(x)(i)
  {
    ExpandProduct(At(y, i), Mean(n, y), At(x, i));
    hide Mean;
  }

  /** n - 1 times the covariance is the sum of products less n times the product of the means. */
  lemma CovIsMoment(x: Vector, y: Vector)
    requires |x| == |y| >= 2
    ensures (|x| - 1) as real * Cov(x, y) == Sum(|x|, Times(Vec(x), Vec(y))) - |x| as real * (Mean(|x|, x) * Mean(|x|, y))
  {
    hide Sum, Mean, Deviation, Times, CoMoment, HalfMoment, Vec;
    var n := |x|;
    CoMomentIsHalf(n, x, y);
    HalfMomentSum(n, x, y);
    MeanTimesSize(n, x);
    MomentAlgebra(n, Cov(x, y), CoMoment(n, x, y), Sum(n, Times(Vec(x), Vec(y))), Mean(n, x), Mean(n, y), Sum(n, Vec(x)));
  }

  lemma MomentAlgebra(n: nat, cov: real, moment: real, products: real, mx: real, my: real, sum: real)
    requires n >= 2 && cov == moment / (n - 1) as real && moment == products + -my * sum && n as real * mx == sum
    ensures (n - 1) as real * cov == products - n as real * (mx * my)
  {
    ScaledMoment(moment, n);
    MeansProduct(n as real, mx, my, sum);
  }

  lemma ExpandProduct(x: real, m: real, d: real)
    ensures (x - m) * d == x * d + -m * d && d * (x - m) == x * d + -m * d
  {
  }

  lemma ScaledMoment(moment: real, n: nat)
    requires n >= 2
    ensures (n - 1) as real * (moment / (n - 1) as real) == moment
  {
  }

  lemma MeansProduct(n: real, mx: real, my: real, sum: real)
    requires n * mx == sum
    ensures -my * sum == -(n * (mx * my))
  {
  }

  lemma CovMatrixSymmetric(series: Matrix)
    ensures Symmetric(|series|, Mat(CovMatrix(series)))
  {
    hide Cov;
    forall i, j | 0 <= i < |series| && 0 <= j < |series|
      ensures Mat(CovMatrix(series))(i, j) == Mat(CovMatrix(series))(j, i)
    {
      CovSymmetric(series[i], series[j]);
    }
  }

  function CovWith(series: Matrix, y: Vector): int -> real {
    i => if 0 <= i < |series| then Cov(series[i], y) else 0.0
  }

  lemma CovOfZero(z: Vector, y: Vector)
    requires |z| == |y| >= 2 && forall t :: 0 <= t < |z| ==> z[t] == 0.0
    ensures Cov(z, y) == 0.0
  {
    CovAxpy(z, z, 1.0, z, y);
  }

  /** The covariance of a portfolio with y is the weighted sum of covariances. */
  lemma {:induction false} CovOfPortfolio(w: Vector, series: Matrix, days: nat, k: nat, y: Vector)
    requires Aligned(series, days) && |y| == days && k <= |series|
    ensures Cov(Portfolio(w, series, days, k), y) == Sum(k, Times(Vec(w), CovWith(series, y)))
  {
    hide Cov;
    if k == 0 {
      CovOfZero(Portfolio(w, series, days, 0), y);
    } else {
      CovOfPortfolio(w, series, days, k - 1, y);
      CovAxpy(Portfolio(w, series, days, k), Portfolio(w, series, days, k - 1), At(w, k - 1), series[k - 1], y);
    }
  }

  function Whole(w: Vector, series: Matrix, days: nat): Vector {
    Portfolio(w, series, days, |series|)
  }

  lemma CovRow(v: Vector, series: Matrix, days: nat, i: nat)
    requires Aligned(series, days) && i < |series| == |v|
    ensures MatVec(CovMatrix(series), v)[i] == Cov(series[i], Whole(v, series, days))
  {
    hide Cov, Portfolio;
    var n := |series|;
    CovOfPortfolio(v, series, days, n, series[i]);
    CovSymmetric(series[i], Whole(v, series, days));
    forall j | 0 <= j < n ensures Slice(Mat(CovMatrix(series)), i)(j) == CovWith(series, series[i])(j) {
      CovSymmetric(series[i], series[j]);
    }
    SameWeights(n, Slice(Mat(CovMatrix(series)), i), CovWith(series, series[i]), Vec(v));
    TimesCommutes(n, CovWith(series, series[i]), Vec(v));
    assert RowDot(CovMatrix(series), v, i) == Sum(n, Times(Slice(Mat(CovMatrix(series)), i), Vec(v)));
  }

  /** u' S v is the covariance of the two portfolios. */
  lemma BilinearForm(u: Vector, v: Vector, series: Matrix, days: nat)
    requires Aligned(series, days) && |u| == |v| == |series|
    ensures Sum(|series|, Times(Vec(u), Vec(MatVec(CovMatrix(series), v)))) == Cov(Whole(u, series, days), Whole(v, series, days))
  {
    hide Cov, Portfolio, MatVec, CovMatrix;
    var n := |series|;
    CovOfPortfolio(u, series, days, n, Whole(v, series, days));
    forall i | 0 <= i < n
      ensures Vec(MatVec(CovMatrix(series), v))(i) == CovWith(series, Whole(v, series, days))(i)
    {
      CovRow(v, series, days, i);
    }
    SameValues(n, Vec(u), Vec(MatVec(CovMatrix(series), v)), CovWith(series, Whole(v, series, days)));
  }

  /** The quadratic form of the covariance matrix is the sample variance of the combined
      series, and so never negative. */
  lemma PortfolioVariance(w: Vector, series: Matrix, days: nat)
    requires Aligned(series, days) && |w| == |series|
    ensures Quad(w, CovMatrix(series)) == Cov(Whole(w, series, days), Whole(w, series, days)) >= 0.0
  {
    hide Cov, Portfolio;
    BilinearForm(w, w, series, days);
    CovSelfNonnegative(Whole(w, series, days));
  }

  // ---- The tangency portfolio -------------------------------------------------------

  lemma CovExpands(x: Vector, y: Vector, c: real)
    requires |x| == |y| >= 2
    ensures Cov(x, x) + 2.0 * (c * Cov(x, y)) + c * (c * Cov(y, y)) >= 0.0
  {
    hide Cov;
    var z := seq(|x|, t requires 0 <= t < |x| => x[t] + c * y[t]);
    CovAxpy(z, x, c, y, z);
    CovSymmetric(x, z);
    CovSymmetric(y, z);
    CovAxpy(z, x, c, y, x);
    CovAxpy(z, x, c, y, y);
    CovSymmetric(y, x);
    CovSelfNonnegative(z);
    Regroup(Cov(x, x), Cov(x, y), Cov(y, y), c);
  }

  lemma Regroup(a: real, b: real, d: real, c: real)
    ensures (a + c * b) + c * (b + c * d) == a + 2.0 * (c * b) + c * (c * d)
  {
  }

  /** A quadratic that is not negative at its vertex. */
  lemma Discriminant(a: real, b: real, d: real)
    requires d > 0.0 && a + 2.0 * ((-b / d) * b) + (-b / d) * ((-b / d) * d) >= 0.0
    ensures b * b <= a * d
  {
  }

  /** A constant series covaries with nothing. */
  lemma ZeroVarianceNoCovariance(x: Vector, y: Vector)
    requires |x| == |y| >= 2 && Cov(y, y) == 0.0
    ensures Cov(x, y) == 0.0
  {
    var n, d := |y|, Deviation(|y|, y);
    forall i | 0 <= i < n ensures Times(d, d)(i) >= 0.0 {
      SquareNonnegative(d(i));
    }
    SumNonnegative(n, Times(d, d));
    hide Deviation;
    assert Sum(n, Times(d, d)) == Cov(y, y) * (n - 1) as real;
    forall i | 0 <= i < n ensures Times(Deviation(n, x), d)(i) == 0.0 {
      assert Times(d, d)(i) == Square(d(i)) <= 0.0;
      ZeroSquare(d(i));
    }
    SumZero(n, Times(Deviation(n, x), d));
    assert CoMoment(n, x, y) == 0.0;
    assert Cov(x, y) == 0.0 / (n - 1) as real;
  }

  function Square(x: real): real {
    x * x
  }

  lemma PositiveProduct(x: real, y: real, p: real)
    requires x > 0.0 && y > 0.0 && p == x * y
    ensures p > 0.0
  {
  }

  lemma PositiveSquare(x: real)
    requires x > 0.0
    ensures Square(x) > 0.0
  {
    PositiveProduct(x, x, Square(x));
  }

  lemma SquareOfNegation(x: real, y: real)
    requires y == -x
    ensures Square(y) == Square(x)
  {
  }

  lemma SquarePositive(x: real)
    requires x != 0.0
    ensures Square(x) > 0.0
  {
    var y := if x > 0.0 then x else -x;
    hide Square;
    PositiveSquare(y);
    if x < 0.0 { SquareOfNegation(x, y); }
  }

  lemma ZeroSquare(x: real)
    requires Square(x) <= 0.0
    ensures x == 0.0
  {
    hide Square;
    if x != 0.0 { SquarePositive(x); }
  }

  /** Cauchy-Schwarz for sample covariance. */
  lemma CovCauchySchwarz(x: Vector, y: Vector)
    requires |x| == |y| >= 2
    ensures Cov(x, y) * Cov(x, y) <= Cov(x, x) * Cov(y, y)
  {
    hide Cov;
    var a, b, d := Cov(x, x), Cov(x, y), Cov(y, y);
    CovSelfNonnegative(y);
    if d > 0.0 {
      CovExpands(x, y, -b / d);
      Discriminant(a, b, d);
    } else {
      ZeroVarianceNoCovariance(x, y);
      assert b == 0.0 && d == 0.0;
      assert a * d == 0.0;
    }
  }

  function MeanVector(series: Matrix): (mu: Vector)
    ensures |mu| == |series|
  {
    seq(|series|, i requires 0 <= i < |series| => if series[i] == [] then 0.0 else Mean(|series[i]|, series[i]))
  }

  function ExpectedReturn(w: Vector, mu: Vector): real {
    Sum(|mu|, Times(Vec(w), Vec(mu)))
  }

  lemma MeanOfZero(n: nat, z: Vector)
    requires n > 0 && |z| == n && forall t :: 0 <= t < n ==> z[t] == 0.0
    ensures Mean(n, z) == 0.0
  {
    SumZero(n, Vec(z));
  }

  lemma {:induction false} MeanOfPortfolio(w: Vector, series: Matrix, days: nat, k: nat)
    requires Aligned(series, days) && k <= |series|
    ensures Mean(days, Portfolio(w, series, days, k)) == Sum(k, Times(Vec(w), Vec(MeanVector(series))))
  {
    hide Mean;
    if k == 0 {
      MeanOfZero(days, Portfolio(w, series, days, 0));
    } else {
      MeanOfPortfolio(w, series, days, k - 1);
      MeanAxpy(days, Portfolio(w, series, days, k), Portfolio(w, series, days, k - 1), At(w, k - 1), series[k - 1]);
    }
  }

  /** The expected return of a portfolio is the mean of the combined series. */
  lemma ExpectedReturnIsMean(w: Vector, series: Matrix, days: nat)
    requires Aligned(series, days) && |w| == |series|
    ensures ExpectedReturn(w, MeanVector(series)) == Mean(days, Whole(w, series, days))
  {
    hide Mean, Portfolio;
    MeanOfPortfolio(w, series, days, |series|);
  }

  /** S x == c mu */
  ghost predicate SolvesTangency(x: Vector, series: Matrix, mu: Vector, c: real) {
    |x| == |mu| == |series| && Scaled(MatVec(CovMatrix(series), x), c, mu)
  }

  ghost predicate Scaled(y: Vector, c: real, x: Vector) {
    |y| == |x| && forall i :: 0 <= i < |y| ==> y[i] == c * x[i]
  }

  lemma DotOfSolution(w: Vector, x: Vector, series: Matrix, mu: Vector, c: real)
    requires |w| == |series| && SolvesTangency(x, series, mu, c)
    ensures Sum(|series|, Times(Vec(w), Vec(MatVec(CovMatrix(series), x)))) == c * ExpectedReturn(w, mu)
  {
    hide *;
    SolutionSize(x, series, mu, c);
    SolutionScales(x, series, mu, c);
    ScaledDot(w, MatVec(CovMatrix(series), x), c, mu);
  }

  lemma ReturnIsCovariance(w: Vector, x: Vector, series: Matrix, days: nat, mu: Vector, c: real)
    requires Aligned(series, days) && |w| == |series| && SolvesTangency(x, series, mu, c)
    ensures c * ExpectedReturn(w, mu) == Cov(Whole(w, series, days), Whole(x, series, days))
  {
    hide *;
    SolutionSize(x, series, mu, c);
    DotOfSolution(w, x, series, mu, c);
    BilinearForm(w, x, series, days);
  }

  lemma SolutionScales(x: Vector, series: Matrix, mu: Vector, c: real)
    requires SolvesTangency(x, series, mu, c)
    ensures |x| == |mu| == |series| && Scaled(MatVec(CovMatrix(series), x), c, mu)
  {
  }

  lemma ScaledDot(w: Vector, y: Vector, c: real, mu: Vector)
    requires Scaled(y, c, mu)
    ensures Sum(|mu|, Times(Vec(w), Vec(y))) == c * ExpectedReturn(w, mu)
  {
    hide Sum, Times;
    forall i | 0 <= i < |mu| ensures Vec(y)(i) == c * Vec(mu)(i) {
      assert y[i] == c * mu[i];
    }
    ScaledValues(|mu|, Vec(w), Vec(y), c, Vec(mu));
  }

  lemma SharpeArithmetic(c: real, rw: real, rx: real, qw: real, qx: real)
    requires c > 0.0 && qx == c * rx && qx >= 0.0 && (c * rw) * (c * rw) <= qw * qx
    ensures rw * rw * qx <= qw * (rx * rx)
  {
  }

  /** Weights proportional to a solution of S x == mu have the greatest squared Sharpe
      ratio of all portfolios, long or short. */
  lemma TangencyMaximizesSharpe(x: Vector, w: Vector, series: Matrix, days: nat, mu: Vector, c: real)
    requires Aligned(series, days) && |w| == |series| && c > 0.0 && SolvesTangency(x, series, mu, c)
    ensures var s := CovMatrix(series);
            ExpectedReturn(w, mu) * ExpectedReturn(w, mu) * Quad(x, s)
            <= Quad(w, s) * (ExpectedReturn(x, mu) * ExpectedReturn(x, mu))
  {
    hide Cov, Portfolio, CovMatrix, MatVec, ExpectedReturn, Quad, SolvesTangency;
    assert |x| == |series| by { SolutionSize(x, series, mu, c); }
    PortfolioVariance(w, series, days);
    PortfolioVariance(x, series, days);
    ReturnIsCovariance(w, x, series, days, mu, c);
    ReturnIsCovariance(x, x, series, days, mu, c);
    CovCauchySchwarz(Whole(w, series, days), Whole(x, series, days));
    SharpeArithmetic(c, ExpectedReturn(w, mu), ExpectedReturn(x, mu), Quad(w, CovMatrix(series)), Quad(x, CovMatrix(series)));
  }

  lemma SolutionSize(x: Vector, series: Matrix, mu: Vector, c: real)
    requires SolvesTangency(x, series, mu, c)
    ensures |x| == |mu| == |series|
  {
  }

  /** The inverse of the covariance matrix, times mu, solves S x == mu. */
  lemma InverseSolvesTangency(series: Matrix, b: Matrix, mu: Vector)
    requires Rectangular(b, |series|, |series|) && |mu| == |series|
    requires IsInverse(|series|, Mat(b), Mat(CovMatrix(series)))
    ensures SolvesTangency(MatVec(b, mu), series, mu, 1.0)
  {
    hide Cov, CovMatrix;
    var n, s, x := |series|, CovMatrix(series), MatVec(b, mu);
    CovMatrixSymmetric(series);
    SymmetricInverse(n, Mat(b), Mat(s));
    forall i | 0 <= i < n ensures MatVec(s, x)[i] == 1.0 * mu[i] {
      InverseUndoes(n, Mat(s), Mat(b), Vec(mu), i);
      forall k | 0 <= k < n ensures Vec(x)(k) == TimesColumn(n, Mat(b), Vec(mu))(k) {
        assert x[k] == RowDot(b, mu, k);
      }
      SameValues(n, Slice(Mat(s), i), Vec(x), TimesColumn(n, Mat(b), Vec(mu)));
      assert MatVec(s, x)[i] == RowDot(s, x, i);
    }
  }

  // ---- Weights -----------------------------------------------------------------------

  ghost predicate IsWeighting(w: Vector) {
    (forall i :: 0 <= i < |w| ==> w[i] >= 0.0) && (w != [] ==> Total(w) == 1.0)
  }

  function Equal(n: nat): (w: Vector)
    ensures |w| == n
  {
    seq(n, i requires 0 <= i < n => 1.0 / n as real)
  }

  function Normalize(w: Vector): (r: Vector)
    ensures |r| == |w|
  {
    var s := Total(w);
    if s <= 0.0 then Equal(|w|) else seq(|w|, i requires 0 <= i < |w| => w[i] / s)
  }

  lemma EqualIsWeighting(n: nat)
    ensures IsWeighting(Equal(n))
  {
    if n > 0 {
      SumConstant(n, Vec(Equal(n)), 1.0 / n as real);
      assert n as real * (1.0 / n as real) == 1.0;
    }
  }

  lemma NormalizeSums(w: Vector)
    requires w != []
    ensures Total(Normalize(w)) == 1.0
  {
    var s := Total(w);
    if s <= 0.0 {
      EqualIsWeighting(|w|);
    } else {
      forall i | 0 <= i < |w| ensures Vec(Normalize(w))(i) == (1.0 / s) * Vec(w)(i) {
        Quotient(w[i], s);
      }
      SumScaled(|w|, Vec(Normalize(w)), 1.0 / s, Vec(w));
      assert (1.0 / s) * s == 1.0;
    }
  }

  lemma Quotient(x: real, s: real)
    requires s != 0.0
    ensures x / s == (1.0 / s) * x
  {
  }

  lemma NormalizeIsWeighting(w: Vector)
    requires forall i :: 0 <= i < |w| ==> w[i] >= 0.0
    ensures IsWeighting(Normalize(w))
  {
    if w != [] {
      NormalizeSums(w);
      EqualIsWeighting(|w|);
    }
  }

  /** Normalizing keeps the proportions. */
  lemma NormalizeKeepsRatios(w: Vector, i: nat, j: nat)
    requires Total(w) > 0.0 && i < |w| && j < |w|
    ensures Normalize(w)[i] * w[j] == Normalize(w)[j] * w[i]
  {
    hide Total;
    CrossRatio(w[i], w[j], Total(w));
  }

  lemma CrossRatio(x: real, y: real, s: real)
    requires s != 0.0
    ensures (x / s) * y == (y / s) * x
  {
  }

  // ---- Inverse volatility ---------------------------------------------------------------

  /** vols[i] is the sample standard deviation of series[i]. */
  ghost predicate AreVolatilities(vols: Vector, series: Matrix) {
    |vols| == |series| && forall i :: 0 <= i < |vols| ==> vols[i] >= 0.0 && vols[i] * vols[i] == Cov(series[i], series[i])
  }

  /** 1 / vol, and 0 for a constant series. */
  function Inverses(vols: Vector): (w: Vector)
    ensures |w| == |vols|
  {
    seq(|vols|, i requires 0 <= i < |vols| => if vols[i] > 0.0 then 1.0 / vols[i] else 0.0)
  }

  function InverseVol(vols: Vector): (w: Vector)
    ensures |w| == |vols|
  {
    Normalize(Inverses(vols))
  }

  lemma InverseVolIsWeighting(vols: Vector)
    ensures IsWeighting(InverseVol(vols))
  {
    NormalizeIsWeighting(Inverses(vols));
  }

  /** Inverse-volatility weights give every volatile series the same weight times volatility. */
  lemma InverseVolEqualizes(vols: Vector, i: nat, j: nat)
    requires (forall k :: 0 <= k < |vols| ==> vols[k] >= 0.0) && i < |vols| && j < |vols| && vols[i] > 0.0 && vols[j] > 0.0
    ensures InverseVol(vols)[i] * vols[i] == InverseVol(vols)[j] * vols[j]
  {
    var w := Inverses(vols);
    InversesPositive(vols, i);
    NormalizeKeepsRatios(w, i, j);
    hide Normalize, Total;
    assert InverseVol(vols) == Normalize(w);
    CancelInverses(Normalize(w)[i], Normalize(w)[j], vols[i], vols[j]);
  }

  lemma InversesPositive(vols: Vector, i: nat)
    requires (forall k :: 0 <= k < |vols| ==> vols[k] >= 0.0) && i < |vols| && vols[i] > 0.0
    ensures Total(Inverses(vols)) > 0.0
  {
    SumAtLeast(|vols|, Vec(Inverses(vols)), i);
    PositiveReciprocal(vols[i]);
  }

  lemma {:induction false} SumAtLeast(n: nat, f: int -> real, i: nat)
    requires i < n && forall k :: 0 <= k < n ==> f(k) >= 0.0
    ensures Sum(n, f) >= f(i)
  {
    SumNonnegative(n - 1, f);
    if i < n - 1 { SumAtLeast(n - 1, f, i); }
  }

  lemma CancelInverses(x: real, y: real, u: real, v: real)
    requires u > 0.0 && v > 0.0 && x * (1.0 / v) == y * (1.0 / u)
    ensures x * u == y * v
  {
    assert x * (1.0 / v) * (u * v) == x * u * (1.0 / v * v);
    assert y * (1.0 / u) * (u * v) == y * v * (1.0 / u * u);
  }

  // ---- Equal risk contributions -----------------------------------------------------------

  /** w_i (S w)_i */
  function Contributions(cov: Matrix, w: Vector): (rc: Vector)
    requires |w| == |cov|
    ensures |rc| == |w|
  {
    var mrc := MatVec(cov, w);
    seq(|w|, i requires 0 <= i < |w| => w[i] * mrc[i])
  }

  /** A contribution is the weight times the covariance of its series with the whole portfolio. */
  lemma ContributionIsCovariance(w: Vector, series: Matrix, days: nat, i: nat)
    requires Aligned(series, days) && i < |series| == |w|
    ensures Contributions(CovMatrix(series), w)[i] == w[i] * Cov(series[i], Whole(w, series, days))
  {
    hide Cov, Portfolio, MatVec, CovMatrix;
    CovRow(w, series, days, i);
  }

  /** The multiplicative update toward equal contributions, before normalizing. */
  function Rebalanced(w: Vector, rc: Vector): (raw: Vector)
    requires |rc| == |w| > 0
    ensures |raw| == |w|
  {
    var target := Total(rc) / |w| as real;
    seq(|w|, i requires 0 <= i < |w| => if rc[i] > 0.0 then w[i] * (target / rc[i]) else w[i])
  }

  function ParityStep(w: Vector, rc: Vector): (next: Vector)
    requires |rc| == |w| > 0
    ensures |next| == |w|
  {
    Normalize(Rebalanced(w, rc))
  }

  lemma RatioNonnegative(w: real, target: real, rc: real)
    requires w >= 0.0 && target > 0.0 && rc > 0.0
    ensures w * (target / rc) >= 0.0
    ensures w > 0.0 ==> w * (target / rc) > 0.0
  {
  }

  lemma TargetPositive(total: real, n: nat)
    requires total > 0.0 && n > 0
    ensures total / n as real > 0.0
  {
  }

  lemma ParityStepIsWeighting(w: Vector, rc: Vector)
    requires |rc| == |w| > 0 && IsWeighting(w) && Total(rc) > 0.0
    ensures IsWeighting(ParityStep(w, rc))
  {
    hide Total, IsWeighting, Normalize;
    TargetPositive(Total(rc), |w|);
    forall i | 0 <= i < |w| ensures Rebalanced(w, rc)[i] >= 0.0 {
      WeightNonnegative(w, i);
      if rc[i] > 0.0 { RatioNonnegative(w[i], Total(rc) / |w| as real, rc[i]); }
    }
    NormalizeIsWeighting(Rebalanced(w, rc));
  }

  lemma WeightNonnegative(w: Vector, i: nat)
    requires IsWeighting(w) && i < |w|
    ensures w[i] >= 0.0 && Total(w) == 1.0
  {
  }

  /** No update drops a strategy or brings one back. */
  lemma ParityStepKeepsSupport(w: Vector, rc: Vector, i: nat)
    requires |rc| == |w| && IsWeighting(w) && Total(rc) > 0.0 && i < |w|
    ensures ParityStep(w, rc)[i] > 0.0 <==> w[i] > 0.0
  {
    hide Total, IsWeighting;
    RebalancedTotal(w, rc);
    RebalancedSupport(w, rc, i);
    QuotientPositive(Rebalanced(w, rc)[i], Total(Rebalanced(w, rc)));
  }

  lemma QuotientPositive(x: real, s: real)
    requires s > 0.0
    ensures x / s > 0.0 <==> x > 0.0
  {
    if x <= 0.0 { assert x / s <= 0.0; }
  }

  lemma RebalancedSupport(w: Vector, rc: Vector, i: nat)
    requires |rc| == |w| && IsWeighting(w) && Total(rc) > 0.0 && i < |w|
    ensures Rebalanced(w, rc)[i] >= 0.0 && (Rebalanced(w, rc)[i] > 0.0 <==> w[i] > 0.0)
  {
    hide Total, IsWeighting;
    WeightNonnegative(w, i);
    TargetPositive(Total(rc), |w|);
    if rc[i] > 0.0 {
      RatioNonnegative(w[i], Total(rc) / |w| as real, rc[i]);
      if w[i] == 0.0 { ZeroTimes(w[i], Total(rc) / |w| as real / rc[i]); }
    }
  }

  lemma ZeroTimes(x: real, y: real)
    requires x == 0.0
    ensures x * y == 0.0
  {
  }

  lemma RebalancedTotal(w: Vector, rc: Vector)
    requires |rc| == |w| > 0 && IsWeighting(w) && Total(rc) > 0.0
    ensures Total(Rebalanced(w, rc)) > 0.0
  {
    hide IsWeighting, Rebalanced, Sum;
    var i := SomePositive(w);
    forall k | 0 <= k < |w| ensures Rebalanced(w, rc)[k] >= 0.0 {
      RebalancedSupport(w, rc, k);
    }
    RebalancedSupport(w, rc, i);
    SumAtLeast(|w|, Vec(Rebalanced(w, rc)), i);
  }

  lemma SomePositive(w: Vector) returns (i: nat)
    requires w != [] && IsWeighting(w)
    ensures i < |w| && w[i] > 0.0
  {
    i := 0;
    while i < |w| && w[i] == 0.0
      invariant i <= |w| && forall k :: 0 <= k < i ==> w[k] == 0.0
    {
      i := i + 1;
    }
    if i == |w| { SumZero(|w|, Vec(w)); }
  }

  /** How one update changes the ratio of two weights.  Two contributions that are not positive
      leave it alone; one against a positive one turns it by that one over the mean contribution;
      two positive ones turn it by their own inverse ratio. */
  lemma ParityStepRatios(w: Vector, rc: Vector, i: nat, j: nat)
    requires |rc| == |w| && IsWeighting(w) && Total(rc) > 0.0 && i < |w| && j < |w|
    ensures var next, mean := ParityStep(w, rc), Total(rc) / |w| as real;
            && (rc[i] <= 0.0 && rc[j] <= 0.0 ==> next[i] * w[j] == next[j] * w[i])
            && (rc[i] <= 0.0 < rc[j] ==> next[i] * w[j] * mean == next[j] * w[i] * rc[j])
            && (rc[i] > 0.0 && rc[j] > 0.0 ==> next[i] * w[j] * rc[i] == next[j] * w[i] * rc[j])
  {
    hide Total, IsWeighting;
    RebalancedTotal(w, rc);
    var raw, t, mean := Rebalanced(w, rc), Total(Rebalanced(w, rc)), Total(rc) / |w| as real;
    if rc[i] <= 0.0 && rc[j] <= 0.0 {
      CrossRatio(w[i], w[j], t);
    } else if rc[i] <= 0.0 < rc[j] {
      MixedRatio(w[i], w[j], mean, rc[j], t);
    } else if rc[i] > 0.0 && rc[j] > 0.0 {
      PositiveRatio(w[i], w[j], mean, rc[i], rc[j], t);
    }
  }

  lemma MixedRatio(x: real, y: real, mean: real, c: real, t: real)
    requires c > 0.0 && t > 0.0
    ensures x / t * y * mean == y * (mean / c) / t * x * c
  {
    var u := mean / c;
    assert u * c == mean;
    ProductOverTotal(y * u, t, x * c);
    ProductOverTotal(x, t, y * mean);
  }

  lemma ProductOverTotal(a: real, t: real, b: real)
    requires t > 0.0
    ensures a / t * b == a * b / t
  {
  }

  lemma PositiveRatio(x: real, y: real, mean: real, c: real, d: real, t: real)
    requires c > 0.0 && d > 0.0 && t > 0.0
    ensures x * (mean / c) / t * y * c == y * (mean / d) / t * x * d
  {
    MixedRatio(x, y, mean, d, t);
    MixedRatio(y, x, mean, c, t);
  }

  ghost predicate AllEqual(v: Vector) {
    forall i, j :: 0 <= i < |v| && 0 <= j < |v| ==> v[i] == v[j]
  }

  /** With equal contributions the update changes nothing. */
  lemma EqualContributionsAreFixed(w: Vector, rc: Vector)
    requires |rc| == |w| > 0 && Total(w) == 1.0
    requires (forall i :: 0 <= i < |rc| ==> rc[i] > 0.0) && AllEqual(rc)
    ensures ParityStep(w, rc) == w
  {
    var n, r := |w|, rc[0];
    SumConstant(n, Vec(rc), r);
    hide Sum;
    assert n as real * r / n as real == r;
    forall i | 0 <= i < n ensures Rebalanced(w, rc)[i] == w[i] {
      assert rc[i] == r;
      assert r / r == 1.0;
    }
    assert Rebalanced(w, rc) == w;
  }

  lemma SumPositive(n: nat, f: int -> real)
    requires n > 0 && forall i :: 0 <= i < n ==> f(i) > 0.0
    ensures Sum(n, f) > 0.0
  {
  }

  /** A weighting the update leaves alone has equal contributions. */
  lemma FixedHasEqualContributions(w: Vector, rc: Vector)
    requires |rc| == |w| > 0 && ParityStep(w, rc) == w
    requires forall i :: 0 <= i < |rc| ==> rc[i] > 0.0 && w[i] > 0.0
    ensures AllEqual(rc)
  {
    hide Sum, Rebalanced, Total, Normalize;
    TotalPositive(rc);
    TargetPositive(Total(rc), |w|);
    var raw := Rebalanced(w, rc);
    forall i | 0 <= i < |w| ensures raw[i] > 0.0 {
      RebalancedAt(w, rc, i);
      RatioNonnegative(w[i], Total(rc) / |w| as real, rc[i]);
    }
    TotalPositive(raw);
    forall i, j | 0 <= i < |w| && 0 <= j < |w| ensures rc[i] == rc[j] {
      FixedEntry(w, rc, i);
      FixedEntry(w, rc, j);
      SameFactor(Total(raw), rc[i], rc[j]);
    }
  }

  lemma TotalPositive(v: Vector)
    requires v != [] && forall i :: 0 <= i < |v| ==> v[i] > 0.0
    ensures Total(v) > 0.0
  {
    SumPositive(|v|, Vec(v));
  }

  lemma FixedEntry(w: Vector, rc: Vector, i: nat)
    requires |rc| == |w| > 0 && ParityStep(w, rc) == w
    requires i < |w| && rc[i] > 0.0 && w[i] > 0.0 && Total(Rebalanced(w, rc)) > 0.0
    ensures Total(rc) / |w| as real == Total(Rebalanced(w, rc)) * rc[i]
  {
  }

  lemma SameFactor(s: real, x: real, y: real)
    requires s > 0.0 && s * x == s * y
    ensures x == y
  {
  }

  lemma RebalancedAt(w: Vector, rc: Vector, i: nat)
    requires |rc| == |w| > 0 && i < |w| && rc[i] > 0.0
    ensures Rebalanced(w, rc)[i] == w[i] * ((Total(rc) / |w| as real) / rc[i])
  {
  }

  /** Fixed points of the update are exactly the equal-risk weightings. */
  lemma FixedPointIffEqualRisk(cov: Matrix, w: Vector)
    requires |w| == |cov| > 0 && IsWeighting(w)
    requires forall i :: 0 <= i < |w| ==> Contributions(cov, w)[i] > 0.0
    ensures ParityStep(w, Contributions(cov, w)) == w <==> AllEqual(Contributions(cov, w))
  {
    hide ParityStep, MatVec;
    var rc := Contributions(cov, w);
    forall i | 0 <= i < |w| ensures w[i] > 0.0 {
      assert rc[i] == w[i] * MatVec(cov, w)[i];
    }
    if AllEqual(rc) { EqualContributionsAreFixed(w, rc); }
    if ParityStep(w, rc) == w { FixedHasEqualContributions(w, rc); }
  }

  /** The k-th iterate from w; it stays put once the total contribution is not positive. */
  function ParityIterate(cov: Matrix, w: Vector, k: nat): (r: Vector)
    requires |w| == |cov| > 0
    ensures |r| == |w|
  {
    if k == 0 then w
    else
      var prev := ParityIterate(cov, w, k - 1);
      var rc := Contributions(cov, prev);
      if Total(rc) <= 0.0 then prev else ParityStep(prev, rc)
  }

  lemma {:induction false} IteratesAreWeightings(cov: Matrix, w: Vector, k: nat)
    requires |w| == |cov| > 0 && IsWeighting(w)
    ensures IsWeighting(ParityIterate(cov, w, k))
  {
    hide IsWeighting, Contributions, ParityStep, Total;
    if k > 0 {
      IteratesAreWeightings(cov, w, k - 1);
      var prev := ParityIterate(cov, w, k - 1);
      if Total(Contributions(cov, prev)) > 0.0 { ParityStepIsWeighting(prev, Contributions(cov, prev)); }
    }
  }

  /** The whole iteration drops no strategy and brings none back. */
  lemma {:induction false} IteratesKeepSupport(cov: Matrix, w: Vector, k: nat, i: nat)
    requires |w| == |cov| && IsWeighting(w) && i < |w|
    ensures ParityIterate(cov, w, k)[i] > 0.0 <==> w[i] > 0.0
  {
    hide IsWeighting, Contributions, ParityStep, Total;
    if k > 0 {
      IteratesKeepSupport(cov, w, k - 1, i);
      IteratesAreWeightings(cov, w, k - 1);
      var prev := ParityIterate(cov, w, k - 1);
      if Total(Contributions(cov, prev)) > 0.0 { ParityStepKeepsSupport(prev, Contributions(cov, prev), i); }
    }
  }

  /** Where some series is volatile, inverse volatility weighs exactly the volatile ones. */
  lemma InverseVolWeighsVolatile(vols: Vector, i: nat, j: nat)
    requires (forall k :: 0 <= k < |vols| ==> vols[k] >= 0.0) && i < |vols| && j < |vols| && vols[j] > 0.0
    ensures InverseVol(vols)[i] > 0.0 <==> vols[i] > 0.0
  {
    InversesPositive(vols, j);
    hide Total;
    if vols[i] > 0.0 { PositiveReciprocal(vols[i]); }
    QuotientPositive(Inverses(vols)[i], Total(Inverses(vols)));
  }

  /** The largest distance of a contribution from the mean contribution. */
  method MaxSpread(rc: Vector, target: real) returns (d: real)
    requires rc != []
    ensures forall i :: 0 <= i < |rc| ==> Abs(rc[i] - target) <= d
    ensures exists i :: 0 <= i < |rc| && Abs(rc[i] - target) == d
  {
    d := Abs(rc[0] - target);
    for i := 1 to |rc|
      invariant forall j :: 0 <= j < i ==> Abs(rc[j] - target) <= d
      invariant exists j :: 0 <= j < i && Abs(rc[j] - target) == d
    {
      if Abs(rc[i] - target) > d {
        d := Abs(rc[i] - target);
      }
    }
  }

  /** All contributions lie within tol of their mean, relative to the total. */
  ghost predicate WithinTolerance(rc: Vector, tol: real) {
    rc != [] && Total(rc) > 0.0 &&
    forall i :: 0 <= i < |rc| ==> Abs(rc[i] - Total(rc) / |rc| as real) / Total(rc) < tol
  }

  /** The iteration from the inverse-volatility weights: some iterate, and it stopped
      for lack of risk, within tolerance one step earlier, or at the iteration limit. */
  method RiskParity(series: Matrix, vols: Vector, iters: nat, tol: real) returns (w: Vector)
    requires series != [] && AreVolatilities(vols, series)
    ensures IsWeighting(w) && |w| == |series|
    ensures forall i :: 0 <= i < |w| && vols[i] > 0.0 ==> w[i] > 0.0
    ensures exists k :: StoppedAt(CovMatrix(series), InverseVol(vols), iters, tol, k, w)
  {
    hide Total, Contributions, ParityStep, CovMatrix, InverseVol, IsWeighting, Rebalanced;
    var n, cov := |series|, CovMatrix(series);
    w := InverseVol(vols);
    InverseVolIsWeighting(vols);
    var k := 0;
    while k < iters
      invariant 0 <= k <= iters && |w| == n && w == ParityIterate(cov, InverseVol(vols), k)
      invariant forall j :: 0 <= j < k ==> Unsettled(cov, InverseVol(vols), tol, j)
    {
      var rc := Contributions(cov, w);
      var total := Total(rc);
      if total <= 0.0 {
        break;
      }
      var target := total / n as real;
      w := ParityStep(w, rc);
      k := k + 1;
      var spread := MaxSpread(rc, target);
      if spread / total < tol {
        SpreadWithinTolerance(rc, spread, tol);
        break;
      }
      SpreadBeyondTolerance(rc, spread, tol);
    }
    IteratesAreWeightings(cov, InverseVol(vols), k);
    forall i | 0 <= i < n && vols[i] > 0.0 ensures w[i] > 0.0 {
      InverseVolWeighsVolatile(vols, i, i);
      IteratesKeepSupport(cov, InverseVol(vols), k, i);
    }
    assert StoppedAt(cov, InverseVol(vols), iters, tol, k, w);
  }

  /** Iterate j still carries risk and is not yet within tolerance. */
  ghost predicate Unsettled(cov: Matrix, start: Vector, tol: real, j: nat)
    requires |start| == |cov| > 0
  {
    var rc := Contributions(cov, ParityIterate(cov, start, j));
    Total(rc) > 0.0 && !WithinTolerance(rc, tol)
  }

  /** w is iterate k, and the loop stopped there for the first reason to stop. */
  ghost predicate StoppedAt(cov: Matrix, start: Vector, iters: nat, tol: real, k: nat, w: Vector)
    requires |start| == |cov| > 0
  {
    && k <= iters && w == ParityIterate(cov, start, k)
    && (|| k == iters
        || Total(Contributions(cov, w)) <= 0.0
        || (k > 0 && WithinTolerance(Contributions(cov, ParityIterate(cov, start, k - 1)), tol)))
    && (forall j :: 0 <= j < k - 1 ==> Unsettled(cov, start, tol, j))
  }

  lemma SpreadBeyondTolerance(rc: Vector, spread: real, tol: real)
    requires rc != [] && Total(rc) > 0.0 && spread / Total(rc) >= tol
    requires exists i :: 0 <= i < |rc| && Abs(rc[i] - Total(rc) / |rc| as real) == spread
    ensures !WithinTolerance(rc, tol)
  {
  }

  lemma SpreadWithinTolerance(rc: Vector, spread: real, tol: real)
    requires rc != [] && Total(rc) > 0.0 && spread / Total(rc) < tol
    requires forall i :: 0 <= i < |rc| ==> Abs(rc[i] - Total(rc) / |rc| as real) <= spread
    ensures WithinTolerance(rc, tol)
  {
    hide Total;
    forall i | 0 <= i < |rc| ensures Abs(rc[i] - Total(rc) / |rc| as real) / Total(rc) < tol {
      SmallerQuotient(Abs(rc[i] - Total(rc) / |rc| as real), spread, Total(rc));
    }
  }

  lemma SmallerQuotient(x: real, y: real, t: real)
    requires x <= y && t > 0.0
    ensures x / t <= y / t
  {
  }

  // ---- Risk contributions -------------------------------------------------------------------

  function RiskContributions(w: Vector, cov: Matrix): (r: Vector)
    requires |w| == |cov|
    ensures |r| == |w|
  {
    var total := Quad(w, cov);
    if total <= 0.0 then Equal(|w|)
    else
      var rc := Contributions(cov, w);
      seq(|w|, i requires 0 <= i < |w| => rc[i] / total)
  }

  lemma RiskContributionsSumToOne(w: Vector, cov: Matrix)
    requires |w| == |cov| > 0
    ensures Total(RiskContributions(w, cov)) == 1.0
  {
    hide MatVec, Sum;
    var total, rc := Quad(w, cov), Contributions(cov, w);
    if total <= 0.0 {
      EqualIsWeighting(|w|);
    } else {
      SumEqual(|w|, Vec(rc), Times(Vec(w), Vec(MatVec(cov, w))));
      forall i | 0 <= i < |w| ensures Vec(RiskContributions(w, cov))(i) == (1.0 / total) * Vec(rc)(i) {
        Quotient(rc[i], total);
      }
      SumScaled(|w|, Vec(RiskContributions(w, cov)), 1.0 / total, Vec(rc));
      assert (1.0 / total) * total == 1.0;
    }
  }

  /** A reported share is the contribution relative to the variance of the portfolio. */
  lemma RiskShareIsCovariance(w: Vector, series: Matrix, days: nat, i: nat)
    requires Aligned(series, days) && i < |series| == |w|
    requires Cov(Whole(w, series, days), Whole(w, series, days)) > 0.0
    ensures var whole := Whole(w, series, days);
            RiskContributions(w, CovMatrix(series))[i] * Cov(whole, whole) == w[i] * Cov(series[i], whole)
  {
    hide Cov, Portfolio, Contributions, CovMatrix, Quad;
    PortfolioVariance(w, series, days);
    ContributionIsCovariance(w, series, days, i);
  }

  // ---- Maximum Sharpe --------------------------------------------------------------------------

  /** Negative weights are clipped and the rest renormalized; equal weights when nothing is left. */
  function LongOnly(raw: Vector): (w: Vector)
    ensures |w| == |raw|
  {
    var clipped := seq(|raw|, i requires 0 <= i < |raw| => Max(0.0, raw[i]));
    if Total(clipped) <= 0.0 then Equal(|raw|) else Normalize(clipped)
  }

  /** Negative entries get no weight and the others keep their ratios; without a positive entry all
      weigh the same. */
  lemma LongOnlyMeaning(raw: Vector, i: nat, j: nat)
    requires i < |raw| && j < |raw|
    ensures var w := LongOnly(raw);
            if exists k :: 0 <= k < |raw| && raw[k] > 0.0 then
              (w[i] > 0.0 <==> raw[i] > 0.0) && (raw[i] >= 0.0 && raw[j] >= 0.0 ==> w[i] * raw[j] == w[j] * raw[i])
            else w[i] == w[j]
  {
    hide Total;
    var clipped := seq(|raw|, k requires 0 <= k < |raw| => Max(0.0, raw[k]));
    if k :| 0 <= k < |raw| && raw[k] > 0.0 {
      SumAtLeast(|raw|, Vec(clipped), k);
      assert Total(clipped) > 0.0 by { TotalIsSum(clipped); }
      QuotientPositive(clipped[i], Total(clipped));
      CrossRatio(clipped[i], clipped[j], Total(clipped));
    } else {
      SumZero(|raw|, Vec(clipped));
      TotalIsSum(clipped);
    }
  }

  lemma TotalIsSum(v: Vector)
    ensures Total(v) == Sum(|v|, Vec(v))
  {
  }

  lemma LongOnlyIsWeighting(raw: Vector)
    ensures IsWeighting(LongOnly(raw))
  {
    EqualIsWeighting(|raw|);
    NormalizeIsWeighting(seq(|raw|, i requires 0 <= i < |raw| => Max(0.0, raw[i])));
  }

  /** The inverse covariances times the mean vector, long-only; inverse volatility when the
      covariance matrix could not be inverted. */
  function MaxSharpeWeights(series: Matrix, vols: Vector): (w: Vector)
    requires |vols| == |series|
    ensures |w| == |series|
  {
    match Inverse(CovMatrix(series))
    case None => InverseVol(vols)
    case Some(inverse) => LongOnly(MatVec(inverse, MeanVector(series)))
  }

  lemma MaxSharpeIsWeighting(series: Matrix, vols: Vector)
    requires |vols| == |series|
    ensures IsWeighting(MaxSharpeWeights(series, vols))
  {
    hide LongOnly, InverseVol, IsWeighting, CovMatrix, Inverse;
    InverseVolIsWeighting(vols);
    var inverse := Inverse(CovMatrix(series));
    if inverse.Some? { LongOnlyIsWeighting(MatVec(inverse.value, MeanVector(series))); }
  }

  method MaxSharpe(series: Matrix, vols: Vector) returns (w: Vector)
    requires |vols| == |series|
    ensures w == MaxSharpeWeights(series, vols) && IsWeighting(w)
  {
    hide LongOnly, IsWeighting, InverseVol, CovMatrix, Inverse;
    MaxSharpeIsWeighting(series, vols);
    var inverse := Invert(CovMatrix(series));
    if inverse.None? {
      return InverseVol(vols);
    }
    return LongOnly(MatVec(inverse.value, MeanVector(series)));
  }

  lemma ScaledRow(s: Matrix, x: Vector, y: Vector, c: real, i: int)
    requires |y| == |x| && forall k :: 0 <= k < |x| ==> y[k] == c * x[k]
    ensures RowDot(s, y, i) == c * RowDot(s, x, i)
  {
    hide Mat, Slice, Sum, Times;
    ScaledValues(|x|, Slice(Mat(s), i), Vec(y), c, Vec(x));
  }

  lemma ScaledSolution(x: Vector, y: Vector, series: Matrix, mu: Vector, c: real)
    requires SolvesTangency(x, series, mu, 1.0) && |y| == |x|
    requires forall i :: 0 <= i < |x| ==> y[i] == c * x[i]
    ensures SolvesTangency(y, series, mu, c)
  {
    hide CovMatrix, RowDot;
    var n, s := |series|, CovMatrix(series);
    forall i | 0 <= i < n ensures MatVec(s, y)[i] == c * mu[i] {
      ScaledRow(s, x, y, c, i);
      assert MatVec(s, x)[i] == 1.0 * mu[i];
    }
  }

  /** When no weight had to be clipped, the combined series under the maximum-Sharpe weights has
      the greatest squared Sharpe ratio of all portfolios. */
  lemma UnclippedMaximizesSharpe(series: Matrix, vols: Vector, days: nat, other: Vector)
    requires Aligned(series, days) && |other| == |series| == |vols|
    requires Inverse(CovMatrix(series)).Some?
    requires var raw := MatVec(Inverse(CovMatrix(series)).value, MeanVector(series));
             (forall i :: 0 <= i < |raw| ==> raw[i] >= 0.0) && Total(raw) > 0.0
    ensures NoBetterSharpe(Whole(other, series, days), Whole(MaxSharpeWeights(series, vols), series, days))
  {
    hide Total, Quad, ExpectedReturn, MatVec, CovMatrix, SolvesTangency, MeanVector, Mat, Inverse, LongOnly, Portfolio, Mean, Cov;
    var mu, b := MeanVector(series), Inverse(CovMatrix(series)).value;
    var raw, w := MatVec(b, mu), MaxSharpeWeights(series, vols);
    InverseIsLeftInverse(CovMatrix(series));
    InverseSolvesTangency(series, b, mu);
    UnclippedIsScaled(raw);
    ScaledSolution(raw, w, series, mu, 1.0 / Total(raw)) by { SolutionSize(raw, series, mu, 1.0); }
    PositiveReciprocal(Total(raw));
    TangencyMaximizesSharpe(w, other, series, days, mu, 1.0 / Total(raw));
    ExpectedReturnIsMean(w, series, days);
    ExpectedReturnIsMean(other, series, days);
    PortfolioVariance(w, series, days);
    PortfolioVariance(other, series, days);
  }

  /** The squared mean of p against its variance is no better than that of q. */
  ghost predicate NoBetterSharpe(p: Vector, q: Vector)
    requires |p| == |q| > 0
  {
    Mean(|p|, p) * Mean(|p|, p) * Cov(q, q) <= Cov(p, p) * (Mean(|q|, q) * Mean(|q|, q))
  }

  lemma PositiveReciprocal(t: real)
    requires t > 0.0
    ensures 1.0 / t > 0.0
  {
  }

  lemma UnclippedIsScaled(raw: Vector)
    requires (forall i :: 0 <= i < |raw| ==> raw[i] >= 0.0) && Total(raw) > 0.0
    ensures forall i :: 0 <= i < |raw| ==> LongOnly(raw)[i] == (1.0 / Total(raw)) * raw[i]
  {
    hide Total;
    assert seq(|raw|, i requires 0 <= i < |raw| => Max(0.0, raw[i])) == raw;
    forall i | 0 <= i < |raw| ensures LongOnly(raw)[i] == (1.0 / Total(raw)) * raw[i] {
      Quotient(raw[i], Total(raw));
    }
  }

  // ---- Allocation over named strategies -----------------------------------------------------------

  ghost predicate Distinct(names: seq<string>) {
    forall i, j :: 0 <= i < j < |names| ==> names[i] != names[j]
  }

  function WeightOf(weights: map<string, real>, names: seq<string>): int -> real {
    i => if 0 <= i < |names| && names[i] in weights then weights[names[i]] else 0.0
  }

  function TotalOver(names: seq<string>, weights: map<string, real>): real {
    Sum(|names|, WeightOf(weights, names))
  }

  /** Raising one name's weight from zero raises the total by as much. */
  lemma TotalAfterUpdate(names: seq<string>, weights: map<string, real>, p: nat, x: real)
    requires Distinct(names) && p < |names| && names[p] in weights && weights[names[p]] == 0.0
    ensures TotalOver(names, weights[names[p] := x]) == TotalOver(names, weights) + x
  {
    var bump := (i: int) => if i == p then x else 0.0;
    SumAxpy(|names|, WeightOf(weights[names[p] := x], names), WeightOf(weights, names), 1.0, bump);
    SumSingle(|names|, bump, p);
  }

  predicate IsUsable(s: Vector, vol: real) {
    |s| >= 2 && vol > 0.0
  }

  /** Usable are exactly the series that vary. */
  lemma UsableIffVaries(s: Vector, vol: real)
    requires vol >= 0.0 && (|s| >= 2 ==> vol * vol == Cov(s, s))
    ensures IsUsable(s, vol) <==> Cov(s, s) > 0.0
  {
    hide CoMoment;
    if |s| >= 2 {
      if vol > 0.0 { PositiveProduct(vol, vol, Cov(s, s)); } else { ZeroProduct(vol, Cov(s, s)); }
    }
  }

  lemma ZeroProduct(x: real, p: real)
    requires x == 0.0 && p == x * x
    ensures p == 0.0
  {
  }

  /** Give the pool's names the weights w; all names not in the pool keep zero. */
  method Assign(names: seq<string>, pool: seq<string>, w: Vector) returns (weights: map<string, real>)
    requires Distinct(names) && Distinct(pool) && |w| == |pool| && IsWeighting(w)
    requires forall i :: 0 <= i < |pool| ==> pool[i] in names
    ensures weights.Keys == (set n | n in names)
    ensures forall i :: 0 <= i < |pool| ==> weights[pool[i]] == w[i]
    ensures forall n :: n in names && n !in pool ==> weights[n] == 0.0
    ensures TotalOver(names, weights) == Total(w)
  {
    hide IsWeighting;
    weights := map n | n in names :: 0.0;
    SumZero(|names|, WeightOf(weights, names));
    for i := 0 to |pool|
      invariant weights.Keys == set n | n in names
      invariant forall j :: 0 <= j < i ==> weights[pool[j]] == w[j]
      invariant forall n :: n in names && n !in pool[..i] ==> weights[n] == 0.0
      invariant TotalOver(names, weights) == Sum(i, Vec(w))
    {
      assert pool[i] !in pool[..i];
      ghost var p :| 0 <= p < |names| && names[p] == pool[i];
      TotalAfterUpdate(names, weights, p, w[i]);
      weights := weights[pool[i] := w[i]];
    }
  }

  /** The strategies with enough history and some variance, in input order. */
  function Usable(names: seq<string>, series: map<string, Vector>, vols: map<string, real>): (usable: seq<string>)
    requires forall n :: n in names ==> n in series && n in vols
    ensures forall n :: n in usable <==> n in names && IsUsable(series[n], vols[n])
  {
    if names == [] then []
    else
      var init, last := Usable(names[..|names| - 1], series, vols), names[|names| - 1];
      if IsUsable(series[last], vols[last]) then init + [last] else init
  }

  lemma {:induction false} UsableDistinct(names: seq<string>, series: map<string, Vector>, vols: map<string, real>)
    requires Distinct(names) && forall n :: n in names ==> n in series && n in vols
    ensures Distinct(Usable(names, series, vols))
  {
    hide IsUsable;
    if names != [] {
      var init := names[..|names| - 1];
      UsableDistinct(init, series, vols);
      assert names[|names| - 1] !in init;
    }
  }

  /** The usable names are, in order and once each, those at the kept indices. */
  lemma {:induction false} UsableInOrder(names: seq<string>, series: map<string, Vector>, vols: map<string, real>) returns (kept: seq<nat>)
    requires forall n :: n in names ==> n in series && n in vols
    ensures |kept| == |Usable(names, series, vols)| && forall j, k :: 0 <= j < k < |kept| ==> kept[j] < kept[k]
    ensures forall k :: 0 <= k < |kept| ==> kept[k] < |names| && Usable(names, series, vols)[k] == names[kept[k]]
    ensures forall i: nat :: i < |names| ==> (i in kept <==> IsUsable(series[names[i]], vols[names[i]]))
  {
    hide IsUsable;
    kept := [];
    if names != [] {
      var n := |names| - 1;
      kept := UsableInOrder(names[..n], series, vols);
      assert n !in kept;
      if IsUsable(series[names[n]], vols[names[n]]) {
        kept := kept + [n];
      }
    }
  }

  method SelectUsable(names: seq<string>, series: map<string, Vector>, vols: map<string, real>) returns (usable: seq<string>)
    requires forall n :: n in names ==> n in series && n in vols
    ensures usable == Usable(names, series, vols)
  {
    usable := [];
    for i := 0 to |names|
      invariant usable == Usable(names[..i], series, vols)
    {
      assert names[..i + 1][..i] == names[..i];
      if IsUsable(series[names[i]], vols[names[i]]) {
        usable := usable + [names[i]];
      }
    }
    assert names[..|names|] == names;
  }

  /** The weights a method may yield for usable series; any unknown name means risk parity.  Only
      max_sharpe may leave out a volatile series. */
  ghost predicate IsMethodWeighting(w: Vector, pnl: Matrix, vol: Vector, how: string, iters: nat, tol: real) {
    && |w| == |pnl| == |vol| > 0 && IsWeighting(w)
    && (if how == "equal_weight" then w == Equal(|pnl|)
        else if how == "inverse_vol" then w == InverseVol(vol)
        else if how == "max_sharpe" then w == MaxSharpeWeights(pnl, vol)
        else exists k :: StoppedAt(CovMatrix(pnl), InverseVol(vol), iters, tol, k, w))
    && (how != "max_sharpe" ==> forall i :: 0 <= i < |w| && vol[i] > 0.0 ==> w[i] > 0.0)
  }

  method WeightsByMethod(pnl: Matrix, vol: Vector, how: string, iters: nat, tol: real) returns (w: Vector)
    requires pnl != [] && AreVolatilities(vol, pnl)
    ensures IsMethodWeighting(w, pnl, vol, how, iters, tol)
  {
    hide IsWeighting, InverseVol, StoppedAt, MaxSharpeWeights, CovMatrix, Cov;
    if how == "equal_weight" {
      EqualIsWeighting(|pnl|);
      w := Equal(|pnl|);
      PositiveReciprocal(|pnl| as real);
    } else if how == "inverse_vol" {
      w := InverseVol(vol);
      InverseVolIsWeighting(vol);
      forall i | 0 <= i < |w| && vol[i] > 0.0 ensures w[i] > 0.0 {
        InverseVolWeighsVolatile(vol, i, i);
      }
    } else if how == "max_sharpe" {
      w := MaxSharpe(pnl, vol);
    } else {
      w := RiskParity(pnl, vol, iters, tol);
    }
  }

  /** Distinct names, each with its series and its standard deviation. */
  ghost predicate GoodInput(names: seq<string>, series: map<string, Vector>, vols: map<string, real>) {
    && Distinct(names)
    && forall n :: n in names ==> n in series && n in vols && vols[n] >= 0.0
                                  && (|series[n]| >= 2 ==> vols[n] * vols[n] == Cov(series[n], series[n]))
  }

  /** Never negative, summing to one over a nonempty input, and zero for an unusable
      strategy whenever a usable one exists. */
  ghost predicate GoodWeights(names: seq<string>, series: map<string, Vector>, vols: map<string, real>, weights: map<string, real>)
    requires forall n :: n in names ==> n in series && n in vols
  {
    && weights.Keys == (set n | n in names)
    && (forall n :: n in names ==> weights[n] >= 0.0)
    && (names != [] ==> TotalOver(names, weights) == 1.0)
    && forall n, m :: n in names && m in names && IsUsable(series[m], vols[m]) && !IsUsable(series[n], vols[n]) ==> weights[n] == 0.0
  }

  /** The usable strategies carry exactly the method's weights, or all strategies equal ones
      when none is usable. */
  ghost predicate FollowsMethod(names: seq<string>, series: map<string, Vector>, vols: map<string, real>, how: string,
                                iters: nat, tol: real, weights: map<string, real>)
    requires (forall n :: n in names ==> n in series && n in vols) && weights.Keys == (set n | n in names)
  {
    var usable := Usable(names, series, vols);
    if usable == [] then forall n :: n in names ==> weights[n] == 1.0 / |names| as real
    else
      IsMethodWeighting(seq(|usable|, i requires 0 <= i < |usable| => weights[usable[i]]),
                        PnlOf(usable, series), VolOf(usable, vols), how, iters, tol)
  }

  function PnlOf(usable: seq<string>, series: map<string, Vector>): Matrix
    requires forall n :: n in usable ==> n in series
  {
    seq(|usable|, i requires 0 <= i < |usable| => series[usable[i]])
  }

  function VolOf(usable: seq<string>, vols: map<string, real>): Vector
    requires forall n :: n in usable ==> n in vols
  {
    seq(|usable|, i requires 0 <= i < |usable| => vols[usable[i]])
  }

  method Allocate(names: seq<string>, series: map<string, Vector>, vols: map<string, real>, how: string,
                  iters: nat, tol: real)
    returns (weights: map<string, real>)
    requires GoodInput(names, series, vols)
    ensures GoodWeights(names, series, vols, weights)
    ensures FollowsMethod(names, series, vols, how, iters, tol, weights)
  {
    hide IsWeighting, TotalOver, Equal, Total, AreVolatilities, Cov, IsMethodWeighting, IsUsable, GoodWeights;
    var usable := SelectUsable(names, series, vols);
    UsableDistinct(names, series, vols);
    var pool := if usable == [] then names else usable;
    var w: Vector := Equal(|pool|);
    EqualIsWeighting(|pool|);
    if usable != [] {
      UsableVolatilities(names, series, vols, usable);
      w := WeightsByMethod(PnlOf(usable, series), VolOf(usable, vols), how, iters, tol);
      MethodWeightingSize(w, PnlOf(usable, series), VolOf(usable, vols), how, iters, tol);
    }
    assert forall i :: 0 <= i < |pool| ==> pool[i] in pool;
    weights := Assign(names, pool, w);
    AssignedIsGood(names, series, vols, usable, pool, w, weights);
    AssignedFollows(names, series, vols, how, iters, tol, usable, pool, w, weights);
  }

  /** Every method but max_sharpe gives each usable strategy some weight. */
  lemma UsableIsAllocated(names: seq<string>, series: map<string, Vector>, vols: map<string, real>, how: string,
                          iters: nat, tol: real, weights: map<string, real>, n: string)
    requires (forall m :: m in names ==> m in series && m in vols) && weights.Keys == (set m | m in names)
    requires FollowsMethod(names, series, vols, how, iters, tol, weights) && how != "max_sharpe"
    requires n in names && IsUsable(series[n], vols[n])
    ensures weights[n] > 0.0
  {
    hide IsWeighting, StoppedAt, CovMatrix, InverseVol, Equal;
    var usable := Usable(names, series, vols);
    var i :| 0 <= i < |usable| && usable[i] == n;
    assert VolOf(usable, vols)[i] > 0.0;
  }

  lemma MethodWeightingSize(w: Vector, pnl: Matrix, vol: Vector, how: string, iters: nat, tol: real)
    requires IsMethodWeighting(w, pnl, vol, how, iters, tol)
    ensures |w| == |pnl| && IsWeighting(w)
  {
    hide IsWeighting, StoppedAt, MaxSharpeWeights, CovMatrix, InverseVol;
  }

  lemma AssignedFollows(names: seq<string>, series: map<string, Vector>, vols: map<string, real>, how: string,
                        iters: nat, tol: real, usable: seq<string>, pool: seq<string>, w: Vector, weights: map<string, real>)
    requires (forall n :: n in names ==> n in series && n in vols) && weights.Keys == (set n | n in names)
    requires usable == Usable(names, series, vols) && pool == (if usable == [] then names else usable) && |w| == |pool|
    requires usable == [] ==> w == Equal(|pool|)
    requires usable != [] ==> IsMethodWeighting(w, PnlOf(usable, series), VolOf(usable, vols), how, iters, tol)
    requires forall i :: 0 <= i < |pool| ==> pool[i] in names && weights[pool[i]] == w[i]
    ensures FollowsMethod(names, series, vols, how, iters, tol, weights)
  {
    hide IsMethodWeighting, IsUsable, Usable;
    if usable == [] {
      forall n | n in names ensures weights[n] == 1.0 / |names| as real {
        var i :| 0 <= i < |names| && names[i] == n;
        assert weights[pool[i]] == w[i];
      }
    } else {
      assert seq(|usable|, i requires 0 <= i < |usable| => weights[usable[i]]) == w;
    }
  }

  lemma UsableVolatilities(names: seq<string>, series: map<string, Vector>, vols: map<string, real>, usable: seq<string>)
    requires GoodInput(names, series, vols) && usable == Usable(names, series, vols)
    ensures AreVolatilities(VolOf(usable, vols), PnlOf(usable, series))
  {
    hide Cov, IsUsable, Usable;
    forall i | 0 <= i < |usable|
      ensures vols[usable[i]] >= 0.0 && vols[usable[i]] * vols[usable[i]] == Cov(series[usable[i]], series[usable[i]])
    {
      assert usable[i] in usable;
      UsableVolatility(names, series, vols, usable[i]);
    }
  }

  lemma UsableVolatility(names: seq<string>, series: map<string, Vector>, vols: map<string, real>, n: string)
    requires GoodInput(names, series, vols) && n in names && IsUsable(series[n], vols[n])
    ensures vols[n] >= 0.0 && vols[n] * vols[n] == Cov(series[n], series[n])
  {
  }

  lemma AssignedIsGood(names: seq<string>, series: map<string, Vector>, vols: map<string, real>, usable: seq<string>,
                       pool: seq<string>, w: Vector, weights: map<string, real>)
    requires forall n :: n in names ==> n in series && n in vols
    requires forall n :: n in usable <==> n in names && IsUsable(series[n], vols[n])
    requires pool == (if usable == [] then names else usable) && |w| == |pool| && IsWeighting(w)
    requires weights.Keys == (set n | n in names) && TotalOver(names, weights) == Total(w)
    requires forall i :: 0 <= i < |pool| ==> pool[i] in names && weights[pool[i]] == w[i]
    requires forall n :: n in names && n !in pool ==> weights[n] == 0.0
    ensures GoodWeights(names, series, vols, weights)
  {
  }
}
