/** The line fit behind each candidate (reco.py `chisq`, `fitfunc`, `linear_reg`).

    `linear_reg(X, Y)` is called with the candidate's hit positions as X and its wire depths
    as Y. It fits X = q + m * Y with `scipy.optimize.curve_fit`, which is not modelled: it is
    the parameter `curveFit`, a function from the request it receives to the best parameters,
    or None when it raises. */
module LineFit {
  import opened Wrappers
  import opened Numeric

  /** Per-point uncertainty: 0.4 (400 um). */
  const Sigma: real := 0.4

  /** Slope guess used when the first two positions coincide. */
  const NominalSlope: real := 100.0

  /** numpy's sqrt(2) as a double. */
  const Sqrt2: real := 1.4142135623730951

  /** Curve parameters in curve_fit's order: p[0] = q (intercept), p[1] = m (slope). */
  datatype Params = Params(q: real, m: real)

  /** The arguments of `curve_fit(fitfunc, xdata, ydata, sigma=..., p0=...)`. */
  datatype FitRequest = FitRequest(xdata: seq<real>, ydata: seq<real>, sigma: seq<real>, p0: Params)

  /** scipy.optimize.curve_fit applied to `fitfunc`; None stands for a raised exception. */
  type CurveFit = FitRequest -> Option<Params>

  /** The dictionary linear_reg returns. */
  datatype FitResult = FitResult(m: real, q: real, chisqComp: real)

  function FitFunc(x: real, a: real, b: real): real {
    a + b * x
  }

  function Square(t: real): (r: real)
    ensures r >= 0.0
  {
    t * t
  }

  /** Sum of squared normalised residuals of the points (xs[k], ys[k]) around y = a + b x
      (over the common length of the three lists, as `zip` does). */
  function Chisq(xs: seq<real>, ys: seq<real>, sys: seq<real>, a: real, b: real): (r: real)
    requires forall k :: 0 <= k < |sys| ==> sys[k] > 0.0
    ensures r >= 0.0
    decreases |xs|
  {
    if xs == [] || ys == [] || sys == [] then 0.0
    else Square((ys[0] - a - xs[0] * b) / sys[0]) + Chisq(xs[1..], ys[1..], sys[1..], a, b)
  }

  /** chi-square vanishes when every point lies on the line. */
  lemma {:induction false} ChisqOnLine(xs: seq<real>, ys: seq<real>, sys: seq<real>, a: real, b: real)
    requires forall k :: 0 <= k < |sys| ==> sys[k] > 0.0
    requires forall k :: 0 <= k < |xs| && k < |ys| ==> ys[k] == FitFunc(xs[k], a, b)
    ensures Chisq(xs, ys, sys, a, b) == 0.0
  {
    if xs != [] && ys != [] && sys != [] {
      forall k | 0 <= k < |xs| - 1 && k < |ys| - 1
        ensures ys[1..][k] == FitFunc(xs[1..][k], a, b)
      {
        assert ys[1..][k] == ys[k + 1] && xs[1..][k] == xs[k + 1];
      }
      ChisqOnLine(xs[1..], ys[1..], sys[1..], a, b);
      assert ys[0] - a - xs[0] * b == 0.0;
    }
  }

  /** sqrt(2 * dof) for the two degrees of freedom a 3- or 4-point fit has. */
  function SqrtTwiceDof(dof: int): (r: real)
    requires dof == 1 || dof == 2
    ensures r > 0.0
  {
    if dof == 2 then 2.0 else Sqrt2
  }

  /** The constant is the square root of 2 dof: exactly for dof = 2; for dof = 1 its square
      exceeds 2 by less than 2^-52, half the spacing of doubles at 2, so it rounds to 2.0. */
  lemma SqrtTwiceDofSquare(dof: int)
    requires dof == 1 || dof == 2
    ensures dof == 2 ==> SqrtTwiceDof(dof) * SqrtTwiceDof(dof) == 4.0
    ensures dof == 1 ==> 2.0 < SqrtTwiceDof(dof) * SqrtTwiceDof(dof) < 2.0000000000000002
  {
  }

  /** |chi2 - dof| / sqrt(2 dof): how far chi-square is from its expectation, in units of its
      standard deviation. */
  function ChisqComp(chi2: real, dof: int): (r: real)
    requires dof == 1 || dof == 2
    ensures r >= 0.0
  {
    if dof == 2 then Abs(chi2 - dof as real) / 2.0 else Abs(chi2 - dof as real) / Sqrt2
  }

  /** chisq_comp measures the distance of chi-square from dof in units of sqrt(2 dof): scaled
      back it is that distance, it vanishes exactly when chi-square equals dof, and a perfect
      fit (chi-square 0) scores dof / sqrt(2 dof). */
  lemma ChisqCompMeaning(chi2: real, dof: int)
    requires dof == 1 || dof == 2
    ensures ChisqComp(chi2, dof) * SqrtTwiceDof(dof) == Abs(chi2 - dof as real)
    ensures ChisqComp(chi2, dof) == 0.0 <==> chi2 == dof as real
    ensures chi2 == 0.0 ==> ChisqComp(chi2, dof) * SqrtTwiceDof(dof) == dof as real
  {
  }

  /** Starting point handed to curve_fit: the line Y = q + m X through the first two points,
      or slope 100 through the first point when their X coincide (never a division by zero). */
  function InitialGuess(x: seq<real>, y: seq<real>): (p0: Params)
    requires |x| >= 2 && |y| >= 2
    ensures x[0] == x[1] ==> p0.m == NominalSlope
    ensures p0.q + p0.m * x[0] == y[0]
    ensures x[0] != x[1] ==> p0.q + p0.m * x[1] == y[1]
  {
    var mGuess := if x[0] - x[1] == 0.0 then NominalSlope else (y[0] - y[1]) / (x[0] - x[1]);
    Params(y[0] - mGuess * x[0], mGuess)
  }

  /** What linear_reg(X, Y) passes to curve_fit: Y as xdata, X as ydata (X is fitted as a
      function of Y), sigma 0.4 for every point, the initial guess. */
  function FitRequestFor(x: seq<real>, y: seq<real>): FitRequest
    requires |x| >= 2 && |y| >= 2
  {
    FitRequest(y, x, seq(|x|, _ => Sigma), InitialGuess(x, y))
  }

  /** linear_reg(X, Y) for a 3- or 4-point candidate: the fitted slope and intercept and the
      ranking score chisq_comp; None when curve_fit raises. */
  function LinearReg(curveFit: CurveFit, x: seq<real>, y: seq<real>): (r: Option<FitResult>)
    requires |x| == |y| && 3 <= |x| <= 4
    ensures r.None? <==> curveFit(FitRequestFor(x, y)).None?
    ensures r.Some? ==> r.value.m == curveFit(FitRequestFor(x, y)).value.m
    ensures r.Some? ==> r.value.q == curveFit(FitRequestFor(x, y)).value.q
    ensures r.Some? ==> r.value.chisqComp >= 0.0
  {
    var sigmaX := seq(|x|, _ => Sigma);
    match curveFit(FitRequestFor(x, y))
    case None => None
    case Some(pBest) =>
      var chi2 := Chisq(y, x, sigmaX, pBest.q, pBest.m);
      var dof := |x| - 2;
      Some(FitResult(pBest.m, pBest.q, ChisqComp(chi2, dof)))
  }

  /** Zero noise: when the fitted line passes through every point, chi-square is 0 and
      chisq_comp is |0 - dof| / sqrt(2 dof). */
  lemma LinearRegOnLine(curveFit: CurveFit, x: seq<real>, y: seq<real>)
    requires |x| == |y| && 3 <= |x| <= 4
    requires curveFit(FitRequestFor(x, y)).Some?
    requires forall k :: 0 <= k < |x| ==>
      x[k] == FitFunc(y[k], curveFit(FitRequestFor(x, y)).value.q, curveFit(FitRequestFor(x, y)).value.m)
    ensures LinearReg(curveFit, x, y).value.chisqComp * SqrtTwiceDof(|x| - 2) == (|x| - 2) as real
  {
    var p := curveFit(FitRequestFor(x, y)).value;
    ChisqOnLine(y, x, seq(|x|, _ => Sigma), p.q, p.m);
    ChisqCompMeaning(0.0, |x| - 2);
  }
}
