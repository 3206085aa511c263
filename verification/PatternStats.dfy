/** The least-squares line and the correlation coefficient of two series, in exact arithmetic. */
module PatternStats {
  /** A product, under a name so that a proof can take it as a whole. */
  function Times(a: real, b: real): real {
    a * b
  }

  function Sum(xs: seq<real>): real {
    if |xs| == 0 then 0.0 else Sum(xs[..|xs| - 1]) + xs[|xs| - 1]
  }

  function Mean(xs: seq<real>): real
    requires |xs| > 0
  {
    Sum(xs) / |xs| as real
  }

  /** The sum of the products of the deviations from `mx` and `my`. */
  function Cross(xs: seq<real>, ys: seq<real>, mx: real, my: real): real
    requires |xs| == |ys|
  {
    if |xs| == 0 then 0.0
    else
      var n := |xs| - 1;
      Cross(xs[..n], ys[..n], mx, my) + Times(xs[n] - mx, ys[n] - my)
  }

  function Covariation(xs: seq<real>, ys: seq<real>): real
    requires |xs| == |ys| > 0
  {
    Cross(xs, ys, Mean(xs), Mean(ys))
  }

  function Clamp(lo: real, hi: real, v: real): real {
    if v < lo then lo else if v > hi then hi else v
  }

  /** The share of the variation that a line accounts for. */
  function Explained(xs: seq<real>, ys: seq<real>): real
    requires |xs| == |ys| > 0
  {
    Share(Covariation(xs, ys), Covariation(xs, xs), Covariation(ys, ys))
  }

  function Share(sxy: real, sxx: real, syy: real): real {
    if sxx * syy > 0.0 then sxy * sxy / (sxx * syy) else 0.0
  }

  /** Slope and r-squared of a series of times and values. */
  function LinearRegressionSlope(xs: seq<real>, ys: seq<real>): (real, real)
    requires |xs| == |ys|
  {
    if |xs| < 2 then (0.0, 0.0)
    else if Covariation(xs, xs) == 0.0 then (0.0, 0.0)
    else (Covariation(xs, ys) / Covariation(xs, xs), Clamp(0.0, 1.0, Explained(xs, ys)))
  }

  function Tail(xs: seq<real>, n: nat): (r: seq<real>)
    requires n <= |xs|
    ensures |r| == n && forall i :: 0 <= i < n ==> r[i] == xs[|xs| - n + i]
  {
    xs[|xs| - n..]
  }

  /** Correlation over the common tail of two series. */
  function PearsonCorrelation(sqrt: real -> real, xs: seq<real>, ys: seq<real>): real {
    var n := if |xs| < |ys| then |xs| else |ys|;
    if n < 4 then 0.0
    else
      var us, vs := Tail(xs, n), Tail(ys, n);
      Correlation(Covariation(us, vs), sqrt(Covariation(us, us)), sqrt(Covariation(vs, vs)))
  }

  function Correlation(num: real, denX: real, denY: real): real {
    if denX == 0.0 || denY == 0.0 then 0.0
    else
      assert denX * denY != 0.0;
      Clamp(-1.0, 1.0, num / (denX * denY))
  }

  /** How far the line misses a point. */
  function Residual(x: real, y: real, slope: real, intercept: real): real {
    y - (slope * x + intercept)
  }

  /** The squared error of the line `slope * x + intercept`. */
  function SquaredError(xs: seq<real>, ys: seq<real>, slope: real, intercept: real): real
    requires |xs| == |ys|
  {
    if |xs| == 0 then 0.0
    else
      var n := |xs| - 1;
      var e := Residual(xs[n], ys[n], slope, intercept);
      SquaredError(xs[..n], ys[..n], slope, intercept) + Times(e, e)
  }

  // ---- Sums ----

  lemma TimesSign(p: real, q: real)
    requires p >= 0.0 && q >= 0.0
    ensures Times(p, q) >= 0.0 && (Times(p, q) > 0.0 <==> p > 0.0 && q > 0.0)
  {
  }

  lemma SquareSign(e: real)
    ensures Times(e, e) >= 0.0 && (Times(e, e) > 0.0 <==> e != 0.0)
  {
    assert Times(-e, -e) == Times(e, e);
    hide Times;
    if e >= 0.0 { TimesSign(e, e); } else { TimesSign(-e, -e); }
  }

  lemma {:induction false} SquaredErrorSign(xs: seq<real>, ys: seq<real>, slope: real, intercept: real)
    requires |xs| == |ys|
    ensures SquaredError(xs, ys, slope, intercept) >= 0.0
  {
    hide Times, Residual;
    if |xs| > 0 {
      var n := |xs| - 1;
      SquaredErrorSign(xs[..n], ys[..n], slope, intercept);
      SquareSign(Residual(xs[n], ys[n], slope, intercept));
    }
  }

  /** One term of the squared error, in deviations; `c` is how far the line misses the point of means. */
  function Term(dx: real, dy: real, a: real, c: real): real {
    Times(dy, dy) - 2.0 * a * Times(dx, dy) + a * a * Times(dx, dx) + c * c + 2.0 * c * dy - 2.0 * c * a * dx
  }

  /** The squared error in terms of the five sums. */
  function Expanded(syy: real, sxy: real, sxx: real, sy: real, sx: real, n: real, mx: real, my: real, a: real, c: real): real {
    syy - 2.0 * a * sxy + a * a * sxx + n * (c * c) + 2.0 * c * (sy - n * my) - 2.0 * c * a * (sx - n * mx)
  }

  lemma TermExpands(x: real, y: real, mx: real, my: real, a: real, b: real, c: real)
    requires c == my - a * mx - b
    ensures var e := Residual(x, y, a, b); Times(e, e) == Term(x - mx, y - my, a, c)
  {
    var dx, dy := x - mx, y - my;
    assert a * x == a * dx + a * mx;
    assert y - (a * x + b) == dy - a * dx + c;
    ThreeTerms(dx, dy, a, c);
  }

  lemma ThreeTerms(dx: real, dy: real, a: real, c: real)
    ensures Times(dy - a * dx + c, dy - a * dx + c) == Term(dx, dy, a, c)
  {
  }

  lemma ExpandedNext(syy: real, sxy: real, sxx: real, sy: real, sx: real, n: real, mx: real, my: real, a: real, c: real, x: real, y: real)
    ensures Expanded(syy + Times(y - my, y - my), sxy + Times(x - mx, y - my), sxx + Times(x - mx, x - mx), sy + y, sx + x, n + 1.0, mx, my, a, c)
         == Expanded(syy, sxy, sxx, sy, sx, n, mx, my, a, c) + Term(x - mx, y - my, a, c)
  {
  }

  lemma {:induction false} ErrorExpands(xs: seq<real>, ys: seq<real>, mx: real, my: real, a: real, b: real, c: real)
    requires |xs| == |ys| && c == my - a * mx - b
    ensures SquaredError(xs, ys, a, b) ==
            Expanded(Cross(ys, ys, my, my), Cross(xs, ys, mx, my), Cross(xs, xs, mx, mx), Sum(ys), Sum(xs), |xs| as real, mx, my, a, c)
  {
    hide Expanded, Times, Term, Residual;
    if |xs| > 0 {
      var k := |xs| - 1;
      var us, vs, x, y := xs[..k], ys[..k], xs[k], ys[k];
      ErrorExpands(us, vs, mx, my, a, b, c);
      TermExpands(x, y, mx, my, a, b, c);
      ExpandedNext(Cross(vs, vs, my, my), Cross(us, vs, mx, my), Cross(us, us, mx, mx), Sum(vs), Sum(us), k as real, mx, my, a, c, x, y);
      assert k as real + 1.0 == |xs| as real;
    } else {
      NothingExpanded(mx, my, a, c);
    }
  }

  lemma NothingExpanded(mx: real, my: real, a: real, c: real)
    ensures Expanded(0.0, 0.0, 0.0, 0.0, 0.0, 0.0, mx, my, a, c) == 0.0
  {
  }

  lemma MeanBalances(xs: seq<real>)
    requires |xs| > 0
    ensures |xs| as real * Mean(xs) == Sum(xs)
  {
  }

  /** The error of any line, about the means. */
  lemma ErrorAboutMeans(xs: seq<real>, ys: seq<real>, a: real, b: real, c: real)
    requires |xs| == |ys| > 0 && c == Mean(ys) - a * Mean(xs) - b
    ensures SquaredError(xs, ys, a, b)
         == Covariation(ys, ys) - 2.0 * a * Covariation(xs, ys) + a * a * Covariation(xs, xs) + |xs| as real * (c * c)
  {
    hide Cross, SquaredError, Mean, Sum;
    ErrorExpands(xs, ys, Mean(xs), Mean(ys), a, b, c);
    MeanBalances(xs);
    MeanBalances(ys);
    Balanced(Covariation(ys, ys), Covariation(xs, ys), Covariation(xs, xs), Sum(ys), Sum(xs), |xs| as real, Mean(xs), Mean(ys), a, c);
  }

  lemma Balanced(syy: real, sxy: real, sxx: real, sy: real, sx: real, n: real, mx: real, my: real, a: real, c: real)
    requires sy == n * my && sx == n * mx
    ensures Expanded(syy, sxy, sxx, sy, sx, n, mx, my, a, c) == syy - 2.0 * a * sxy + a * a * sxx + n * (c * c)
  {
  }

  // ---- The line ----

  /** The line through the point of means with the computed slope. */
  function Intercept(xs: seq<real>, ys: seq<real>): real
    requires |xs| == |ys| > 0
  {
    Mean(ys) - LinearRegressionSlope(xs, ys).0 * Mean(xs)
  }

  function LeastError(xs: seq<real>, ys: seq<real>): real
    requires |xs| == |ys| > 0
  {
    SquaredError(xs, ys, LinearRegressionSlope(xs, ys).0, Intercept(xs, ys))
  }

  lemma {:induction false} NoSpread(xs: seq<real>, ys: seq<real>, mx: real, my: real)
    requires |xs| == |ys|
    ensures Cross(xs, xs, mx, mx) >= 0.0
    ensures Cross(xs, xs, mx, mx) == 0.0 ==> Cross(xs, ys, mx, my) == 0.0
  {
    hide Times;
    if |xs| > 0 {
      var n := |xs| - 1;
      NoSpread(xs[..n], ys[..n], mx, my);
      SquareSign(xs[n] - mx);
      ZeroSquare(xs[n] - mx, ys[n] - my);
    }
  }

  lemma ZeroSquare(p: real, q: real)
    ensures Times(p, p) == 0.0 ==> Times(p, q) == 0.0
  {
    if p != 0.0 { assert p * p != 0.0; }
  }

  /** Completing the square. */
  lemma CompletedSquare(syy: real, sxy: real, sxx: real, n: real, a: real, c: real, m: real)
    requires m * sxx == sxy
    ensures syy - 2.0 * a * sxy + a * a * sxx + n * (c * c) == (syy - m * m * sxx) + sxx * ((a - m) * (a - m)) + n * (c * c)
  {
    assert a * sxy == a * m * sxx;
  }

  lemma SlopeBalances(xs: seq<real>, ys: seq<real>)
    requires |xs| == |ys| > 0
    ensures LinearRegressionSlope(xs, ys).0 * Covariation(xs, xs) == Covariation(xs, ys)
  {
    hide Cross, Mean;
    NoSpread(xs, ys, Mean(xs), Mean(ys));
    if |xs| == 1 {
      OnePoint(xs, ys);
    }
  }

  lemma OnePoint(xs: seq<real>, ys: seq<real>)
    requires |xs| == |ys| == 1
    ensures Covariation(xs, xs) == 0.0 && Covariation(xs, ys) == 0.0
  {
    assert Sum(xs[..0]) == 0.0;
    assert Mean(xs) == xs[0];
    assert Cross(xs[..0], xs[..0], Mean(xs), Mean(xs)) == 0.0 && Cross(xs[..0], ys[..0], Mean(xs), Mean(ys)) == 0.0;
  }

  lemma LeastErrorIs(xs: seq<real>, ys: seq<real>)
    requires |xs| == |ys| > 0
    ensures var m := LinearRegressionSlope(xs, ys).0; LeastError(xs, ys) == Covariation(ys, ys) - m * m * Covariation(xs, xs)
  {
    hide LinearRegressionSlope, Covariation;
    var m := LinearRegressionSlope(xs, ys).0;
    SlopeBalances(xs, ys);
    ErrorAboutMeans(xs, ys, m, Intercept(xs, ys), 0.0);
    CompletedSquare(Covariation(ys, ys), Covariation(xs, ys), Covariation(xs, xs), |xs| as real, m, 0.0, m);
  }

  /**
   No line has a smaller squared error than the one with the computed slope through the point of means,
   and when the times are not all the same no other line has as small a one.
   */
  lemma LeastSquares(xs: seq<real>, ys: seq<real>, slope: real, intercept: real)
    requires |xs| == |ys| > 0
    ensures LeastError(xs, ys) <= SquaredError(xs, ys, slope, intercept)
    ensures Covariation(xs, xs) != 0.0 ==>
              (SquaredError(xs, ys, slope, intercept) == LeastError(xs, ys)
               <==> slope == LinearRegressionSlope(xs, ys).0 && intercept == Intercept(xs, ys))
  {
    hide *;
    var m, c := LinearRegressionSlope(xs, ys).0, Mean(ys) - slope * Mean(xs) - intercept;
    ErrorAboutMeans(xs, ys, slope, intercept, c);
    SlopeBalances(xs, ys);
    LeastErrorIs(xs, ys);
    Spread(xs);
    BestLine(SquaredError(xs, ys, slope, intercept), LeastError(xs, ys), Covariation(ys, ys), Covariation(xs, ys), Covariation(xs, xs), |xs| as real, slope, c, m);
    MeetsMeans(xs, ys, slope, intercept, c);
  }

  lemma MeetsMeans(xs: seq<real>, ys: seq<real>, slope: real, intercept: real, c: real)
    requires |xs| == |ys| > 0 && c == Mean(ys) - slope * Mean(xs) - intercept
    ensures slope == LinearRegressionSlope(xs, ys).0 ==> (c == 0.0 <==> intercept == Intercept(xs, ys))
  {
    hide LinearRegressionSlope, Mean;
  }

  lemma BestLine(e: real, least: real, syy: real, sxy: real, sxx: real, n: real, a: real, c: real, m: real)
    requires e == syy - 2.0 * a * sxy + a * a * sxx + n * (c * c) && least == syy - m * m * sxx
    requires m * sxx == sxy && sxx >= 0.0 && n > 0.0
    ensures least <= e && (sxx != 0.0 ==> (e == least <==> a == m && c == 0.0))
  {
    CompletedSquare(syy, sxy, sxx, n, a, c, m);
    WeightedSquares(sxx, a - m, n, c);
    assert e - least == Weighted(sxx, a - m) + Weighted(n, c);
  }

  lemma Spread(xs: seq<real>)
    requires |xs| > 0
    ensures Covariation(xs, xs) >= 0.0
  {
    NoSpread(xs, xs, Mean(xs), Mean(xs));
  }

  function Weighted(p: real, d: real): real {
    Times(p, Times(d, d))
  }

  lemma WeightedSquares(p: real, d: real, n: real, c: real)
    requires p >= 0.0 && n > 0.0
    ensures Weighted(p, d) + Weighted(n, c) >= 0.0
    ensures p != 0.0 ==> (Weighted(p, d) + Weighted(n, c) == 0.0 <==> d == 0.0 && c == 0.0)
  {
    hide Weighted;
    Positive(p, d);
    Positive(n, c);
  }

  lemma Positive(p: real, d: real)
    requires p >= 0.0
    ensures Weighted(p, d) >= 0.0 && (p > 0.0 && d != 0.0 ==> Weighted(p, d) > 0.0) && (d == 0.0 ==> Weighted(p, d) == 0.0)
  {
    hide Times;
    SquareSign(d);
    TimesSign(p, Times(d, d));
  }

  // ---- r-squared ----

  lemma CauchySchwarz(xs: seq<real>, ys: seq<real>)
    requires |xs| == |ys| > 0
    ensures Covariation(xs, ys) * Covariation(xs, ys) <= Covariation(xs, xs) * Covariation(ys, ys)
  {
    var m := LinearRegressionSlope(xs, ys).0;
    hide LinearRegressionSlope, Covariation;
    SlopeBalances(xs, ys);
    LeastErrorIs(xs, ys);
    SquaredErrorSign(xs, ys, m, Intercept(xs, ys));
    Spread(xs);
    Scaled(Covariation(xs, ys), Covariation(xs, xs), Covariation(ys, ys), m);
  }

  lemma Scaled(sxy: real, sxx: real, syy: real, m: real)
    requires m * sxx == sxy && sxx >= 0.0 && syy - m * m * sxx >= 0.0
    ensures sxy * sxy <= sxx * syy
  {
    assert sxx * (syy - m * m * sxx) >= 0.0;
    assert sxx * (m * m * sxx) == sxy * sxy;
  }

  /**
   The reported r-squared is the share of the variation that the line accounts for: the clamp never
   changes it, and what is left over is the least squared error.
   */
  lemma RSquaredIsExplained(xs: seq<real>, ys: seq<real>)
    requires |xs| == |ys| > 0
    ensures var r2 := LinearRegressionSlope(xs, ys).1;
            && 0.0 <= r2 <= 1.0 && r2 == Explained(xs, ys)
            && LeastError(xs, ys) == (1.0 - r2) * Covariation(ys, ys)
  {
    hide *;
    var m := LinearRegressionSlope(xs, ys).0;
    var sxy, sxx, syy := Covariation(xs, ys), Covariation(xs, xs), Covariation(ys, ys);
    CauchySchwarz(xs, ys);
    ReportedShare(xs, ys);
    SlopeBalances(xs, ys);
    LeastErrorIs(xs, ys);
    Spread(xs);
    Spread(ys);
    ShareLeaves(sxy, sxx, syy, m);
  }

  lemma ReportedShare(xs: seq<real>, ys: seq<real>)
    requires |xs| == |ys| > 0
    ensures LinearRegressionSlope(xs, ys).1 == Clamp(0.0, 1.0, Explained(xs, ys))
    ensures Explained(xs, ys) == Share(Covariation(xs, ys), Covariation(xs, xs), Covariation(ys, ys))
    ensures 0.0 <= Explained(xs, ys) <= 1.0 ==> Clamp(0.0, 1.0, Explained(xs, ys)) == Explained(xs, ys)
  {
    if |xs| == 1 {
      OnePoint(xs, ys);
    }
    ShareOfNone(Covariation(xs, ys), Covariation(xs, xs), Covariation(ys, ys));
    hide Covariation, Share;
  }

  lemma ShareOfNone(sxy: real, sxx: real, syy: real)
    ensures sxx == 0.0 || syy == 0.0 ==> Share(sxy, sxx, syy) == 0.0
  {
  }

  lemma PositiveProduct(p: real, q: real)
    requires p > 0.0 && q > 0.0
    ensures p * q > 0.0
  {
  }

  lemma ShareLeaves(sxy: real, sxx: real, syy: real, m: real)
    requires sxx >= 0.0 && syy >= 0.0 && m * sxx == sxy && sxy * sxy <= sxx * syy
    ensures var r2 := Share(sxy, sxx, syy); 0.0 <= r2 <= 1.0 && syy - m * m * sxx == (1.0 - r2) * syy
  {
    if sxx > 0.0 && syy > 0.0 {
      ShareOfSome(sxy, sxx, syy, m);
    } else if sxx > 0.0 {
      NoSlope(sxy, sxx, syy, m);
      ShareOfNone(sxy, sxx, syy);
    } else {
      ShareOfNone(sxy, sxx, syy);
    }
  }

  /** Values that do not vary have slope 0. */
  lemma NoSlope(sxy: real, sxx: real, syy: real, m: real)
    requires sxx > 0.0 && syy == 0.0 && m * sxx == sxy && sxy * sxy <= sxx * syy
    ensures m == 0.0
  {
    SquareSign(sxy);
    assert sxy == 0.0;
  }

  lemma ShareOfSome(sxy: real, sxx: real, syy: real, m: real)
    requires sxx > 0.0 && syy > 0.0 && m * sxx == sxy && sxy * sxy <= sxx * syy
    ensures var r2 := Share(sxy, sxx, syy); 0.0 <= r2 <= 1.0 && syy - m * m * sxx == (1.0 - r2) * syy
  {
    PositiveProduct(sxx, syy);
    var d := sxx * syy;
    var r2 := sxy * sxy / d;
    assert r2 * d == sxy * sxy;
    assert sxy * sxy == (m * m * sxx) * sxx;
    assert r2 * syy * sxx == (m * m * sxx) * sxx;
    assert r2 * syy == m * m * sxx;
    Quotient(sxy * sxy, d);
  }

  lemma Quotient(p: real, d: real)
    requires d > 0.0 && 0.0 <= p <= d
    ensures 0.0 <= p / d <= 1.0
  {
  }

  /** Cauchy and Schwarz's inequality for sums of products, not only about the means. */
  lemma ProductsBound(xs: seq<real>, ys: seq<real>)
    requires |xs| == |ys|
    ensures Cross(xs, ys, 0.0, 0.0) * Cross(xs, ys, 0.0, 0.0) <= Cross(xs, xs, 0.0, 0.0) * Cross(ys, ys, 0.0, 0.0)
  {
    hide *;
    var sxy, sxx, syy := Cross(xs, ys, 0.0, 0.0), Cross(xs, xs, 0.0, 0.0), Cross(ys, ys, 0.0, 0.0);
    NoSpread(xs, ys, 0.0, 0.0);
    if sxx != 0.0 {
      var a := sxy / sxx;
      Divides(sxy, sxx, a);
      LineThroughOrigin(a);
      ErrorExpands(xs, ys, 0.0, 0.0, a, 0.0, 0.0);
      AtBestSlope(syy, sxy, sxx, Sum(ys), Sum(xs), |xs| as real, a);
      SquaredErrorSign(xs, ys, a, 0.0);
      Scaled(sxy, sxx, syy, a);
    } else {
      ZeroTimes(sxx, syy);
    }
  }

  lemma LineThroughOrigin(a: real)
    ensures 0.0 == 0.0 - a * 0.0 - 0.0
  {
  }

  lemma ZeroTimes(p: real, q: real)
    ensures p == 0.0 ==> p * q == 0.0 && 0.0 * 0.0 == 0.0
  {
  }

  lemma AtBestSlope(syy: real, sxy: real, sxx: real, sy: real, sx: real, n: real, a: real)
    requires a * sxx == sxy
    ensures Expanded(syy, sxy, sxx, sy, sx, n, 0.0, 0.0, a, 0.0) == syy - a * a * sxx
  {
    assert a * sxy == a * a * sxx;
  }

  lemma Divides(p: real, q: real, a: real)
    requires q != 0.0 && a == p / q
    ensures a * q == p
  {
  }

  // ---- Correlation ----

  /** A square root on the numbers that have one. */
  ghost predicate IsSqrt(sqrt: real -> real) {
    forall v: real :: v >= 0.0 ==> sqrt(v) >= 0.0 && Times(sqrt(v), sqrt(v)) == v
  }

  /**
   Over at least four common points the coefficient is 0 when one of the series does not vary; otherwise
   the clamp never changes it, and its square is the share of the variation a line accounts for.
   */
  lemma PearsonMeaning(sqrt: real -> real, xs: seq<real>, ys: seq<real>)
    requires IsSqrt(sqrt)
    ensures var n, r := if |xs| < |ys| then |xs| else |ys|, PearsonCorrelation(sqrt, xs, ys);
            if n < 4 then r == 0.0
            else
              var us, vs := Tail(xs, n), Tail(ys, n);
              if Covariation(us, us) == 0.0 || Covariation(vs, vs) == 0.0 then r == 0.0
              else
                && -1.0 <= r <= 1.0 && Times(r, r) == Explained(us, vs)
                && Times(r, Times(sqrt(Covariation(us, us)), sqrt(Covariation(vs, vs)))) == Covariation(us, vs)
  {
    hide IsSqrt, Covariation, Explained, Tail, Times, Correlation;
    var n := if |xs| < |ys| then |xs| else |ys|;
    if n >= 4 {
      PearsonOfTails(sqrt, xs, ys, n);
    }
  }

  lemma PearsonOfTails(sqrt: real -> real, xs: seq<real>, ys: seq<real>, n: nat)
    requires IsSqrt(sqrt) && n == (if |xs| < |ys| then |xs| else |ys|) && n >= 4
    ensures var us, vs, r := Tail(xs, n), Tail(ys, n), PearsonCorrelation(sqrt, xs, ys);
            if Covariation(us, us) == 0.0 || Covariation(vs, vs) == 0.0 then r == 0.0
            else
              && -1.0 <= r <= 1.0 && Times(r, r) == Explained(us, vs)
              && Times(r, Times(sqrt(Covariation(us, us)), sqrt(Covariation(vs, vs)))) == Covariation(us, vs)
  {
    hide *;
    var us, vs := Tail(xs, n), Tail(ys, n);
    var sxy, sxx, syy := Covariation(us, vs), Covariation(us, us), Covariation(vs, vs);
    Spread(us);
    Spread(vs);
    CauchySchwarz(us, vs);
    SqrtIs(sqrt, sxx);
    SqrtIs(sqrt, syy);
    PearsonIs(sqrt, xs, ys, n);
    CorrelationMeaning(sxy, sxx, syy, sqrt(sxx), sqrt(syy));
  }

  lemma SqrtIs(sqrt: real -> real, v: real)
    requires IsSqrt(sqrt) && v >= 0.0
    ensures sqrt(v) >= 0.0 && Times(sqrt(v), sqrt(v)) == v
  {
    hide Times;
  }

  lemma PearsonIs(sqrt: real -> real, xs: seq<real>, ys: seq<real>, n: nat)
    requires n == (if |xs| < |ys| then |xs| else |ys|) && n >= 4
    ensures var us, vs := Tail(xs, n), Tail(ys, n);
            && PearsonCorrelation(sqrt, xs, ys) == Correlation(Covariation(us, vs), sqrt(Covariation(us, us)), sqrt(Covariation(vs, vs)))
            && Explained(us, vs) == Share(Covariation(us, vs), Covariation(us, us), Covariation(vs, vs))
  {
    hide Covariation, Tail, Correlation;
  }

  /** `p` and `q` are the square roots of the variations. */
  lemma CorrelationMeaning(sxy: real, sxx: real, syy: real, p: real, q: real)
    requires p >= 0.0 && q >= 0.0 && Times(p, p) == sxx && Times(q, q) == syy && sxy * sxy <= sxx * syy
    ensures var r := Correlation(sxy, p, q);
            if sxx == 0.0 || syy == 0.0 then r == 0.0
            else -1.0 <= r <= 1.0 && Times(r, r) == Share(sxy, sxx, syy) && Times(r, Times(p, q)) == sxy
  {
    if sxx != 0.0 && syy != 0.0 {
      PositiveProduct(p, q);
      PositiveProduct(sxx, syy);
      RootOfProduct(p, q, sxx, syy);
      Coefficient(sxy, p * q, sxx * syy);
    } else {
      RootIsZero(p, sxx);
      RootIsZero(q, syy);
    }
  }

  lemma RootIsZero(p: real, v: real)
    requires p >= 0.0 && Times(p, p) == v
    ensures v == 0.0 ==> p == 0.0
  {
    hide Times;
    SquareSign(p);
  }

  lemma RootOfProduct(p: real, q: real, a: real, b: real)
    requires p * p == a && q * q == b
    ensures (p * q) * (p * q) == a * b
  {
    assert (p * q) * (p * q) == (p * p) * (q * q);
  }

  lemma Coefficient(num: real, den: real, d: real)
    requires den > 0.0 && d > 0.0 && den * den == d && num * num <= d
    ensures -1.0 <= num / den <= 1.0 && (num / den) * (num / den) == num * num / d && (num / den) * den == num
  {
    var r := num / den;
    assert r * den == num;
    assert (r * r) * (den * den) == (r * den) * (r * den);
    Larger(r, den);
    Larger(-r, den);
  }

  lemma Larger(r: real, den: real)
    requires den > 0.0
    ensures r > 1.0 ==> (r * den) * (r * den) > den * den
  {
    if r > 1.0 { assert r * den > den; }
  }
}
