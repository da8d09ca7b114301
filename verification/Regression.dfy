/**
 The performance analyzer's linear regression over equally spaced values, with exact reals: trend
 labels and forecasts. Standard deviations are compared through variances.
 */
module Regression {
  import opened Common

  // ---------- The sums over a series ----------

  function SumX(n: nat): real
  {
    if n == 0 then 0.0 else SumX(n - 1) + (n - 1) as real
  }

  function SumXX(n: nat): real
  {
    if n == 0 then 0.0 else SumXX(n - 1) + (n - 1) as real * (n - 1) as real
  }

  function SumY(v: seq<real>): real
  {
    if v == [] then 0.0 else SumY(v[..|v| - 1]) + v[|v| - 1]
  }

  function SumXY(v: seq<real>): real
  {
    if v == [] then 0.0 else SumXY(v[..|v| - 1]) + (|v| - 1) as real * v[|v| - 1]
  }

  function SumYY(v: seq<real>): real
  {
    if v == [] then 0.0 else SumYY(v[..|v| - 1]) + v[|v| - 1] * v[|v| - 1]
  }

  datatype Sums = Sums(n: real, sx: real, sxx: real, sy: real, sxy: real, syy: real)

  function SumsOf(v: seq<real>): Sums
  {
    Sums(|v| as real, SumX(|v|), SumXX(|v|), SumY(v), SumXY(v), SumYY(v))
  }

  function Denominator(s: Sums): real
  {
    s.n * s.sxx - s.sx * s.sx
  }

  function Numerator(s: Sums): real
  {
    s.n * s.sxy - s.sx * s.sy
  }

  predicate Regular(s: Sums)
  {
    s.n > 0.0 && Denominator(s) > 0.0
  }

  lemma {:induction false} SumClosedForms(n: nat)
    ensures 2.0 * SumX(n) == n as real * (n as real - 1.0)
    ensures 6.0 * SumXX(n) == n as real * (n as real - 1.0) * (2.0 * n as real - 1.0)
  {
    if n == 0 {
    } else {
      SumClosedForms(n - 1);
      CubeStep(n as real);
    }
  }

  lemma CubeStep(x: real)
    ensures (x - 1.0) * (x - 2.0) + 2.0 * (x - 1.0) == x * (x - 1.0)
    ensures (x - 1.0) * (x - 2.0) * (2.0 * (x - 1.0) - 1.0) + 6.0 * ((x - 1.0) * (x - 1.0)) ==
            x * (x - 1.0) * (2.0 * x - 1.0)
  {
  }

  /** The denominator depends on the length only: `12 D = n^2 (n^2 - 1)`. */
  lemma DenominatorClosedForm(v: seq<real>)
    ensures var n := |v| as real; 12.0 * Denominator(SumsOf(v)) == (n * n) * (n * n - 1.0)
  {
    SumClosedForms(|v|);
    DenominatorAlgebra(|v| as real, SumX(|v|), SumXX(|v|));
  }

  lemma DenominatorAlgebra(x: real, a: real, b: real)
    requires 2.0 * a == x * (x - 1.0)
    requires 6.0 * b == x * (x - 1.0) * (2.0 * x - 1.0)
    ensures 12.0 * (x * b - a * a) == (x * x) * (x * x - 1.0)
  {
    calc {
      12.0 * (x * b - a * a);
      2.0 * x * (6.0 * b) - 3.0 * ((2.0 * a) * (2.0 * a));
      2.0 * x * (x * (x - 1.0) * (2.0 * x - 1.0)) - 3.0 * ((x * (x - 1.0)) * (x * (x - 1.0)));
      (x * x) * (x * x - 1.0);
    }
  }

  /** From two values on the regression divides by a positive number. */
  lemma TwoValuesAreRegular(v: seq<real>)
    requires |v| >= 2
    ensures Regular(SumsOf(v))
  {
    DenominatorClosedForm(v);
    PositiveSquare(|v| as real);
  }

  lemma PositiveSquare(x: real)
    requires x >= 2.0
    ensures (x * x) * (x * x - 1.0) > 0.0
  {
    var s := x * x;
    assert s >= 4.0 by { assert (x - 2.0) * (x + 2.0) >= 0.0; }
    assert s * (s - 1.0) > 0.0;
  }

  // ---------- Slope, intercept, forecast ----------

  function SlopeOf(s: Sums): real
    requires Regular(s)
  {
    Numerator(s) / Denominator(s)
  }

  function InterceptOf(s: Sums): real
    requires Regular(s)
  {
    (s.sy - SlopeOf(s) * s.sx) / s.n
  }

  function Slope(v: seq<real>): real
    requires |v| >= 2
  {
    TwoValuesAreRegular(v);
    SlopeOf(SumsOf(v))
  }

  function Intercept(v: seq<real>): real
    requires |v| >= 2
  {
    TwoValuesAreRegular(v);
    InterceptOf(SumsOf(v))
  }

  /** Fewer than two values have no line: the last value, or zero, is returned. */
  function ExtrapolateTrend(v: seq<real>, stepsAhead: nat): real
  {
    if |v| < 2 then if v == [] then 0.0 else v[|v| - 1]
    else Slope(v) * (|v| + stepsAhead - 1) as real + Intercept(v)
  }

  /** The normal equations of the line `a + b * i`. */
  predicate Normal(s: Sums, a: real, b: real)
  {
    s.n * a + b * s.sx == s.sy && a * s.sx + b * s.sxx == s.sxy
  }

  lemma NormalEquations(s: Sums)
    requires Regular(s)
    ensures Normal(s, InterceptOf(s), SlopeOf(s))
  {
    var a, b := InterceptOf(s), SlopeOf(s);
    Divide(Numerator(s), Denominator(s), b);
    Divide(s.sy - b * s.sx, s.n, a);
    ScaledEquation(s.n, s.sx, s.sxx, s.sy, s.sxy, b, a);
    Cancel(s.n, a * s.sx + b * s.sxx, s.sxy);
  }

  lemma Divide(x: real, d: real, q: real)
    requires d > 0.0 && q == x / d
    ensures q * d == x && d * q == x
  {
  }

  lemma ScaledEquation(n: real, sx: real, sxx: real, sy: real, sxy: real, b: real, a: real)
    requires b * (n * sxx - sx * sx) == n * sxy - sx * sy
    requires n * a == sy - b * sx
    ensures n * (a * sx + b * sxx) == n * sxy
  {
    calc {
      n * (a * sx + b * sxx);
      (n * a) * sx + b * (n * sxx);
      (sy - b * sx) * sx + b * (n * sxx);
      sy * sx + b * (n * sxx - sx * sx);
      n * sxy;
    }
  }

  lemma Cancel(n: real, x: real, y: real)
    requires n > 0.0 && n * x == n * y
    ensures x == y
  {
    assert n * (x - y) == 0.0;
    if x > y {
      PositiveProduct(n, x - y);
    } else if y > x {
      PositiveProduct(n, y - x);
    }
  }

  lemma PositiveProduct(a: real, b: real)
    requires a > 0.0 && b > 0.0
    ensures a * b > 0.0
  {
  }

  // ---------- Least squares ----------

  /** The sum of squared residuals of the line `a + b * i`. */
  function Residual(v: seq<real>, a: real, b: real): real
  {
    if v == [] then 0.0 else
      Residual(v[..|v| - 1], a, b) + Square(v[|v| - 1] - (a + b * (|v| - 1) as real))
  }

  function Square(x: real): real
  {
    x * x
  }

  /** The residual as a quadratic in the line's coefficients. */
  function Quadratic(s: Sums, a: real, b: real): real
  {
    s.syy - 2.0 * (a * s.sy) - 2.0 * (b * s.sxy) + a * a * s.n + 2.0 * (a * b * s.sx) + b * b * s.sxx
  }

  /** The sums after one more value `y` at index `s.n`. */
  function Extended(s: Sums, y: real): Sums
  {
    Sums(s.n + 1.0, s.sx + s.n, s.sxx + s.n * s.n, s.sy + y, s.sxy + s.n * y, s.syy + y * y)
  }

  lemma SumsExtend(v: seq<real>)
    requires v != []
    ensures SumsOf(v) == Extended(SumsOf(v[..|v| - 1]), v[|v| - 1])
  {
  }

  lemma QuadraticStep(s: Sums, a: real, b: real, y: real)
    ensures Quadratic(Extended(s, y), a, b) == Quadratic(s, a, b) + Square(y - (a + b * s.n))
  {
  }

  lemma QuadraticZero(a: real, b: real)
    ensures Quadratic(Sums(0.0, 0.0, 0.0, 0.0, 0.0, 0.0), a, b) == 0.0
  {
  }

  lemma {:induction false} ResidualExpands(v: seq<real>, a: real, b: real)
    ensures Residual(v, a, b) == Quadratic(SumsOf(v), a, b)
  {
    if v == [] {
      QuadraticZero(a, b);
    } else {
      var w, y := v[..|v| - 1], v[|v| - 1];
      calc {
        Residual(v, a, b);
        Residual(w, a, b) + Square(y - (a + b * |w| as real));
        { ResidualExpands(w, a, b); }
        Quadratic(SumsOf(w), a, b) + Square(y - (a + b * |w| as real));
        { QuadraticStep(SumsOf(w), a, b, y); }
        Quadratic(Extended(SumsOf(w), y), a, b);
        { SumsExtend(v); }
        Quadratic(SumsOf(v), a, b);
      }
    }
  }

  /** What changing a line by `(da, db)` adds to its residual, if it solves the normal equations. */
  function Added(s: Sums, da: real, db: real): real
  {
    da * da * s.n + 2.0 * (da * db * s.sx) + db * db * s.sxx
  }

  lemma GapExpansion(s: Sums, a: real, b: real, da: real, db: real)
    ensures Quadratic(s, a + da, b + db) ==
            Quadratic(s, a, b) + Added(s, da, db)
            + 2.0 * (da * (s.n * a + b * s.sx - s.sy)) + 2.0 * (db * (a * s.sx + b * s.sxx - s.sxy))
  {
  }

  lemma QuadraticGap(s: Sums, a: real, b: real, da: real, db: real)
    requires Normal(s, a, b)
    ensures Quadratic(s, a + da, b + db) == Quadratic(s, a, b) + Added(s, da, db)
  {
    GapExpansion(s, a, b, da, db);
    assert da * (s.n * a + b * s.sx - s.sy) == 0.0;
    assert db * (a * s.sx + b * s.sxx - s.sxy) == 0.0;
  }

  lemma CompleteSquare(s: Sums, da: real, db: real)
    ensures s.n * Added(s, da, db) == Square(s.n * da + s.sx * db) + Denominator(s) * Square(db)
  {
  }

  lemma SquareSign(x: real)
    ensures Square(x) >= 0.0
    ensures x != 0.0 ==> Square(x) > 0.0
  {
    if x != 0.0 {
      calc {
        Square(x);
        x * x;
      >  { ProductPositive(x, x); }
        0.0;
      }
    }
  }

  lemma ProductPositive(a: real, b: real)
    requires (a > 0.0 && b > 0.0) || (a < 0.0 && b < 0.0)
    ensures a * b > 0.0
  {
  }

  lemma ProductSign(n: real, x: real)
    requires n > 0.0
    ensures x >= 0.0 <==> n * x >= 0.0
    ensures x == 0.0 <==> n * x == 0.0
    ensures x > 0.0 <==> n * x > 0.0
  {
    if x > 0.0 {
      PositiveProduct(n, x);
    } else if x < 0.0 {
      PositiveProduct(n, -x);
    }
  }

  /** A positive denominator makes the added form positive definite. */
  lemma AddedIsPositive(s: Sums, da: real, db: real)
    requires Regular(s)
    ensures Added(s, da, db) >= 0.0
    ensures Added(s, da, db) == 0.0 ==> da == 0.0 && db == 0.0
  {
    var u, d := s.n * da + s.sx * db, Denominator(s);
    CompleteSquare(s, da, db);
    SquareSign(u);
    SquareSign(db);
    ProductSign(d, Square(db));
    ProductSign(s.n, Added(s, da, db));
    if Added(s, da, db) == 0.0 {
      assert db == 0.0;
      assert u == s.n * da;
      ProductSign(s.n, da);
    }
  }

  lemma NormalSolutionIsBest(s: Sums, a0: real, b0: real, a: real, b: real)
    requires Regular(s) && Normal(s, a0, b0)
    ensures Quadratic(s, a0, b0) <= Quadratic(s, a, b)
    ensures Quadratic(s, a0, b0) == Quadratic(s, a, b) ==> a == a0 && b == b0
  {
    var da, db := a - a0, b - b0;
    QuadraticGap(s, a0, b0, da, db);
    assert a0 + da == a && b0 + db == b;
    AddedIsPositive(s, da, db);
  }

  /**
   The computed line is the unique least-squares line: no other line has a smaller sum of squared
   residuals, and only the same line has an equal one.
   */
  lemma LeastSquares(v: seq<real>, a: real, b: real)
    requires |v| >= 2
    ensures Residual(v, Intercept(v), Slope(v)) <= Residual(v, a, b)
    ensures Residual(v, Intercept(v), Slope(v)) == Residual(v, a, b) ==> a == Intercept(v) && b == Slope(v)
  {
    TwoValuesAreRegular(v);
    NormalEquations(SumsOf(v));
    ResidualExpands(v, Intercept(v), Slope(v));
    ResidualExpands(v, a, b);
    NormalSolutionIsBest(SumsOf(v), Intercept(v), Slope(v), a, b);
  }

  // ---------- Exactly linear data ----------

  ghost predicate IsLine(v: seq<real>, a: real, b: real)
  {
    forall i :: 0 <= i < |v| ==> v[i] == a + b * i as real
  }

  lemma {:induction false} LineResidual(v: seq<real>, a: real, b: real)
    requires IsLine(v, a, b)
    ensures Residual(v, a, b) == 0.0
  {
    if v == [] {
    } else {
      LineResidual(v[..|v| - 1], a, b);
    }
  }

  lemma {:induction false} ResidualNonNegative(v: seq<real>, a: real, b: real)
    ensures Residual(v, a, b) >= 0.0
  {
    if v == [] {
    } else {
      ResidualNonNegative(v[..|v| - 1], a, b);
      SquareSign(v[|v| - 1] - (a + b * (|v| - 1) as real));
    }
  }

  /** On the line `a + b * i` the forecast is the line's own value `steps` past the last index. */
  lemma ForecastExactOnLines(v: seq<real>, a: real, b: real, steps: nat)
    requires |v| >= 2 && IsLine(v, a, b)
    ensures Slope(v) == b && Intercept(v) == a
    ensures ExtrapolateTrend(v, steps) == a + b * (|v| + steps - 1) as real
  {
    LineResidual(v, a, b);
    ResidualNonNegative(v, Intercept(v), Slope(v));
    LeastSquares(v, a, b);
  }

  // ---------- Monotone series: the Chebyshev sum inequality ----------

  /** Appending `y` changes the numerator by a weighted sum of the rises from every earlier value. */
  function Rises(v: seq<real>, n: real, y: real): real
  {
    if v == [] then 0.0 else Rises(v[..|v| - 1], n, y) + (n - (|v| - 1) as real) * (y - v[|v| - 1])
  }

  function Weighted(s: Sums, n: real, y: real): real
  {
    n * s.n * y - s.sx * y - n * s.sy + s.sxy
  }

  lemma {:induction false} RisesExpand(v: seq<real>, n: real, y: real)
    ensures Rises(v, n, y) == Weighted(SumsOf(v), n, y)
  {
    if v == [] {
      WeightedZero(n, y);
    } else {
      var w := v[..|v| - 1];
      RisesExpand(w, n, y);
      SumsExtend(v);
      WeightedStep(SumsOf(w), n, v[|v| - 1], y);
    }
  }

  lemma WeightedZero(n: real, y: real)
    ensures Weighted(Sums(0.0, 0.0, 0.0, 0.0, 0.0, 0.0), n, y) == 0.0
  {
  }

  lemma WeightedStep(s: Sums, n: real, x: real, y: real)
    ensures Weighted(Extended(s, x), n, y) == Weighted(s, n, y) + (n - s.n) * (y - x)
  {
  }

  lemma NumeratorStep(s: Sums, y: real)
    ensures Numerator(Extended(s, y)) == Numerator(s) + Weighted(s, s.n, y)
  {
  }

  lemma {:induction false} RisesSign(v: seq<real>, n: real, y: real)
    requires n >= |v| as real
    requires forall i :: 0 <= i < |v| ==> v[i] <= y
    ensures Rises(v, n, y) >= 0.0
    ensures v != [] && v[0] < y ==> Rises(v, n, y) > 0.0
  {
    if v == [] {
    } else {
      var w, x := v[..|v| - 1], v[|v| - 1];
      RisesSign(w, n, y);
      var gap, rise := n - |w| as real, y - x;
      assert gap > 0.0;
      ProductSign(gap, rise);
      assert Rises(v, n, y) == Rises(w, n, y) + gap * rise;
      if v[0] < y {
        if |v| == 1 {
          PositiveProduct(gap, rise);
        } else {
          assert w[0] == v[0];
        }
      }
    }
  }

  lemma {:induction false} ChebyshevSum(v: seq<real>)
    requires NonDecreasing(v)
    ensures Numerator(SumsOf(v)) >= 0.0
    ensures |v| >= 2 && v[0] < v[|v| - 1] ==> Numerator(SumsOf(v)) > 0.0
  {
    if v == [] {
    } else {
      var w, y := v[..|v| - 1], v[|v| - 1];
      ChebyshevSum(w);
      SumsExtend(v);
      NumeratorStep(SumsOf(w), y);
      RisesExpand(w, |w| as real, y);
      RisesSign(w, |w| as real, y);
    }
  }

  /** A non-decreasing series has a non-negative slope, and a positive one unless it is constant. */
  lemma MonotoneSlope(v: seq<real>)
    requires |v| >= 2 && NonDecreasing(v)
    ensures Slope(v) >= 0.0
    ensures Slope(v) > 0.0 <==> v[0] < v[|v| - 1]
  {
    ChebyshevSum(v);
    TwoValuesAreRegular(v);
    var s := SumsOf(v);
    Divide(Numerator(s), Denominator(s), Slope(v));
    ProductSign(Denominator(s), Slope(v));
    if v[0] >= v[|v| - 1] {
      assert IsLine(v, v[0], 0.0);
      ForecastExactOnLines(v, v[0], 0.0, 0);
    }
  }

  // ---------- Reversal ----------

  function Reverse(v: seq<real>): (r: seq<real>)
    ensures |r| == |v|
    ensures forall i :: 0 <= i < |v| ==> r[i] == v[|v| - 1 - i]
  {
    if v == [] then [] else [v[|v| - 1]] + Reverse(v[..|v| - 1])
  }

  /** The sums after putting `y` in front: every index moves up by one. */
  function Shifted(s: Sums, y: real): Sums
  {
    Sums(s.n + 1.0, s.sx + s.n, s.sxx + s.n * s.n, y + s.sy, s.sxy + s.sy, y * y + s.syy)
  }

  lemma {:induction false} SumsShift(y: real, v: seq<real>)
    ensures SumsOf([y] + v) == Shifted(SumsOf(v), y)
  {
    var t := [y] + v;
    SumsExtend(t);
    if v == [] {
      assert t[..0] == [];
    } else {
      var n := |v| - 1;
      SumsShift(y, v[..n]);
      assert t[..n + 1] == [y] + v[..n];
      SumsExtend(v);
      ShiftExtend(SumsOf(v[..n]), y, v[n]);
    }
  }

  lemma ShiftExtend(s: Sums, y: real, last: real)
    ensures Extended(Shifted(s, y), last).sy == Shifted(Extended(s, last), y).sy
    ensures Extended(Shifted(s, y), last).sxy == Shifted(Extended(s, last), y).sxy
    ensures Extended(Shifted(s, y), last).syy == Shifted(Extended(s, last), y).syy
  {
  }

  /** The sums of the reversed series. */
  function Flipped(s: Sums): Sums
  {
    s.(sxy := (s.n - 1.0) * s.sy - s.sxy)
  }

  lemma FlipExtend(s: Sums, y: real)
    ensures Shifted(Flipped(s), y) == Flipped(Extended(s, y))
  {
    assert (s.n + 1.0 - 1.0) * (s.sy + y) - (s.sxy + s.n * y) == (s.n - 1.0) * s.sy - s.sxy + s.sy;
  }

  lemma {:induction false} ReverseSums(v: seq<real>)
    ensures SumsOf(Reverse(v)) == Flipped(SumsOf(v))
  {
    if v == [] {
    } else {
      var w, y := v[..|v| - 1], v[|v| - 1];
      ReverseSums(w);
      SumsShift(y, Reverse(w));
      SumsExtend(v);
      FlipExtend(SumsOf(w), y);
    }
  }

  lemma FlipNegates(s: Sums)
    requires 2.0 * s.sx == s.n * (s.n - 1.0)
    ensures Numerator(Flipped(s)) == -Numerator(s)
    ensures Denominator(Flipped(s)) == Denominator(s)
  {
    assert s.n * ((s.n - 1.0) * s.sy) == (s.n * (s.n - 1.0)) * s.sy == (2.0 * s.sx) * s.sy;
  }

  lemma SlopeFlips(s: Sums)
    requires Regular(s) && 2.0 * s.sx == s.n * (s.n - 1.0)
    ensures Regular(Flipped(s)) && SlopeOf(Flipped(s)) == -SlopeOf(s)
  {
    FlipNegates(s);
    NegateQuotient(Numerator(s), Denominator(s));
  }

  lemma NegateQuotient(x: real, d: real)
    requires d > 0.0
    ensures (-x) / d == -(x / d)
  {
  }

  lemma TwiceSumX(n: nat)
    ensures 2.0 * SumX(n) == n as real * (n as real - 1.0)
  {
    SumClosedForms(n);
  }

  lemma ReverseNegatesSlope(v: seq<real>)
    requires |v| >= 2
    ensures Slope(Reverse(v)) == -Slope(v)
  {
    TwoValuesAreRegular(v);
    TwiceSumX(|v|);
    SlopeFlips(SumsOf(v));
    ReverseSums(v);
  }

  // ---------- Trend labels ----------

  datatype Trend = Improving | Stable | Degrading | Volatile

  function Mean(v: seq<real>): real
    requires v != []
  {
    SumY(v) / |v| as real
  }

  function Deviations(v: seq<real>, m: real): real
  {
    if v == [] then 0.0 else Deviations(v[..|v| - 1], m) + Square(v[|v| - 1] - m)
  }

  function Variance(v: seq<real>): real
    requires v != []
  {
    Deviations(v, Mean(v)) / |v| as real
  }

  /** The coefficient of variation exceeds 0.3, with both sides squared; a zero mean counts as 0. */
  predicate IsVolatile(v: seq<real>)
    requires v != []
  {
    Mean(v) != 0.0 && Variance(v) > 0.09 * Square(Mean(v))
  }

  function AnalyzeMetricTrend(v: seq<real>): Trend
  {
    if |v| < 3 then Stable
    else if IsVolatile(v) then Volatile
    else if -0.01 < Slope(v) < 0.01 then Stable
    else if Slope(v) > 0.0 then Improving
    else Degrading
  }

  /** A series that never falls is never labelled as degrading. */
  lemma MonotoneNeverDegrading(v: seq<real>)
    requires NonDecreasing(v)
    ensures AnalyzeMetricTrend(v) != Degrading
  {
    if |v| >= 3 {
      MonotoneSlope(v);
    }
  }

  function Spread(s: Sums, m: real): real
  {
    s.syy - 2.0 * (m * s.sy) + s.n * (m * m)
  }

  lemma SpreadStep(s: Sums, m: real, y: real)
    ensures Spread(Extended(s, y), m) == Spread(s, m) + Square(y - m)
  {
  }

  lemma SpreadZero(m: real)
    ensures Spread(Sums(0.0, 0.0, 0.0, 0.0, 0.0, 0.0), m) == 0.0
  {
  }

  lemma {:induction false} DeviationsExpand(v: seq<real>, m: real)
    ensures Deviations(v, m) == Spread(SumsOf(v), m)
  {
    if v == [] {
      SpreadZero(m);
    } else {
      var w := v[..|v| - 1];
      DeviationsExpand(w, m);
      SumsExtend(v);
      SpreadStep(SumsOf(w), m, v[|v| - 1]);
    }
  }

  predicate SumsVolatile(s: Sums)
    requires s.n > 0.0
  {
    var m := s.sy / s.n;
    m != 0.0 && Spread(s, m) / s.n > 0.09 * Square(m)
  }

  lemma VolatilityFromSums(v: seq<real>)
    requires v != []
    ensures IsVolatile(v) <==> SumsVolatile(SumsOf(v))
  {
    DeviationsExpand(v, Mean(v));
  }

  lemma ReverseKeepsVolatility(v: seq<real>)
    requires v != []
    ensures IsVolatile(Reverse(v)) <==> IsVolatile(v)
  {
    VolatilityFromSums(v);
    VolatilityFromSums(Reverse(v));
    ReverseSums(v);
    FlipKeepsVolatility(SumsOf(v));
  }

  lemma FlipKeepsVolatility(s: Sums)
    requires s.n > 0.0
    ensures SumsVolatile(Flipped(s)) <==> SumsVolatile(s)
  {
  }

  /** Reversing time swaps improving and degrading and keeps the other two labels. */
  lemma ReverseSwapsTrend(v: seq<real>)
    ensures AnalyzeMetricTrend(Reverse(v)) ==
            match AnalyzeMetricTrend(v)
            case Improving => Degrading
            case Degrading => Improving
            case other => other
  {
    if |v| >= 3 {
      ReverseKeepsVolatility(v);
      ReverseNegatesSlope(v);
    }
  }

  // ---------- What forecasts and labels mean ----------

  /** No line has a smaller sum of squared residuals. */
  ghost predicate IsBestLine(v: seq<real>, a: real, b: real)
  {
    forall c: real, d: real :: Residual(v, a, b) <= Residual(v, c, d)
  }

  lemma BestLineUnique(v: seq<real>, a: real, b: real)
    requires |v| >= 2 && IsBestLine(v, a, b)
    ensures a == Intercept(v) && b == Slope(v)
  {
    LeastSquares(v, a, b);
    assert Residual(v, a, b) <= Residual(v, Intercept(v), Slope(v));
  }

  /** The forecast lies on the best line, `steps` past the last index; without a line it is the last value. */
  lemma ForecastOnBestLine(v: seq<real>, a: real, b: real, steps: nat)
    ensures |v| >= 2 && IsBestLine(v, a, b) ==> ExtrapolateTrend(v, steps) == a + b * (|v| - 1 + steps) as real
    ensures |v| == 1 ==> ExtrapolateTrend(v, steps) == v[0]
    ensures v == [] ==> ExtrapolateTrend(v, steps) == 0.0
  {
    if |v| >= 2 && IsBestLine(v, a, b) {
      BestLineUnique(v, a, b);
    }
  }

  /** The mean of the values and the mean square of their deviations from it. */
  ghost predicate HasMoments(v: seq<real>, mean: real, square: real)
  {
    mean * |v| as real == SumY(v) && square * |v| as real == Residual(v, mean, 0.0)
  }

  lemma {:induction false} DeviationsAreResiduals(v: seq<real>, m: real)
    ensures Deviations(v, m) == Residual(v, m, 0.0)
  {
    if v == [] {
    } else {
      DeviationsAreResiduals(v[..|v| - 1], m);
    }
  }

  lemma QuotientOf(x: real, d: real, q: real)
    requires d > 0.0 && q * d == x
    ensures x / d == q
  {
  }

  lemma MomentsUnique(v: seq<real>, mean: real, square: real)
    requires v != [] && HasMoments(v, mean, square)
    ensures mean == Mean(v) && square == Variance(v)
  {
    QuotientOf(SumY(v), |v| as real, mean);
    DeviationsAreResiduals(v, mean);
    QuotientOf(Residual(v, mean, 0.0), |v| as real, square);
  }

  /** The values vary too much for a trend: the deviation is above 0.3 of a non-zero mean, both squared. */
  predicate VariesTooMuch(mean: real, square: real)
  {
    mean != 0.0 && square > 0.09 * (mean * mean)
  }

  /**
   When each label is given, from the best line `a + b * i` and the moments of at least three values: by the
   line's rise per index with a margin of 0.01, unless the values vary too much.
   */
  lemma LabelMeans(v: seq<real>, a: real, b: real, mean: real, square: real)
    requires |v| >= 3 && IsBestLine(v, a, b) && HasMoments(v, mean, square)
    ensures AnalyzeMetricTrend(v) == Volatile <==> VariesTooMuch(mean, square)
    ensures AnalyzeMetricTrend(v) == Improving <==> !VariesTooMuch(mean, square) && b >= 0.01
    ensures AnalyzeMetricTrend(v) == Degrading <==> !VariesTooMuch(mean, square) && b <= -0.01
    ensures AnalyzeMetricTrend(v) == Stable <==> !VariesTooMuch(mean, square) && -0.01 < b < 0.01
  {
    BestLineUnique(v, a, b);
    MomentsUnique(v, mean, square);
  }

  lemma ShortSeriesStable(v: seq<real>)
    requires |v| < 3
    ensures AnalyzeMetricTrend(v) == Stable
  {
  }

  /** The squared deviations of `n` values `c + b * i`, from the sums `s` of the indices and `t` of their squares. */
  function LineSquares(c: real, b: real, n: real, s: real, t: real): real
  {
    Square(c) * n + 2.0 * (c * b) * s + Square(b) * t
  }

  lemma AddedIsSquares(s: Sums, c: real, b: real)
    ensures Added(s, -c, -b) == LineSquares(c, b, s.n, s.sx, s.sxx)
  {
    assert (-c) * (-c) == c * c && (-c) * (-b) == c * b && (-b) * (-b) == b * b;
  }

  lemma LineIsNormal(v: seq<real>, a: real, b: real)
    requires |v| >= 2 && IsLine(v, a, b)
    ensures Normal(SumsOf(v), a, b)
  {
    ForecastExactOnLines(v, a, b, 0);
    TwoValuesAreRegular(v);
    NormalEquations(SumsOf(v));
  }

  /** The deviations from a constant are what changing the line to that constant adds. */
  lemma LineSpread(v: seq<real>, a: real, b: real, m: real)
    requires |v| >= 2 && IsLine(v, a, b)
    ensures Residual(v, m, 0.0) == LineSquares(a - m, b, |v| as real, SumX(|v|), SumXX(|v|))
  {
    var s := SumsOf(v);
    LineIsNormal(v, a, b);
    QuadraticGap(s, a, b, -(a - m), -b);
    assert a + -(a - m) == m && b + -b == 0.0;
    AddedIsSquares(s, a - m, b);
    LineResidual(v, a, b);
    ResidualExpands(v, a, b);
    ResidualExpands(v, m, 0.0);
  }

  lemma LineMean(a: real, b: real, n: real, s: real, m: real)
    requires 2.0 * s == n * (n - 1.0) && 2.0 * m == 2.0 * a + b * (n - 1.0)
    ensures m * n == a * n + b * s
  {
    calc {
      2.0 * (m * n);
      (2.0 * m) * n;
      2.0 * (a * n) + b * (n * (n - 1.0));
      2.0 * (a * n + b * s);
    }
  }

  lemma HalfStep(b: real, k: real, c: real)
    requires 2.0 * c == -(b * k)
    ensures 4.0 * Square(c) == Square(b) * (k * k) && 2.0 * (c * b) == -(Square(b) * k)
  {
    assert 4.0 * Square(c) == (2.0 * c) * (2.0 * c) == (b * k) * (b * k);
    assert 2.0 * (c * b) == (2.0 * c) * b == -(b * k) * b;
  }

  lemma LineSquaresClosed(c: real, b: real, n: real, s: real, t: real)
    requires 2.0 * s == n * (n - 1.0) && 6.0 * t == n * (n - 1.0) * (2.0 * n - 1.0)
    requires 2.0 * c == -(b * (n - 1.0))
    ensures 12.0 * LineSquares(c, b, n, s, t) == Square(b) * (n * n - 1.0) * n
  {
    HalfStep(b, n - 1.0, c);
    LineCubic(Square(b), n, s, t, Square(c), c * b);
  }

  lemma LineCubic(q: real, n: real, s: real, t: real, c: real, d: real)
    requires 2.0 * s == n * (n - 1.0) && 6.0 * t == n * (n - 1.0) * (2.0 * n - 1.0)
    requires 4.0 * c == q * ((n - 1.0) * (n - 1.0)) && 2.0 * d == -(q * (n - 1.0))
    ensures 12.0 * (c * n + 2.0 * d * s + q * t) == q * (n * n - 1.0) * n
  {
    var k := n - 1.0;
    calc {
      12.0 * (c * n + 2.0 * d * s + q * t);
      3.0 * (4.0 * c) * n + 6.0 * (2.0 * d) * (2.0 * s) + 2.0 * q * (6.0 * t);
      3.0 * (q * (k * k)) * n - 6.0 * (q * k) * (n * k) + 2.0 * q * (n * k * (2.0 * n - 1.0));
      q * (n * n - 1.0) * n;
    }
  }

  /**
   On the line `a + b * i` the label follows the rise `b`, unless the rise is large against the mean
   `a + b * (n - 1) / 2`: the mean squared deviation of `n` such values is `b^2 (n^2 - 1) / 12`.
   */
  lemma LineLabels(v: seq<real>, a: real, b: real, mean: real, square: real)
    requires |v| >= 3 && IsLine(v, a, b)
    requires 2.0 * mean == 2.0 * a + b * (|v| as real - 1.0)
    requires 12.0 * square == Square(b) * (|v| as real * |v| as real - 1.0)
    ensures AnalyzeMetricTrend(v) == Volatile <==> VariesTooMuch(mean, square)
    ensures AnalyzeMetricTrend(v) == Improving <==> !VariesTooMuch(mean, square) && b >= 0.01
    ensures AnalyzeMetricTrend(v) == Degrading <==> !VariesTooMuch(mean, square) && b <= -0.01
    ensures AnalyzeMetricTrend(v) == Stable <==> !VariesTooMuch(mean, square) && -0.01 < b < 0.01
  {
    LineIsBest(v, a, b);
    LineMoments(v, a, b, mean, square);
    LabelMeans(v, a, b, mean, square);
  }

  lemma LineIsBest(v: seq<real>, a: real, b: real)
    requires IsLine(v, a, b)
    ensures IsBestLine(v, a, b)
  {
    LineResidual(v, a, b);
    forall c: real, d: real
      ensures Residual(v, a, b) <= Residual(v, c, d)
    {
      ResidualNonNegative(v, c, d);
    }
  }

  lemma LineMoments(v: seq<real>, a: real, b: real, mean: real, square: real)
    requires |v| >= 2 && IsLine(v, a, b) && 2.0 * mean == 2.0 * a + b * (|v| as real - 1.0)
    requires 12.0 * square == Square(b) * (|v| as real * |v| as real - 1.0)
    ensures HasMoments(v, mean, square)
  {
    LineMomentsFromSums(|v|, a, b, mean, square);
    LineSpread(v, a, b, mean);
    LineTotal(v, a, b);
  }

  lemma LineTotal(v: seq<real>, a: real, b: real)
    requires |v| >= 2 && IsLine(v, a, b)
    ensures SumY(v) == a * |v| as real + b * SumX(|v|)
  {
    LineIsNormal(v, a, b);
    assert |v| as real * a == a * |v| as real;
  }

  lemma LineMomentsFromSums(n: nat, a: real, b: real, mean: real, square: real)
    requires 2.0 * mean == 2.0 * a + b * (n as real - 1.0)
    requires 12.0 * square == Square(b) * (n as real * n as real - 1.0)
    ensures mean * n as real == a * n as real + b * SumX(n)
    ensures square * n as real == LineSquares(a - mean, b, n as real, SumX(n), SumXX(n))
  {
    SumClosedForms(n);
    LineMean(a, b, n as real, SumX(n), mean);
    LineSquaresClosed(a - mean, b, n as real, SumX(n), SumXX(n));
    Twelfth(square, Square(b) * (n as real * n as real - 1.0), n as real,
            LineSquares(a - mean, b, n as real, SumX(n), SumXX(n)));
  }

  lemma Twelfth(q: real, x: real, n: real, r: real)
    requires 12.0 * q == x && 12.0 * r == x * n
    ensures q * n == r
  {
    assert 12.0 * (q * n) == x * n;
  }
}
