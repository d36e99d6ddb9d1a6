/** The correlation coefficient, in exact arithmetic and without square roots: comparisons of |r| are
    comparisons of r squared. */
module Pearson {
  import opened Basics

  function Dot(xs: seq<real>, ys: seq<real>): real
    requires |xs| == |ys|
  {
    if xs == [] then 0.0 else Dot(xs[..|xs| - 1], ys[..|ys| - 1]) + xs[|xs| - 1] * ys[|ys| - 1]
  }

  function Mean(xs: seq<real>): real
    requires xs != []
  {
    Sum(xs) / |xs| as real
  }

  function Shifted(xs: seq<real>, m: real): (r: seq<real>)
    ensures |r| == |xs|
  {
    seq(|xs|, i requires 0 <= i < |xs| => xs[i] - m)
  }

  function Deviations(xs: seq<real>): (r: seq<real>)
    requires xs != []
    ensures |r| == |xs|
  {
    Shifted(xs, Mean(xs))
  }

  /** The three centred sums from which r is formed; present exactly when r is defined. */
  datatype Moments = Undefined | Moments(sxy: real, sxx: real, syy: real)

  /** `pearson_r` before the final division by the square root of `sxx * syy`. */
  function PearsonOf(xs: seq<real>, ys: seq<real>): Moments {
    if |xs| != |ys| || |xs| < 2 then Undefined
    else
      var dx, dy := Deviations(xs), Deviations(ys);
      if Dot(dx, dx) == 0.0 || Dot(dy, dy) == 0.0 then Undefined
      else Moments(Dot(dx, dy), Dot(dx, dx), Dot(dy, dy))
  }

  // ------------------------------------------------------------ Cauchy-Schwarz

  lemma ProductOfPositives(x: real, y: real, s: real)
    requires s == x * y && x > 0.0 && y > 0.0
    ensures s > 0.0
  {}

  lemma NonNegativeProduct(x: real, y: real)
    requires x >= 0.0 && y >= 0.0
    ensures x * y >= 0.0
  {}

  lemma ProductOfNegatives(x: real, y: real, s: real)
    requires s == x * y && x < 0.0 && y < 0.0
    ensures s > 0.0
  {}

  lemma EqualFactors(x: real, y: real, s: real)
    requires s == x * y && x == y
    ensures s >= 0.0 && (x != 0.0 ==> s > 0.0)
  {
    if x > 0.0 { ProductOfPositives(x, y, s); } else if x < 0.0 { ProductOfNegatives(x, y, s); }
  }

  function Square(x: real): (s: real)
    ensures s >= 0.0 && (x != 0.0 ==> s > 0.0)
  {
    var s := x * x;
    EqualFactors(x, x, s);
    s
  }

  /** The sum of the squares of `t * x + u * y`. */
  function Form(xs: seq<real>, ys: seq<real>, t: real, u: real): (q: real)
    requires |xs| == |ys|
  {
    if xs == [] then 0.0
    else Form(xs[..|xs| - 1], ys[..|ys| - 1], t, u) + Square(t * xs[|xs| - 1] + u * ys[|ys| - 1])
  }

  lemma {:induction false} FormIsNonNegative(xs: seq<real>, ys: seq<real>, t: real, u: real)
    requires |xs| == |ys|
    ensures Form(xs, ys, t, u) >= 0.0
    ensures Form(xs, ys, t, u) == 0.0 ==> forall i :: 0 <= i < |xs| ==> t * xs[i] + u * ys[i] == 0.0
  {
    if xs != [] {
      var n := |xs| - 1;
      FormIsNonNegative(xs[..n], ys[..n], t, u);
      assert Form(xs, ys, t, u) == Form(xs[..n], ys[..n], t, u) + Square(t * xs[n] + u * ys[n]);
      assert forall i :: 0 <= i < n ==> xs[i] == xs[..n][i] && ys[i] == ys[..n][i];
    }
  }

  lemma ExpandSquare(t: real, u: real, x: real, y: real)
    ensures Square(t * x + u * y) == t * t * (x * x) + 2.0 * (t * u) * (x * y) + u * u * (y * y)
  {}

  lemma AddTerms(p: real, q: real, r: real, a: real, b: real, c: real, a': real, b': real, c': real)
    ensures (p * a + q * b + r * c) + (p * a' + q * b' + r * c') == p * (a + a') + q * (b + b') + r * (c + c')
  {}

  lemma {:induction false} FormExpands(xs: seq<real>, ys: seq<real>, t: real, u: real)
    requires |xs| == |ys|
    ensures Form(xs, ys, t, u) == t * t * Dot(xs, xs) + 2.0 * (t * u) * Dot(xs, ys) + u * u * Dot(ys, ys)
  {
    if xs != [] {
      var n := |xs| - 1;
      var x, y, xs', ys' := xs[n], ys[n], xs[..n], ys[..n];
      FormExpands(xs', ys', t, u);
      ExpandSquare(t, u, x, y);
      AddTerms(t * t, 2.0 * (t * u), u * u, Dot(xs', xs'), Dot(xs', ys'), Dot(ys', ys'), x * x, x * y, y * y);
    }
  }

  /** With t = b and u = -c the form collapses to b times the Cauchy-Schwarz gap. */
  lemma Collapse(a: real, b: real, c: real, gap: real)
    requires gap == a * b - c * c
    ensures b * b * a + 2.0 * (b * -c) * c + (-c) * (-c) * b == b * gap
  {}

  lemma DividePositive(b: real, gap: real, form: real)
    requires b > 0.0 && form == b * gap && form >= 0.0
    ensures gap >= 0.0
  {
    if gap < 0.0 { ProductOfPositives(b, -gap, -form); }
  }

  lemma {:induction false} DotWithZeros(xs: seq<real>, ys: seq<real>)
    requires |xs| == |ys| && forall i :: 0 <= i < |ys| ==> ys[i] == 0.0
    ensures Dot(xs, ys) == 0.0
  {
    if xs != [] { DotWithZeros(xs[..|xs| - 1], ys[..|ys| - 1]); }
  }

  lemma DotWithItself(xs: seq<real>)
    ensures Dot(xs, xs) >= 0.0
    ensures Dot(xs, xs) == 0.0 ==> forall i :: 0 <= i < |xs| ==> xs[i] == 0.0
  {
    FormExpands(xs, xs, 1.0, 0.0);
    FormIsNonNegative(xs, xs, 1.0, 0.0);
    assert forall i :: 0 <= i < |xs| ==> 1.0 * xs[i] + 0.0 * xs[i] == xs[i];
  }

  lemma FormIsTheGap(xs: seq<real>, ys: seq<real>, a: real, b: real, c: real, gap: real)
    requires |xs| == |ys| && a == Dot(xs, xs) && b == Dot(ys, ys) && c == Dot(xs, ys)
    requires gap == a * b - c * c
    ensures Form(xs, ys, b, -c) == b * gap
  {
    Collapse(a, b, c, gap);
    FormExpands(xs, ys, b, -c);
  }

  /** Cauchy-Schwarz, for every pair of equal-length series. */
  lemma CauchySchwarz(xs: seq<real>, ys: seq<real>)
    requires |xs| == |ys|
    ensures Dot(xs, ys) * Dot(xs, ys) <= Dot(xs, xs) * Dot(ys, ys)
  {
    var a, b, c := Dot(xs, xs), Dot(ys, ys), Dot(xs, ys);
    var gap := a * b - c * c;
    DotWithItself(ys);
    if b == 0.0 {
      DotWithZeros(xs, ys);
    } else {
      FormIsTheGap(xs, ys, a, b, c, gap);
      FormIsNonNegative(xs, ys, b, -c);
      DividePositive(b, gap, Form(xs, ys, b, -c));
    }
  }

  lemma FormVanishes(xs: seq<real>, ys: seq<real>, a: real, b: real, c: real)
    requires |xs| == |ys| && a == Dot(xs, xs) && b == Dot(ys, ys) && c == Dot(xs, ys)
    requires c * c == a * b
    ensures Form(xs, ys, c, -a) == 0.0
  {
    GapIsZero(a, b, c);
    FormExpands(xs, ys, c, -a);
  }

  lemma GapIsZero(a: real, b: real, c: real)
    requires c * c == a * b
    ensures c * c * a + 2.0 * (c * -a) * c + (-a) * (-a) * b == 0.0
  {
    assert c * c * a + 2.0 * (c * -a) * c + (-a) * (-a) * b == a * (a * b) - a * (c * c);
  }

  lemma MoveAcross(p: real, a: real, y: real)
    requires p + (-a) * y == 0.0
    ensures p == a * y
  {}

  /** Where the form vanishes, one series is a multiple of the other, point by point. */
  lemma TermVanishes(xs: seq<real>, ys: seq<real>, c: real, a: real, i: nat)
    requires |xs| == |ys| && i < |xs| && Form(xs, ys, c, -a) == 0.0
    ensures c * xs[i] == a * ys[i]
  {
    FormIsNonNegative(xs, ys, c, -a);
    MoveAcross(c * xs[i], a, ys[i]);
  }

  // ------------------------------------------------------------- the coefficient

  lemma {:induction false} DotSymmetric(xs: seq<real>, ys: seq<real>)
    requires |xs| == |ys|
    ensures Dot(xs, ys) == Dot(ys, xs)
  {
    if xs != [] { DotSymmetric(xs[..|xs| - 1], ys[..|ys| - 1]); }
  }

  /** |r| is at most one wherever r is defined, and both denominators are positive. */
  lemma CoefficientIsBounded(xs: seq<real>, ys: seq<real>)
    requires PearsonOf(xs, ys).Moments?
    ensures var m := PearsonOf(xs, ys); 0.0 < m.sxx && 0.0 < m.syy && m.sxy * m.sxy <= m.sxx * m.syy
  {
    CauchySchwarz(Deviations(xs), Deviations(ys));
    DotWithItself(Deviations(xs));
    DotWithItself(Deviations(ys));
  }

  /** The coefficient does not depend on which series comes first. */
  lemma CoefficientIsSymmetric(xs: seq<real>, ys: seq<real>)
    ensures PearsonOf(ys, xs) == match PearsonOf(xs, ys)
                                 case Undefined => Undefined
                                 case Moments(sxy, sxx, syy) => Moments(sxy, syy, sxx)
  {
    if |xs| == |ys| && |xs| >= 2 { DotSymmetric(Deviations(xs), Deviations(ys)); }
  }

  predicate OnLine(x: real, y: real, slope: real, shift: real) {
    y == slope * x + shift
  }

  predicate Affine(xs: seq<real>, ys: seq<real>, slope: real, shift: real)
    requires |xs| == |ys|
  {
    forall i :: 0 <= i < |xs| ==> OnLine(xs[i], ys[i], slope, shift)
  }

  lemma {:induction false} SumOfAffine(xs: seq<real>, ys: seq<real>, slope: real, shift: real)
    requires |xs| == |ys| && Affine(xs, ys, slope, shift)
    ensures Sum(ys) == slope * Sum(xs) + shift * |xs| as real
  {
    if xs != [] {
      var n := |xs| - 1;
      assert Affine(xs[..n], ys[..n], slope, shift);
      SumOfAffine(xs[..n], ys[..n], slope, shift);
      assert slope * Sum(xs[..n]) + slope * xs[n] == slope * (Sum(xs[..n]) + xs[n]);
      assert shift * n as real + shift == shift * (n + 1) as real;
    }
  }

  lemma MeanOfAffine(xs: seq<real>, ys: seq<real>, slope: real, shift: real)
    requires |xs| == |ys| && xs != [] && Affine(xs, ys, slope, shift)
    ensures Mean(ys) == slope * Mean(xs) + shift
  {
    SumOfAffine(xs, ys, slope, shift);
    DivideSum(slope, Sum(xs), shift, |xs| as real);
  }

  lemma DivideSum(slope: real, s: real, shift: real, n: real)
    requires n > 0.0
    ensures (slope * s + shift * n) / n == slope * (s / n) + shift
  {
    var q := s / n;
    assert s == q * n;
    assert slope * s + shift * n == (slope * q + shift) * n;
  }

  /** Every point of the second series is `slope` times that of the first. */
  predicate Multiple(xs: seq<real>, ys: seq<real>, slope: real)
    requires |xs| == |ys|
  {
    xs == [] || (ys[|ys| - 1] == slope * xs[|xs| - 1] && Multiple(xs[..|xs| - 1], ys[..|ys| - 1], slope))
  }

  lemma {:induction false} PointwiseIsMultiple(xs: seq<real>, ys: seq<real>, slope: real)
    requires |xs| == |ys| && forall i :: 0 <= i < |xs| ==> ys[i] == slope * xs[i]
    ensures Multiple(xs, ys, slope)
  {
    if xs != [] { PointwiseIsMultiple(xs[..|xs| - 1], ys[..|ys| - 1], slope); }
  }

  lemma {:induction false} DotOfMultiple(xs: seq<real>, ys: seq<real>, slope: real)
    requires |xs| == |ys| && Multiple(xs, ys, slope)
    ensures Dot(xs, ys) == slope * Dot(xs, xs) && Dot(ys, ys) == slope * Dot(xs, ys)
  {
    if xs != [] {
      var n := |xs| - 1;
      DotOfMultiple(xs[..n], ys[..n], slope);
      StepOfMultiple(slope, xs[n], ys[n], Dot(xs[..n], xs[..n]), Dot(xs[..n], ys[..n]), Dot(ys[..n], ys[..n]));
    }
  }

  lemma StepOfMultiple(slope: real, x: real, y: real, d: real, p: real, q: real)
    requires y == slope * x && p == slope * d && q == slope * p
    ensures p + x * y == slope * (d + x * x) && q + y * y == slope * (p + x * y)
  {
    var xx, xy := x * x, x * y;
    assert xy == slope * xx;
    assert y * y == slope * xy;
  }

  lemma Uncentre(slope: real, shift: real, x: real, y: real, mx: real, my: real)
    requires y == slope * x + shift && my == slope * mx + shift
    ensures y - my == slope * (x - mx)
  {}

  lemma AffineIsPerfect(xs: seq<real>, ys: seq<real>, slope: real, shift: real)
    requires PearsonOf(xs, ys).Moments? && Affine(xs, ys, slope, shift)
    ensures var m := PearsonOf(xs, ys); m.sxy == slope * m.sxx && m.syy == slope * m.sxy
  {
    var dx, dy := Deviations(xs), Deviations(ys);
    DeviationsOfAffine(xs, ys, slope, shift, dx, dy);
    DotOfMultiple(dx, dy, slope);
    assert PearsonOf(xs, ys) == Moments(Dot(dx, dy), Dot(dx, dx), Dot(dy, dy));
  }

  lemma DeviationsOfAffine(xs: seq<real>, ys: seq<real>, slope: real, shift: real, dx: seq<real>, dy: seq<real>)
    requires xs != [] && |xs| == |ys| && Affine(xs, ys, slope, shift)
    requires dx == Deviations(xs) && dy == Deviations(ys)
    ensures Multiple(dx, dy, slope)
  {
    MeanOfAffine(xs, ys, slope, shift);
    forall i | 0 <= i < |dx| ensures dy[i] == slope * dx[i] {
      Uncentre(slope, shift, xs[i], ys[i], Mean(xs), Mean(ys));
    }
    PointwiseIsMultiple(dx, dy, slope);
  }

  lemma ProportionalIsPerfect(slope: real, sxx: real, sxy: real, syy: real)
    requires sxy == slope * sxx && syy == slope * sxy
    ensures sxy * sxy == sxx * syy
  {
    assert sxx * syy == slope * sxx * sxy;
  }

  lemma SolveForY(a: real, c: real, slope: real, x: real, y: real)
    requires a > 0.0 && c == slope * a && c * x == a * y
    ensures y == slope * x
  {
    assert a * (slope * x) == a * y;
  }

  lemma Recentre(slope: real, x: real, y: real, mx: real, my: real)
    requires y - my == slope * (x - mx)
    ensures y == slope * x + (my - slope * mx)
  {}

  lemma PointOnLine(a: real, c: real, slope: real, x: real, y: real, mx: real, my: real, shift: real)
    requires a > 0.0 && c == slope * a && c * (x - mx) == a * (y - my) && shift == my - slope * mx
    ensures OnLine(x, y, slope, shift)
  {
    SolveForY(a, c, slope, x - mx, y - my);
    Recentre(slope, x, y, mx, my);
  }

  lemma VanishingFormAt(xs: seq<real>, ys: seq<real>, mx: real, my: real, a: real, c: real, i: nat)
    requires |xs| == |ys| && i < |xs|
    requires Form(Shifted(xs, mx), Shifted(ys, my), c, -a) == 0.0
    ensures c * (xs[i] - mx) == a * (ys[i] - my)
  {
    TermVanishes(Shifted(xs, mx), Shifted(ys, my), c, a, i);
    assert Shifted(xs, mx)[i] == xs[i] - mx && Shifted(ys, my)[i] == ys[i] - my;
  }

  lemma VanishingFormIsAffine(xs: seq<real>, ys: seq<real>, mx: real, my: real, a: real, c: real, slope: real,
                              shift: real)
    requires |xs| == |ys| && a > 0.0 && Form(Shifted(xs, mx), Shifted(ys, my), c, -a) == 0.0
    requires c == slope * a && shift == my - slope * mx
    ensures Affine(xs, ys, slope, shift)
  {
    forall i | 0 <= i < |xs| ensures OnLine(xs[i], ys[i], slope, shift) {
      PointOfForm(xs, ys, mx, my, a, c, slope, shift, i);
    }
  }

  lemma PointOfForm(xs: seq<real>, ys: seq<real>, mx: real, my: real, a: real, c: real, slope: real, shift: real, i: nat)
    requires |xs| == |ys| && i < |xs| && a > 0.0 && Form(Shifted(xs, mx), Shifted(ys, my), c, -a) == 0.0
    requires c == slope * a && shift == my - slope * mx
    ensures OnLine(xs[i], ys[i], slope, shift)
  {
    VanishingFormAt(xs, ys, mx, my, a, c, i);
    PointOnLine(a, c, slope, xs[i], ys[i], mx, my, shift);
  }

  lemma SlopeExists(a: real, c: real) returns (slope: real)
    requires a != 0.0
    ensures c == slope * a
  {
    slope := c / a;
  }

  lemma PerfectIsAffine(xs: seq<real>, ys: seq<real>, sxx: real, syy: real, sxy: real)
    requires PearsonOf(xs, ys) == Moments(sxy, sxx, syy) && sxy * sxy == sxx * syy
    ensures exists slope, shift :: Affine(xs, ys, slope, shift)
  {
    CoefficientIsBounded(xs, ys);
    FormVanishes(Deviations(xs), Deviations(ys), sxx, syy, sxy);
    var slope := SlopeExists(sxx, sxy);
    VanishingFormIsAffine(xs, ys, Mean(xs), Mean(ys), sxx, sxy, slope, Mean(ys) - slope * Mean(xs));
  }

  /** r is exactly plus or minus one if and only if one series is an affine function of the other. */
  lemma PerfectExactlyWhenAffine(xs: seq<real>, ys: seq<real>)
    requires PearsonOf(xs, ys).Moments?
    ensures var m := PearsonOf(xs, ys);
            m.sxy * m.sxy == m.sxx * m.syy <==> exists slope, shift :: Affine(xs, ys, slope, shift)
  {
    var m := PearsonOf(xs, ys);
    if m.sxy * m.sxy == m.sxx * m.syy {
      PerfectIsAffine(xs, ys, m.sxx, m.syy, m.sxy);
    }
    if slope, shift :| Affine(xs, ys, slope, shift) {
      AffineIsPerfect(xs, ys, slope, shift);
      ProportionalIsPerfect(slope, m.sxx, m.sxy, m.syy);
    }
  }

  // ---------------------------------------------------------- the textbook forms

  lemma {:induction false} SumOfShifted(xs: seq<real>, m: real)
    ensures Sum(Shifted(xs, m)) == Sum(xs) - |xs| as real * m
  {
    if xs != [] {
      var n := |xs| - 1;
      SumOfShifted(xs[..n], m);
      assert Shifted(xs, m)[..n] == Shifted(xs[..n], m);
      assert |xs| as real * m == n as real * m + m;
    }
  }

  lemma TimesTheMean(s: real, n: real, m: real)
    requires n > 0.0 && m == s / n
    ensures n * m == s
  {}

  lemma MeanTimesCount(xs: seq<real>)
    requires xs != []
    ensures |xs| as real * Mean(xs) == Sum(xs)
  {
    TimesTheMean(Sum(xs), |xs| as real, Mean(xs));
  }

  /** Deviations from the mean cancel out. */
  lemma DeviationsCancel(xs: seq<real>)
    requires xs != []
    ensures Sum(Deviations(xs)) == 0.0
  {
    MeanTimesCount(xs);
    SumOfShifted(xs, Mean(xs));
  }

  lemma Distribute(u: real, y: real, w: real)
    ensures u * (y - w) == u * y - u * w
  {}

  lemma {:induction false} DotMinus(us: seq<real>, ys: seq<real>, ws: seq<real>, zs: seq<real>)
    requires |us| == |ys| == |ws| == |zs| && forall i :: 0 <= i < |us| ==> zs[i] == ys[i] - ws[i]
    ensures Dot(us, zs) == Dot(us, ys) - Dot(us, ws)
  {
    if us != [] {
      var n := |us| - 1;
      DotMinus(us[..n], ys[..n], ws[..n], zs[..n]);
      Distribute(us[n], ys[n], ws[n]);
    }
  }

  lemma AddToProduct(m: real, s: real, u: real, q: real, p: real)
    requires q == m * s && p == m * (s + u)
    ensures p == q + u * m
  {}

  lemma {:induction false} DotWithConstant(us: seq<real>, ws: seq<real>, m: real, p: real)
    requires |us| == |ws| && (forall i :: 0 <= i < |us| ==> ws[i] == m) && p == m * Sum(us)
    ensures Dot(us, ws) == p
    decreases |us|
  {
    if us != [] {
      var n := |us| - 1;
      var q := m * Sum(us[..n]);
      DotWithConstant(us[..n], ws[..n], m, q);
      AddToProduct(m, Sum(us[..n]), us[n], q, p);
    }
  }

  lemma DotWithShifted(us: seq<real>, ys: seq<real>, m: real, p: real)
    requires |us| == |ys| && p == m * Sum(us)
    ensures Dot(us, Shifted(ys, m)) == Dot(us, ys) - p
  {
    var ws := seq(|ys|, i => m);
    DotWithConstant(us, ws, m, p);
    DotMinus(us, ys, ws, Shifted(ys, m));
  }

  lemma DotWithCentred(us: seq<real>, ys: seq<real>, m: real)
    requires |us| == |ys| && Sum(us) == 0.0
    ensures Dot(us, Shifted(ys, m)) == Dot(us, ys)
  {
    DotWithShifted(us, ys, m, 0.0);
  }

  lemma CentredSum(xs: seq<real>, ys: seq<real>, mx: real, my: real, p: real)
    requires |xs| == |ys| && Sum(Shifted(xs, mx)) == 0.0 && p == mx * Sum(ys)
    ensures Dot(Shifted(xs, mx), Shifted(ys, my)) == Dot(xs, ys) - p
  {
    DotWithCentred(Shifted(xs, mx), ys, my);
    DotSymmetric(Shifted(xs, mx), ys);
    DotWithShifted(ys, xs, mx, p);
    DotSymmetric(ys, xs);
  }

  /** Each centred sum is the textbook one: the sum of the products, less the one mean times the other sum. */
  lemma CentredSumFormula(xs: seq<real>, ys: seq<real>, mean: real, p: real)
    requires |xs| == |ys| && xs != [] && mean == Mean(xs) && p == mean * Sum(ys)
    ensures Dot(Deviations(xs), Deviations(ys)) == Dot(xs, ys) - p
  {
    DeviationsCancel(xs);
    CentredSum(xs, ys, mean, Mean(ys), p);
  }

  /** Every value is the same. */
  predicate Constant(xs: seq<real>) {
    forall i, j :: 0 <= i < |xs| && 0 <= j < |xs| ==> xs[i] == xs[j]
  }

  lemma {:induction false} SumOfConstant(xs: seq<real>, x: real)
    requires forall i :: 0 <= i < |xs| ==> xs[i] == x
    ensures Sum(xs) == |xs| as real * x
  {
    if xs != [] {
      SumOfConstant(xs[..|xs| - 1], x);
      assert |xs| as real * x == (|xs| - 1) as real * x + x;
    }
  }

  lemma {:induction false} ZeroVariance(xs: seq<real>)
    ensures Dot(xs, xs) >= 0.0
    ensures Dot(xs, xs) == 0.0 <==> forall i :: 0 <= i < |xs| ==> xs[i] == 0.0
  {
    if xs != [] {
      var n := |xs| - 1;
      ZeroVariance(xs[..n]);
      EqualFactors(xs[n], xs[n], xs[n] * xs[n]);
      assert forall i :: 0 <= i < n ==> xs[..n][i] == xs[i];
      if xs[n] == 0.0 { assert xs[n] * xs[n] == 0.0; }
    }
  }

  lemma NoVarianceExactlyWhenConstant(xs: seq<real>)
    requires xs != []
    ensures Dot(Deviations(xs), Deviations(xs)) == 0.0 <==> Constant(xs)
  {
    ZeroVariance(Deviations(xs));
    assert forall i :: 0 <= i < |xs| ==> Deviations(xs)[i] == xs[i] - Mean(xs);
    if Constant(xs) {
      SumOfConstant(xs, xs[0]);
      MeanTimesCount(xs);
      SameFactor(|xs| as real, Mean(xs), xs[0], Sum(xs));
    }
  }

  lemma SameFactor(n: real, x: real, y: real, s: real)
    requires n > 0.0 && s == n * x && s == n * y
    ensures x == y
  {
    if x < y { ProductOfPositives(n, y - x, n * (y - x)); } else if y < x { ProductOfPositives(n, x - y, n * (x - y)); }
  }

  /** r is undefined exactly for series that do not match, are too short, or do not vary. */
  lemma UndefinedExactlyWhen(xs: seq<real>, ys: seq<real>)
    ensures PearsonOf(xs, ys).Undefined? <==> |xs| != |ys| || |xs| < 2 || Constant(xs) || Constant(ys)
  {
    if |xs| == |ys| && |xs| >= 2 {
      NoVarianceExactlyWhenConstant(xs);
      NoVarianceExactlyWhenConstant(ys);
    }
  }

  /** Where r is defined, its moments are the textbook sums. */
  lemma CrossMomentIsTextbook(xs: seq<real>, ys: seq<real>, mean: real, p: real)
    requires PearsonOf(xs, ys).Moments? && mean == Mean(xs) && p == mean * Sum(ys)
    ensures PearsonOf(xs, ys).sxy == Dot(xs, ys) - p
  {
    CentredSumFormula(xs, ys, mean, p);
  }

  lemma VariancesAreTextbook(xs: seq<real>, ys: seq<real>, mean: real, p: real)
    requires xs != [] && mean == Mean(xs) && p == mean * Sum(xs)
    ensures PearsonOf(xs, ys).Moments? ==> PearsonOf(xs, ys).sxx == Dot(xs, xs) - p
    ensures PearsonOf(ys, xs).Moments? ==> PearsonOf(ys, xs).syy == Dot(xs, xs) - p
  {
    CentredSumFormula(xs, xs, mean, p);
  }
}
