/** The delivery trend: the slope of the least-squares line through the last samples. */
module Trend {

  // ---- the five sums the loop accumulates ----

  datatype Sums = Sums(n: nat, x: real, y: real, xy: real, xx: real)

  function Y(success: bool): real { if success then 1.0 else 0.0 }

  function AddSample(p: Sums, success: bool): Sums {
    var x, y := p.n as real, Y(success);
    Sums(p.n + 1, p.x + x, p.y + y, p.xy + x * y, p.xx + x * x)
  }

  function SumsOf(s: seq<bool>): (p: Sums)
    ensures p.n == |s|
  {
    if s == [] then Sums(0, 0.0, 0.0, 0.0, 0.0) else AddSample(SumsOf(s[..|s| - 1]), s[|s| - 1])
  }

  /** n·ΣX² − (ΣX)² */
  function Denominator(p: Sums): real { p.n as real * p.xx - p.x * p.x }

  /** n·ΣXY − ΣX·ΣY */
  function Numerator(p: Sums): real { p.n as real * p.xy - p.x * p.y }

  function Slope(s: seq<bool>): real
    requires |s| >= 2
  {
    DenominatorPositive(s);
    Numerator(SumsOf(s)) / Denominator(SumsOf(s))
  }

  function Intercept(s: seq<bool>): real
    requires |s| >= 2
  {
    (SumsOf(s).y - Slope(s) * SumsOf(s).x) / |s| as real
  }

  /** The squared error of the line y = a·x + b. */
  function SquaredError(s: seq<bool>, a: real, b: real): real {
    if s == [] then 0.0
    else SquaredError(s[..|s| - 1], a, b) + Square(a * (|s| - 1) as real + b - Y(s[|s| - 1]))
  }

  function Square(x: real): real { x * x }

  // ---- the denominator ----

  /** The sums of 0, 1, ..., m - 1 and of their squares. */
  predicate SumsUpTo(m: real, sx: real, sxx: real) {
    2.0 * sx == m * (m - 1.0) && 6.0 * sxx == m * (m - 1.0) * (2.0 * m - 1.0)
  }

  lemma {:induction false} XSums(s: seq<bool>)
    ensures SumsUpTo(|s| as real, SumsOf(s).x, SumsOf(s).xx)
  {
    if s == [] {
      assert SumsUpTo(0.0, 0.0, 0.0);
    } else {
      hide SumsOf, SumsUpTo, Y, Square;
      var front := s[..|s| - 1];
      XSums(front);
      SumsOfOneMore(s);
      XStep(|front| as real, |s| as real, SumsOf(front).x, SumsOf(front).xx);
    }
  }

  lemma XStep(x: real, m: real, sx: real, sxx: real)
    requires m == x + 1.0 && SumsUpTo(x, sx, sxx)
    ensures SumsUpTo(m, sx + x, sxx + Square(x))
  {
    CubeStep(x);
    assert m - 1.0 == x && 2.0 * m - 1.0 == 2.0 * x + 1.0;
  }

  /** The last sample's share in the sums. */
  lemma SumsOfOneMore(s: seq<bool>)
    requires s != []
    ensures var front, y := s[..|s| - 1], Y(s[|s| - 1]);
      var p, q, x := SumsOf(front), SumsOf(s), |front| as real;
      && |s| as real == x + 1.0
      && q.x == p.x + x && q.y == p.y + y && q.xy == p.xy + x * y && q.xx == p.xx + Square(x)
  {
    var front := s[..|s| - 1];
    assert SumsOf(s) == AddSample(SumsOf(front), s[|s| - 1]) by { hide AddSample; }
    assert SumsOf(front).n == |front|;
    hide SumsOf, Y, AddSample;
    AddSampleFields(SumsOf(front), s[|s| - 1], |front| as real);
    Successor(|front|);
  }

  lemma Successor(n: nat)
    ensures (n + 1) as real == n as real + 1.0
  {
  }

  lemma CubeStep(x: real)
    ensures x * (x - 1.0) + 2.0 * x == (x + 1.0) * x
    ensures x * (x - 1.0) * (2.0 * x - 1.0) + 6.0 * (x * x) == (x + 1.0) * x * (2.0 * x + 1.0)
  {
    var q := x * x;
    assert x * (x - 1.0) == q - x;
    assert (q - x) * (2.0 * x - 1.0) == 2.0 * (q * x) - 3.0 * q + x;
    assert (x + 1.0) * x == q + x;
    assert (q + x) * (2.0 * x + 1.0) == 2.0 * (q * x) + 3.0 * q + x;
  }

  /** For every number of samples the denominator is n²(n²−1)/12. */
  lemma {:induction false} DenominatorClosedForm(s: seq<bool>)
    ensures var m := |s| as real; 12.0 * Denominator(SumsOf(s)) == m * m * (m * m - 1.0)
  {
    hide SumsOf;
    XSums(s);
    QuarticIdentity(|s| as real, SumsOf(s).x, SumsOf(s).xx);
  }

  lemma QuarticIdentity(m: real, sx: real, sxx: real)
    requires 2.0 * sx == m * (m - 1.0)
    requires 6.0 * sxx == m * (m - 1.0) * (2.0 * m - 1.0)
    ensures 12.0 * (m * sxx - sx * sx) == m * m * (m * m - 1.0)
  {
    var p := m * (m - 1.0);
    var q := m * m;
    assert p == q - m;
    assert 12.0 * (m * sxx) == 2.0 * (m * (6.0 * sxx));
    assert m * (p * (2.0 * m - 1.0)) == p * (2.0 * q - m);
    assert 12.0 * (sx * sx) == 3.0 * ((2.0 * sx) * (2.0 * sx));
    assert 12.0 * (m * sxx - sx * sx) == 2.0 * (p * (2.0 * q - m)) - 3.0 * (p * p);
    assert 2.0 * (p * (2.0 * q - m)) - 3.0 * (p * p) == p * (4.0 * q - 2.0 * m - 3.0 * p);
    assert 4.0 * q - 2.0 * m - 3.0 * p == q + m;
    assert p * (q + m) == q * q - q;
    assert q * (q - 1.0) == q * q - q;
  }

  /** From two samples on the division is defined. */
  lemma {:induction false} DenominatorPositive(s: seq<bool>)
    requires |s| >= 2
    ensures Denominator(SumsOf(s)) > 0.0
  {
    DenominatorClosedForm(s);
    AtLeastTwo(|s| as real);
  }

  lemma AtLeastTwo(m: real)
    requires m >= 2.0
    ensures m * m >= 4.0 && m * m * (m * m - 1.0) > 0.0
  {
  }

  // ---- the slope is the least-squares slope ----

  /** The squared error as a polynomial in the line's coefficients. */
  function Expanded(n: real, x: real, y: real, xy: real, xx: real, a: real, b: real): real {
    a * a * xx + 2.0 * (a * b) * x + b * b * n - 2.0 * a * xy - 2.0 * b * y + y
  }

  lemma NoSamples(a: real, b: real)
    ensures Expanded(0.0, 0.0, 0.0, 0.0, 0.0, a, b) == 0.0
  {
  }

  /** One more sample, at abscissa `n` and with y = y². */
  lemma OneMoreSample(n: real, sx: real, sy: real, sxy: real, sxx: real, y: real, a: real, b: real)
    requires y == 0.0 || y == 1.0
    ensures Expanded(n, sx, sy, sxy, sxx, a, b) + Square(a * n + b - y)
            == Expanded(n + 1.0, sx + n, sy + y, sxy + n * y, sxx + n * n, a, b)
  {
    SquareOfSum(a, n, b, y);
    assert y * y == y;
    var aa, ab, bb := a * a, 2.0 * (a * b), b * b;
    assert aa * (sxx + n * n) == aa * sxx + aa * (n * n);
    assert ab * (sx + n) == ab * sx + ab * n;
    assert bb * (n + 1.0) == bb * n + bb;
  }

  lemma SquareOfSum(a: real, x: real, b: real, y: real)
    ensures Square(a * x + b - y)
            == a * a * (x * x) + 2.0 * (a * b) * x + b * b - 2.0 * a * (x * y) - 2.0 * b * y + y * y
  {
    var u := a * x;
    assert u * u == a * a * (x * x);
    assert u * b == (a * b) * x;
    assert u * y == a * (x * y);
  }

  function ExpandedOf(p: Sums, a: real, b: real): real {
    Expanded(p.n as real, p.x, p.y, p.xy, p.xx, a, b)
  }

  lemma AddSampleFields(p: Sums, success: bool, n: real)
    requires p.n as real == n
    ensures var q, y := AddSample(p, success), Y(success);
      && q.n as real == n + 1.0
      && q.x == p.x + n && q.y == p.y + y && q.xy == p.xy + n * y && q.xx == p.xx + n * n
  {
  }

  lemma {:induction false} ExpandError(s: seq<bool>, a: real, b: real)
    ensures SquaredError(s, a, b) == ExpandedOf(SumsOf(s), a, b)
  {
    hide Expanded, Square, AddSample;
    if s == [] {
      NoSamples(a, b);
    } else {
      ExpandError(s[..|s| - 1], a, b);
      var p, q := SumsOf(s[..|s| - 1]), SumsOf(s);
      var n := (|s| - 1) as real;
      OneMoreSample(n, p.x, p.y, p.xy, p.xx, Y(s[|s| - 1]), a, b);
      AddSampleFields(p, s[|s| - 1], n);
    }
  }

  /** Both partial derivatives of the squared error vanish at the line. */
  ghost predicate Normal(p: Sums, a: real, b: real) {
    a * p.x + p.n as real * b == p.y && a * p.xx + b * p.x == p.xy
  }

  lemma NormalEquations(p: Sums, a: real, b: real)
    requires p.n > 0
    requires a * Denominator(p) == Numerator(p) && p.n as real * b == p.y - a * p.x
    ensures Normal(p, a, b)
  {
    var m, d := p.n as real, Denominator(p);
    var lhs := a * p.xx + b * p.x;
    assert m * lhs == a * (m * p.xx) + (m * b) * p.x;
    assert (m * b) * p.x == p.y * p.x - a * (p.x * p.x);
    assert a * d == a * (m * p.xx) - a * (p.x * p.x);
    assert m * (lhs - p.xy) == 0.0;
  }

  lemma DivTimes(x: real, y: real)
    requires y != 0.0
    ensures x / y * y == x && y * (x / y) == x
  {
  }

  lemma {:induction false} ComputedLineIsNormal(s: seq<bool>)
    requires |s| >= 2
    ensures Normal(SumsOf(s), Slope(s), Intercept(s))
  {
    hide Normal, Numerator, Denominator, SumsOf;
    var p := SumsOf(s);
    DenominatorPositive(s);
    DivTimes(Numerator(p), Denominator(p));
    DivTimes(p.y - Slope(s) * p.x, |s| as real);
    NormalEquations(p, Slope(s), Intercept(s));
  }

  /** The error exceeds that of a line satisfying the normal equations by a quadratic form. */
  lemma ErrorGap(n: real, x: real, y: real, xy: real, xx: real, a: real, b: real, da: real, db: real)
    requires a * x + n * b == y && a * xx + b * x == xy
    ensures Expanded(n, x, y, xy, xx, a + da, b + db) == Expanded(n, x, y, xy, xx, a, b) + Form(n, x, xx, da, db)
  {
    assert (a + da) * (a + da) * xx == a * a * xx + 2.0 * (da * (a * xx)) + da * da * xx;
    assert (b + db) * (b + db) * n == b * b * n + 2.0 * (db * (n * b)) + db * db * n;
    assert (a + da) * (b + db) == a * b + a * db + da * b + da * db;
    assert (a * db) * x == db * (a * x) && (da * b) * x == da * (b * x);
    assert ((a + da) * (b + db)) * x == (a * b) * x + db * (a * x) + da * (b * x) + (da * db) * x;
    assert da * xy == da * (a * xx) + da * (b * x);
    assert db * y == db * (a * x) + db * (n * b);
  }

  function Form(n: real, x: real, xx: real, da: real, db: real): real {
    da * da * xx + 2.0 * (da * db) * x + db * db * n
  }

  lemma PositiveProduct(x: real, y: real, product: real)
    requires x > 0.0 && y > 0.0 && product == x * y
    ensures product > 0.0
  {
  }

  lemma SquareOfPositive(x: real)
    requires x > 0.0
    ensures Square(x) > 0.0
  {
    PositiveProduct(x, x, Square(x));
  }

  lemma SquareOfNegation(y: real)
    ensures Square(-y) == Square(y)
  {
    var z := -y;
    assert z + y == 0.0;
    assert z * z - y * y == (z + y) * (z - y);
  }

  lemma SquareOfZero()
    ensures Square(0.0) == 0.0
  {
  }

  lemma SquareIsPositive(x: real)
    ensures Square(x) >= 0.0
    ensures x != 0.0 ==> Square(x) > 0.0
  {
    hide Square;
    if x > 0.0 {
      SquareOfPositive(x);
    } else if x < 0.0 {
      SquareOfPositive(-x);
      SquareOfNegation(x);
    } else {
      SquareOfZero();
    }
  }

  lemma ProductIsPositive(x: real, y: real)
    requires y > 0.0
    ensures x >= 0.0 ==> x * y >= 0.0
    ensures x > 0.0 ==> x * y > 0.0
    ensures x * y >= 0.0 ==> x >= 0.0
    ensures x * y > 0.0 ==> x > 0.0
  {
  }

  /** Completing the square. */
  lemma FormTimesN(n: real, x: real, xx: real, da: real, db: real)
    ensures n * Form(n, x, xx, da, db) == Square(n * db + da * x) + Square(da) * (n * xx - x * x)
  {
    var e := n * db + da * x;
    assert e * e == (n * db) * (n * db) + 2.0 * ((n * db) * (da * x)) + (da * x) * (da * x);
    assert (n * db) * (n * db) == n * (db * db * n);
    assert (n * db) * (da * x) == n * ((da * db) * x);
    assert (da * x) * (da * x) == (da * da) * (x * x);
    assert (da * da) * (n * xx - x * x) == n * (da * da * xx) - (da * da) * (x * x);
  }

  lemma FormIsPositive(n: real, x: real, xx: real, da: real, db: real)
    requires n > 0.0 && n * xx - x * x > 0.0
    ensures Form(n, x, xx, da, db) >= 0.0
    ensures da != 0.0 || db != 0.0 ==> Form(n, x, xx, da, db) > 0.0
    ensures Form(n, x, xx, 0.0, 0.0) == 0.0
  {
    var d, e := n * xx - x * x, n * db + da * x;
    FormTimesN(n, x, xx, da, db);
    FormTimesN(n, x, xx, 0.0, 0.0);
    SumOfSquares(e, da, d);
    if da == 0.0 && db != 0.0 {
      NonzeroProduct(n, db);
    }
    hide Form, Square;
    TimesN(Form(n, x, xx, da, db), n);
    TimesN(Form(n, x, xx, 0.0, 0.0), n);
  }

  /** What the completed square is worth. */
  lemma SumOfSquares(e: real, da: real, d: real)
    requires d > 0.0
    ensures Square(e) + Square(da) * d >= 0.0
    ensures e != 0.0 || da != 0.0 ==> Square(e) + Square(da) * d > 0.0
  {
    hide Square;
    SquareIsPositive(e);
    SquareIsPositive(da);
    ProductIsPositive(Square(da), d);
  }

  lemma NonzeroProduct(n: real, x: real)
    requires n > 0.0 && x != 0.0
    ensures n * x != 0.0
  {
    ProductIsPositive(if x > 0.0 then x else -x, n);
  }

  lemma TimesN(form: real, n: real)
    requires n > 0.0
    ensures n * form >= 0.0 ==> form >= 0.0
    ensures n * form > 0.0 ==> form > 0.0
    ensures n * form == 0.0 ==> form == 0.0
  {
  }

  lemma {:induction false} NormalLineIsBest(p: Sums, sl: real, ic: real, a: real, b: real)
    requires p.n > 0 && Normal(p, sl, ic) && Denominator(p) > 0.0
    ensures ExpandedOf(p, sl, ic) <= ExpandedOf(p, a, b)
    ensures ExpandedOf(p, a, b) == ExpandedOf(p, sl, ic) <==> a == sl && b == ic
  {
    hide Expanded, Form;
    ErrorGap(p.n as real, p.x, p.y, p.xy, p.xx, sl, ic, a - sl, b - ic);
    FormIsPositive(p.n as real, p.x, p.xx, a - sl, b - ic);
    assert sl + (a - sl) == a && ic + (b - ic) == b;
  }

  /** The computed slope, with its intercept, minimises the squared error over all real lines, and no
      other line reaches the minimum. */
  lemma SlopeIsLeastSquares(s: seq<bool>, a: real, b: real)
    requires |s| >= 2
    ensures SquaredError(s, Slope(s), Intercept(s)) <= SquaredError(s, a, b)
    ensures SquaredError(s, a, b) == SquaredError(s, Slope(s), Intercept(s)) <==> a == Slope(s) && b == Intercept(s)
  {
    hide *;
    DenominatorPositive(s);
    ComputedLineIsNormal(s);
    ExpandError(s, a, b);
    ExpandError(s, Slope(s), Intercept(s));
    NormalLineIsBest(SumsOf(s), Slope(s), Intercept(s), a, b);
  }

  // ---- how steep the trend can be ----

  /** Twice Σ Y·(X − mean X) over the first samples, when there are `n` in all. */
  function Tilt(s: seq<bool>, n: nat): int {
    if s == [] then 0
    else Tilt(s[..|s| - 1], n) + if s[|s| - 1] then 2 * (|s| - 1) - (n - 1) else 0
  }

  /** The square of how far `k` is past the middle of `n`. */
  function PastMiddle(k: int, n: int): int {
    if 2 * k > n then (2 * k - n) * (2 * k - n) else 0
  }

  lemma PastMiddleStep(k: int, n: int)
    ensures var d := 2 * (k - 1) - (n - 1);
      && PastMiddle(k, n) >= PastMiddle(k - 1, n) + 4 * d
      && PastMiddle(k, n) >= PastMiddle(k - 1, n)
  {
    var e := 2 * k - n;
    if e >= 2 {
      assert (e - 2) * (e - 2) + 4 * (e - 1) == e * e;
    }
  }

  lemma {:induction false} TiltAbove(s: seq<bool>, n: nat)
    ensures 4 * Tilt(s, n) <= PastMiddle(|s|, n)
  {
    if s != [] {
      TiltAbove(s[..|s| - 1], n);
      PastMiddleStep(|s|, n);
    }
  }

  /** The successes and the failures together tilt by k·(k − n). */
  lemma {:induction false} TiltBelow(s: seq<bool>, n: nat)
    ensures 4 * Tilt(s, n) >= 4 * (|s| * (|s| - n)) - PastMiddle(|s|, n)
  {
    if s != [] {
      var k := |s|;
      TiltBelow(s[..k - 1], n);
      PastMiddleStep(k, n);
      FailStep(k, n);
      hide PastMiddle;
      assert Tilt(s, n) == Tilt(s[..k - 1], n) + if s[k - 1] then 2 * (k - 1) - (n - 1) else 0;
    }
  }

  lemma FailStep(k: int, n: int)
    ensures k * (k - n) == (k - 1) * (k - 1 - n) + (2 * (k - 1) - (n - 1))
  {
  }

  /** The tilt in terms of the accumulated sums. */
  function Lever(n: nat, xy: real, y: real): real { 2.0 * xy - (n as real - 1.0) * y }

  lemma {:induction false} TiltIsSum(s: seq<bool>, n: nat)
    ensures Tilt(s, n) as real == Lever(n, SumsOf(s).xy, SumsOf(s).y)
  {
    if s == [] {
      assert Lever(n, 0.0, 0.0) == 0.0;
    } else {
      hide SumsOf, Lever, AddSample, Tilt;
      var front, success := s[..|s| - 1], s[|s| - 1];
      TiltIsSum(front, n);
      SumsOfOneMore(s);
      TiltOfOneMore(s, n);
      LeverStep(n, |front|, success, SumsOf(front).xy, SumsOf(front).y);
    }
  }

  lemma TiltOfOneMore(s: seq<bool>, n: nat)
    requires s != []
    ensures var front := s[..|s| - 1];
      Tilt(s, n) == Tilt(front, n) + if s[|s| - 1] then 2 * |front| - (n - 1) else 0
  {
  }

  lemma LeverStep(n: nat, k: nat, success: bool, xy: real, y: real)
    ensures Lever(n, xy + k as real * Y(success), y + Y(success))
         == Lever(n, xy, y) + (if success then 2 * k - (n - 1) else 0) as real
  {
    assert (2 * k - (n - 1)) as real == 2.0 * k as real - (n as real - 1.0);
    var c := n as real - 1.0;
    assert c * (y + 1.0) == c * y + c;
  }

  lemma TiltRange(s: seq<bool>)
    ensures var m := |s| as real; -(m * m) <= 4.0 * Tilt(s, |s|) as real <= m * m
  {
    hide Tilt;
    var n := |s|;
    TiltAbove(s, n);
    TiltBelow(s, n);
    assert -(n * n) <= 4 * Tilt(s, n) <= n * n;
    assert (n * n) as real == n as real * n as real;
  }

  lemma NumeratorBound(s: seq<bool>)
    requires |s| >= 2
    ensures var m := |s| as real; -(m * m * m) <= 8.0 * Numerator(SumsOf(s)) <= m * m * m
  {
    hide SumsOf, Tilt;
    var n, t, p := |s|, Tilt(s, |s|), SumsOf(s);
    TiltRange(s);
    TiltIsSum(s, n);
    XSums(s);
    ScaleTilt(n as real, t as real, p.x, p.y, p.xy);
  }

  lemma ScaleTilt(m: real, t: real, x: real, y: real, xy: real)
    requires m >= 2.0 && -(m * m) <= 4.0 * t <= m * m
    requires t == 2.0 * xy - (m - 1.0) * y && 2.0 * x == m * (m - 1.0)
    ensures -(m * m * m) <= 8.0 * (m * xy - x * y) <= m * m * m
  {
    assert 2.0 * (x * y) == m * ((m - 1.0) * y);
    assert m * t == 2.0 * (m * xy) - m * ((m - 1.0) * y);
    assert 8.0 * (m * xy - x * y) == m * (4.0 * t);
    ProductIsPositive(m * m - 4.0 * t, m);
    ProductIsPositive(m * m + 4.0 * t, m);
  }

  /** For every 0/1 sequence of at least two samples, |slope| <= 3n / (2(n²−1)). */
  lemma SlopeBound(s: seq<bool>)
    requires |s| >= 2
    ensures var m := |s| as real;
      m * m - 1.0 > 0.0 && var bound := 3.0 * m / (2.0 * (m * m - 1.0)); -bound <= Slope(s) <= bound
  {
    hide Numerator, Denominator, SumsOf;
    var p := SumsOf(s);
    AtLeastTwo(|s| as real);
    DenominatorPositive(s);
    DenominatorClosedForm(s);
    NumeratorBound(s);
    DivTimes(Numerator(p), Denominator(p));
    Divide(|s| as real, Numerator(p), Denominator(p), Slope(s));
  }

  lemma Divide(m: real, num: real, d: real, slope: real)
    requires m >= 2.0 && d > 0.0 && 12.0 * d == m * m * (m * m - 1.0) && slope * d == num
    requires -(m * m * m) <= 8.0 * num <= m * m * m
    requires m * m - 1.0 > 0.0
    ensures var bound := 3.0 * m / (2.0 * (m * m - 1.0)); -bound <= slope <= bound
  {
    var q := m * m - 1.0;
    var bound := 3.0 * m / (2.0 * q);
    DivTimes(3.0 * m, 2.0 * q);
    BoundTimesD(m, q, d, bound);
    assert (bound - slope) * d == bound * d - num;
    assert (bound + slope) * d == bound * d + num;
    ProductIsPositive(bound - slope, d);
    ProductIsPositive(bound + slope, d);
  }

  lemma BoundTimesD(m: real, q: real, d: real, bound: real)
    requires 12.0 * d == m * m * q && bound * (2.0 * q) == 3.0 * m
    ensures 8.0 * (bound * d) == m * m * m
  {
    assert 12.0 * (bound * d) == (bound * q) * (m * m);
    assert bound * q == 1.5 * m;
  }

  // ---- the loop ----

  lemma {:induction false} SlopeFromSums(s: seq<bool>, n: real, x: real, y: real, xy: real, xx: real, num: real,
                                         den: real)
    requires |s| >= 2 && SumsOf(s) == Sums(|s|, x, y, xy, xx)
    requires n == |s| as real && num == n * xy - x * y && den == n * xx - x * x
    ensures den > 0.0 && num / den == Slope(s)
  {
    hide SumsOf;
    DenominatorPositive(s);
  }

  /** The accumulation loop. */
  method Accumulate(samples: seq<bool>) returns (sumX: real, sumY: real, sumXY: real, sumX2: real)
    ensures SumsOf(samples) == Sums(|samples|, sumX, sumY, sumXY, sumX2)
  {
    sumX, sumY, sumXY, sumX2 := 0.0, 0.0, 0.0, 0.0;
    for i := 0 to |samples|
      invariant SumsOf(samples[..i]) == Sums(i, sumX, sumY, sumXY, sumX2)
    {
      var x := i as real;
      var y := 1.0;
      if !samples[i] {
        y := 0.0;
      }
      sumX := sumX + x;
      sumY := sumY + y;
      sumXY := sumXY + x * y;
      sumX2 := sumX2 + x * x;
      assert y == Y(samples[i]);
      assert samples[..i + 1][..i] == samples[..i];
    }
    assert samples[..|samples|] == samples;
  }

  /** The samples the trend is taken over: the last twenty, or all of them. */
  function Recent(samples: seq<bool>): seq<bool> {
    samples[|samples| - (if |samples| < 20 then |samples| else 20)..]
  }

  /** Fewer than ten samples give no trend; otherwise the slope through the last twenty. */
  method CalculateTrend(samples: seq<bool>) returns (slope: real)
    ensures |samples| < 10 ==> slope == 0.0
    ensures forall before, last :: samples == before + last && |last| == 20 ==> slope == Slope(last)
    ensures 10 <= |samples| <= 20 ==> slope == Slope(samples)
    ensures |samples| >= 10 ==> slope == Slope(Recent(samples))
  {
    if |samples| < 10 {
      return 0.0;
    }
    var windowSamples := 20;
    if |samples| < windowSamples {
      windowSamples := |samples|;
    }
    var last := samples[|samples| - windowSamples..];
    var n := |last| as real;
    var sumX, sumY, sumXY, sumX2 := Accumulate(last);
    hide Slope, SumsOf;
    var num, den := n * sumXY - sumX * sumY, n * sumX2 - sumX * sumX;
    SlopeFromSums(last, n, sumX, sumY, sumXY, sumX2, num, den);
    slope := num / den;
    forall before, s | samples == before + s && |s| == 20 ensures slope == Slope(s) {
      assert s == last;
    }
    assert |samples| <= 20 ==> last == samples;
  }
}
