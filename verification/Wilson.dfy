/**
 * The interval a pass rate is published with: Wilson's score interval at 95%, over the reals and with the
 * square root as a parameter, rounded to four digits.
 * Source: scripts/bench/report.ts, lines 17-23 and 43-53.
 */
module Wilson {

  datatype Rate = Rate(pass: nat, n: nat, rate: real, low: real, high: real)

  const Z := 1.96

  function Share(pass: nat, n: nat): real
    requires n > 0
  {
    pass as real / n as real
  }

  function Radicand(pass: nat, n: nat): real
    requires n > 0
  {
    Share(pass, n) * (1.0 - Share(pass, n)) / n as real + Z * Z / (4.0 * n as real * n as real)
  }

  ghost predicate IsRoot(root: real, x: real) {
    root >= 0.0 && root * root == x
  }

  function Denominator(n: nat): real
    requires n > 0
    ensures Denominator(n) > 1.0
  {
    Over(Z * Z, n);
    1.0 + Z * Z / n as real
  }

  function Centre(pass: nat, n: nat): real
    requires n > 0
  {
    (Share(pass, n) + Z * Z / (2.0 * n as real)) / Denominator(n)
  }

  function Half(n: nat, root: real): real
    requires n > 0
  {
    Z * root / Denominator(n)
  }

  function Low(pass: nat, n: nat, root: real): real
    requires n > 0
  {
    Centre(pass, n) - Half(n, root)
  }

  function High(pass: nat, n: nat, root: real): real
    requires n > 0
  {
    Centre(pass, n) + Half(n, root)
  }

  /** Rounded to four digits, a tie upwards. */
  function Round(x: real): real
    requires x >= 0.0
  {
    (x * 10000.0 + 0.5).Floor as real / 10000.0
  }

  lemma RoundMonotone(x: real, y: real)
    requires 0.0 <= x <= y
    ensures 0.0 <= Round(x) <= Round(y)
    ensures y <= 1.0 ==> Round(y) <= 1.0
  {
    FloorMonotone(x * 10000.0 + 0.5, y * 10000.0 + 0.5);
    FloorMonotone(0.0, x * 10000.0 + 0.5);
    if y <= 1.0 {
      FloorMonotone(y * 10000.0 + 0.5, 10000.5);
      assert (10000.5).Floor == 10000;
    }
  }

  lemma FloorMonotone(x: real, y: real)
    requires x <= y
    ensures x.Floor <= y.Floor
  {}

  // ---------------------------------------------------------------- arithmetic

  lemma Over(x: real, n: nat)
    requires x > 0.0 && n > 0
    ensures x / n as real > 0.0
  {}

  lemma RootsOrder(x: real, y: real)
    requires y >= 0.0 && x * x <= y * y
    ensures x <= y
  {
    if x > y {
      Products(x, y);
    }
  }

  lemma Products(x: real, y: real)
    requires x > y >= 0.0
    ensures x * x > y * y
  {
    assert x * x - y * y == (x - y) * (x + y);
    Positive(x - y, x + y);
  }

  lemma Positive(x: real, y: real)
    requires x > 0.0 && y > 0.0
    ensures x * y > 0.0
  {}

  lemma NonNegative(x: real, y: real)
    requires x >= 0.0 && y >= 0.0
    ensures x * y >= 0.0
  {}

  lemma Divided(x: real, y: real, d: real)
    requires d > 0.0
    ensures x <= y * d <==> x / d <= y
    ensures y * d <= x <==> y <= x / d
    ensures x == y * d <==> x / d == y
  {
    assert x / d * d == x;
  }

  /** Of the share `p`, with `a` for the square of z over n and `h` for z times the root. */
  lemma Spread(p: real, a: real, h: real)
    requires 0.0 <= p <= 1.0 && a > 0.0 && h >= 0.0
    requires h * h == a * (p * (1.0 - p)) + a * a / 4.0
    ensures h <= p + a / 2.0 && (h == p + a / 2.0 <==> p == 0.0)
    ensures h <= 1.0 - p + a / 2.0
    ensures a / 2.0 - p * a <= h && p * a - a / 2.0 <= h
  {
    SquareBelow(p, a, h);
    var q := 1.0 - p;
    assert h * h == a * (q * (1.0 - q)) + a * a / 4.0;
    SquareBelow(q, a, h);
    SquareAbove(p, a, h);
  }

  lemma SquareBelow(p: real, a: real, h: real)
    requires 0.0 <= p <= 1.0 && a > 0.0 && h >= 0.0
    requires h * h == a * (p * (1.0 - p)) + a * a / 4.0
    ensures h <= p + a / 2.0 && (h == p + a / 2.0 <==> p == 0.0)
  {
    var s, q := p + a / 2.0, p * p;
    assert s * s == q + p * a + a * a / 4.0;
    assert a * (p * (1.0 - p)) == a * p - a * q;
    assert s * s - h * h == q + a * q;
    NonNegative(p, p);
    NonNegative(a, q);
    RootsOrder(h, s);
    if p > 0.0 {
      SquarePositive(p, q);
      Positive(a, q);
      assert s * s > h * h;
    } else {
      RootsOrder(s, h);
    }
  }

  lemma SquarePositive(p: real, q: real)
    requires p > 0.0 && q == p * p
    ensures q > 0.0
  {
    NonNegative(p, p);
    assert q / p == p;
  }

  lemma SquareAbove(p: real, a: real, h: real)
    requires 0.0 <= p <= 1.0 && a > 0.0 && h >= 0.0
    requires h * h == a * (p * (1.0 - p)) + a * a / 4.0
    ensures a / 2.0 - p * a <= h && p * a - a / 2.0 <= h
  {
    var t, v := a / 2.0 - p * a, p * (1.0 - p);
    NonNegative(p, 1.0 - p);
    NonNegative(a, v);
    NonNegative(a, a * v);
    SquareOfDifference(a, p);
    assert t * t <= h * h;
    RootsOrder(t, h);
    assert (-t) * (-t) == t * t;
    RootsOrder(-t, h);
  }

  lemma SquareOfDifference(a: real, p: real)
    ensures (a / 2.0 - p * a) * (a / 2.0 - p * a) == a * a / 4.0 - a * (a * (p * (1.0 - p)))
  {
    var v := p * (1.0 - p);
    assert a / 2.0 - p * a == a * (0.5 - p);
    assert (0.5 - p) * (0.5 - p) == 0.25 - v;
    assert a * (0.5 - p) * (a * (0.5 - p)) == a * (a * ((0.5 - p) * (0.5 - p)));
    assert a * (a * (0.25 - v)) == a * (a * 0.25) - a * (a * v);
  }

  // ---------------------------------------------------------------- the interval

  function Spacing(n: nat): (a: real)
    requires n > 0
    ensures a > 0.0
  {
    Over(Z * Z, n);
    Z * Z / n as real
  }

  lemma ShareBetween(pass: nat, n: nat)
    requires pass <= n && n > 0
    ensures 0.0 <= Share(pass, n) <= 1.0
    ensures Share(pass, n) == 0.0 <==> pass == 0
    ensures Share(n - pass, n) == 1.0 - Share(pass, n)
  {
    var m := n as real;
    Divided(pass as real, 0.0, m);
    Divided(pass as real, 1.0, m);
    assert (n - pass) as real == m - pass as real;
    var p := Share(pass, n);
    assert p * m == pass as real;
    assert (1.0 - p) * m == m - p * m;
    Divided((n - pass) as real, 1.0 - p, m);
  }

  lemma Scaled(pass: nat, n: nat, root: real)
    requires n > 0 && IsRoot(root, Radicand(pass, n))
    ensures var p, a := Share(pass, n), Spacing(n);
            (Z * root) * (Z * root) == a * (p * (1.0 - p)) + a * a / 4.0
  {
    var p, a, m := Share(pass, n), Spacing(n), n as real;
    var v := p * (1.0 - p);
    assert (Z * root) * (Z * root) == Z * Z * (root * root);
    assert a * m == Z * Z;
    assert Z * Z * (v / m) == a * v by {
      assert v / m * m == v;
    }
    assert Z * Z * (Z * Z / (4.0 * m * m)) == a * a / 4.0 by {
      Quartered(m, a);
    }
    assert Z * Z * (v / m + Z * Z / (4.0 * m * m)) == Z * Z * (v / m) + Z * Z * (Z * Z / (4.0 * m * m));
  }

  lemma Quartered(m: real, a: real)
    requires m > 0.0 && a * m == Z * Z
    ensures Z * Z * (Z * Z / (4.0 * m * m)) == a * a / 4.0
  {
    Positive(m, m);
    var d := 4.0 * m * m;
    assert d == 4.0 * (m * m);
    assert Z * Z == a * m;
    Divided(a * m, a / (4.0 * m), d);
  }

  /** The share lies in the interval, the interval in [0, 1], and it starts at 0 exactly when nothing passed. */
  lemma Bounds(pass: nat, n: nat, root: real)
    requires pass <= n && n > 0 && IsRoot(root, Radicand(pass, n))
    ensures 0.0 <= Low(pass, n, root) <= Share(pass, n) <= High(pass, n, root) <= 1.0
    ensures Low(pass, n, root) == 0.0 <==> pass == 0
  {
    var p, a, h := Share(pass, n), Spacing(n), Z * root;
    ShareBetween(pass, n);
    Scaled(pass, n, root);
    NonNegative(Z, root);
    Spread(p, a, h);
    CentreIs(pass, n);
    EndsOf(p, a, h);
  }

  lemma CentreIs(pass: nat, n: nat)
    requires n > 0
    ensures Centre(pass, n) == (Share(pass, n) + Spacing(n) / 2.0) / (1.0 + Spacing(n))
    ensures Denominator(n) == 1.0 + Spacing(n)
  {
    var m, a := n as real, Spacing(n);
    assert a * m == Z * Z;
    Divided(Z * Z, a / 2.0, 2.0 * m);
  }

  lemma EndsOf(p: real, a: real, h: real)
    requires a > 0.0
    requires h <= p + a / 2.0 && (h == p + a / 2.0 <==> p == 0.0)
    requires h <= 1.0 - p + a / 2.0 && a / 2.0 - p * a <= h && p * a - a / 2.0 <= h
    ensures var d := 1.0 + a;
            var low, high := (p + a / 2.0) / d - h / d, (p + a / 2.0) / d + h / d;
            0.0 <= low <= p <= high <= 1.0 && (low == 0.0 <==> p == 0.0)
  {
    var d, c := 1.0 + a, p + a / 2.0;
    assert c / d - h / d == (c - h) / d;
    assert c / d + h / d == (c + h) / d;
    assert p * d == p + p * a;
    Divided(c - h, 0.0, d);
    Divided(c - h, p, d);
    Divided(c + h, p, d);
    Divided(c + h, 1.0, d);
  }

  /** What failed mirrors what passed. */
  lemma Mirror(pass: nat, n: nat, root: real)
    requires pass <= n && n > 0
    ensures Radicand(n - pass, n) == Radicand(pass, n)
    ensures Low(pass, n, root) == 1.0 - High(n - pass, n, root)
  {
    ShareBetween(pass, n);
    var p, a := Share(pass, n), Spacing(n);
    var d := 1.0 + a;
    CentreIs(pass, n);
    CentreIs(n - pass, n);
    assert p * (1.0 - p) == (1.0 - p) * (1.0 - (1.0 - p));
    assert (p + a / 2.0) / d + (1.0 - p + a / 2.0) / d == (p + a / 2.0 + (1.0 - p + a / 2.0)) / d;
    Divided(d, 1.0, d);
  }

  /** The rate as published. The source takes the square root; here it is `root`. */
  function Interval(pass: nat, n: nat, root: real): Rate
    requires pass <= n && (n > 0 ==> IsRoot(root, Radicand(pass, n)))
  {
    if n == 0 then Rate(pass, n, 0.0, 0.0, 0.0)
    else
      Bounds(pass, n, root);
      Rate(pass, n, Round(Share(pass, n)), Round(Low(pass, n, root)), Round(High(pass, n, root)))
  }

  /** Rounding keeps the order, and with nothing measured every figure is 0. */
  lemma IntervalBounds(pass: nat, n: nat, root: real)
    requires pass <= n && (n > 0 ==> IsRoot(root, Radicand(pass, n)))
    ensures var r := Interval(pass, n, root); 0.0 <= r.low <= r.rate <= r.high <= 1.0
    ensures pass == 0 ==> Interval(pass, n, root).low == 0.0
    ensures pass == n > 0 ==> Interval(pass, n, root).high == 1.0
  {
    if n > 0 {
      Bounds(pass, n, root);
      var low, p, high := Low(pass, n, root), Share(pass, n), High(pass, n, root);
      RoundMonotone(low, p);
      RoundMonotone(p, high);
      if pass == n {
        AllPassed(n, root);
      }
    }
  }

  lemma AllPassed(n: nat, root: real)
    requires n > 0 && IsRoot(root, Radicand(n, n))
    ensures High(n, n, root) == 1.0
  {
    Mirror(n, n, root);
    Mirror(0, n, root);
    Bounds(0, n, root);
  }

  lemma RadicandIsSquare(pass: nat, n: nat)
    requires pass <= n && n > 0
    ensures Radicand(pass, n) >= 0.0
  {
    ShareBetween(pass, n);
    var p, m := Share(pass, n), n as real;
    NonNegative(p, 1.0 - p);
    Positive(m, m);
    Divided(p * (1.0 - p), 0.0, m);
    Divided(Z * Z, 0.0, 4.0 * m * m);
  }
}
