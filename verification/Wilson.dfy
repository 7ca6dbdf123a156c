/** The Wilson score interval (benchmarks/blind/aggregate.ts) over the reals. `Math.sqrt(x)` is the
    non-negative number whose square is x, passed as `root`. */
module Wilson {
  import opened Options

  /** The two-sided 95% quantile. What follows holds of every positive `z`. */
  const Z: Positive := 1.959963984540054

  type Positive = z: real | z > 0.0 witness 1.0

  datatype Interval = Interval(low: real, high: real)
  datatype Rate = Rate(count: int, of: int, value: Option<real>, interval: Option<Interval>)

  /** `Math.round(x * 10_000) / 10_000` */
  function Round(x: real): real {
    (x * 10000.0 + 0.5).Floor as real / 10000.0
  }

  function Max(a: real, b: real): real {
    if a < b then b else a
  }

  function Min(a: real, b: real): real {
    if a < b then a else b
  }

  function Share(count: int, of: int): real
    requires of != 0
  {
    count as real / of as real
  }

  function Denominator(z: Positive, of: int): real
    requires of > 0
  {
    1.0 + z * z / of as real
  }

  function Centre(z: Positive, count: int, of: int): real
    requires of > 0
  {
    (Share(count, of) + z * z / (2.0 * of as real)) / Denominator(z, of)
  }

  function Radicand(z: Positive, count: int, of: int): real
    requires of > 0
  {
    Share(count, of) * (1.0 - Share(count, of)) / of as real + z * z / (4.0 * of as real * of as real)
  }

  predicate IsRoot(z: Positive, root: real, count: int, of: int)
    requires of > 0
  {
    root >= 0.0 && root * root == Radicand(z, count, of)
  }

  function Half(z: Positive, root: real, of: int): real
    requires of > 0
  {
    z * root / Denominator(z, of)
  }

  /** The end points before clamping and rounding. */
  function Low(z: Positive, count: int, of: int, root: real): real
    requires of > 0
  {
    Centre(z, count, of) - Half(z, root, of)
  }

  function High(z: Positive, count: int, of: int, root: real): real
    requires of > 0
  {
    Centre(z, count, of) + Half(z, root, of)
  }

  function WilsonRate(z: Positive, count: int, of: int, root: real): Rate
    requires of >= 0
  {
    if of == 0 then Rate(count, of, None, None)
    else Rate(count, of, Some(Round(Share(count, of))),
              Some(Interval(Round(Max(0.0, Low(z, count, of, root))), Round(Min(1.0, High(z, count, of, root))))))
  }

  // ---------------------------------------------------------------------------------------------
  // The end points are the roots of a quadratic.

  /** of·(p − x)² − Z²·x·(1 − x): where it is not positive, x explains the share p. */
  function Quadratic(z: Positive, count: int, of: int, x: real): real
    requires of > 0
  {
    of as real * (Share(count, of) - x) * (Share(count, of) - x) - z * z * x * (1.0 - x)
  }

  lemma Divided(a: real, b: real, q: real)
    requires b != 0.0 && q == a / b
    ensures q * b == a
  {
  }

  /** The definitions cleared of fractions; n is `of`, k is `count`, q the square of z. */
  lemma Cleared(z: Positive, count: int, of: int, root: real)
    requires of > 0
    ensures var n, k, q := of as real, count as real, z * z;
      && Share(count, of) * n == k
      && Centre(z, count, of) * (2.0 * (n + q)) == 2.0 * k + q
      && Half(z, root, of) * (n + q) == n * (z * root)
  {
    var n, k, q := of as real, count as real, z * z;
    var p, d := Share(count, of), Denominator(z, of);
    Divided(k, n, p);
    Divided(q, n, q / n);
    assert d * n == n + q;
    var t := q / (2.0 * n);
    Divided(q, 2.0 * n, t);
    var c := Centre(z, count, of);
    Divided(p + t, d, c);
    ClearCentre(c, d, p, t, n, k, q);
    var h := Half(z, root, of);
    Divided(z * root, d, h);
    ClearHalf(h, d, n, q, z * root);
  }

  lemma ClearCentre(c: real, d: real, p: real, t: real, n: real, k: real, q: real)
    requires c * d == p + t && d * n == n + q && p * n == k && t * (2.0 * n) == q
    ensures c * (2.0 * (n + q)) == 2.0 * k + q
  {
    calc {
      c * (2.0 * (n + q));
      c * (2.0 * (d * n));
      2.0 * n * (c * d);
      2.0 * n * (p + t);
      2.0 * (p * n) + t * (2.0 * n);
      2.0 * k + q;
    }
  }

  lemma ClearHalf(h: real, d: real, n: real, q: real, zr: real)
    requires h * d == zr && d * n == n + q
    ensures h * (n + q) == n * zr
  {
    calc {
      h * (n + q);
      h * (d * n);
      (h * d) * n;
      n * zr;
    }
  }

  lemma ClearRadicand(z: Positive, count: int, of: int)
    requires of > 0
    ensures var n, k, q := of as real, count as real, z * z;
      4.0 * (n * n) * Radicand(z, count, of) == 4.0 * (k * (1.0 - Share(count, of))) + q
  {
    var n, k, q, p := of as real, count as real, z * z, Share(count, of);
    Divided(k, n, p);
    var u, v := p * (1.0 - p) / n, q / (4.0 * n * n);
    Divided(p * (1.0 - p), n, u);
    Divided(q, 4.0 * n * n, v);
    assert 4.0 * n * n == 4.0 * (n * n);
    calc {
      4.0 * (n * n) * (u + v);
      4.0 * (n * (u * n)) + v * (4.0 * n * n);
      4.0 * (n * (p * (1.0 - p))) + q;
      { assert n * (p * (1.0 - p)) == (p * n) * (1.0 - p); }
      4.0 * (k * (1.0 - p)) + q;
    }
  }

  lemma Cancel(a: real, x: real, y: real)
    requires a > 0.0 && a * x == a * y
    ensures x == y
  {
    Divided(a * x, a, x);
  }

  /** The product of the end points: with s = z·root, (n + q)·(c² − h²) = k·p. */
  lemma ProductOfRoots(n: real, k: real, q: real, p: real, c: real, h: real, s: real)
    requires n > 0.0 && q > 0.0 && p * n == k && c * (2.0 * (n + q)) == 2.0 * k + q && h * (n + q) == n * s
    requires 4.0 * (n * n) * (s * s) == q * (4.0 * (k * (1.0 - p)) + q)
    ensures (n + q) * (c * c - h * h) == k * p
  {
    var a := n + q;
    assert (c * (2.0 * a)) * (c * (2.0 * a)) == 4.0 * a * (a * (c * c));
    assert (h * a) * (h * a) == a * (a * (h * h));
    assert (n * s) * (n * s) == (n * n) * (s * s);
    assert 4.0 * a * (a * (c * c - h * h)) == (2.0 * k + q) * (2.0 * k + q) - q * (4.0 * (k * (1.0 - p)) + q);
    calc {
      (2.0 * k + q) * (2.0 * k + q) - q * (4.0 * (k * (1.0 - p)) + q);
      4.0 * (k * k) + 4.0 * (k * q) + q * q - 4.0 * (q * (k * (1.0 - p))) - q * q;
      { assert q * (k * (1.0 - p)) == k * q - q * (k * p); }
      4.0 * (k * k) + 4.0 * (q * (k * p));
      { assert k * k == n * (k * p); }
      4.0 * a * (k * p);
    }
    Cancel(4.0 * a, a * (c * c - h * h), k * p);
  }

  /** The quadratic, written by its roots c − h and c + h. */
  lemma Expanded(n: real, k: real, q: real, p: real, c: real, h: real, x: real)
    requires p * n == k && c * (2.0 * (n + q)) == 2.0 * k + q && (n + q) * (c * c - h * h) == k * p
    ensures n * (p - x) * (p - x) - q * x * (1.0 - x) == (n + q) * ((x - (c - h)) * (x - (c + h)))
  {
    var a := n + q;
    calc {
      a * ((x - (c - h)) * (x - (c + h)));
      { assert (x - (c - h)) * (x - (c + h)) == x * x - 2.0 * (c * x) + (c * c - h * h); }
      a * (x * x) - (c * (2.0 * a)) * x + a * (c * c - h * h);
      a * (x * x) - (2.0 * k + q) * x + k * p;
      { assert k * x == (p * x) * n && k * p == n * (p * p); }
      n * (x * x) + q * (x * x) - 2.0 * (n * (p * x)) - q * x + n * (p * p);
      { assert n * (p - x) * (p - x) == n * (p * p) - 2.0 * (n * (p * x)) + n * (x * x); }
      n * (p - x) * (p - x) - q * x * (1.0 - x);
    }
  }

  function Factors(a: real, x: real, low: real, high: real): real {
    a * ((x - low) * (x - high))
  }

  function Lead(z: Positive, of: int): (a: real)
    requires of > 0
    ensures a > 0.0
  {
    of as real + z * z
  }

  lemma Factored(z: Positive, count: int, of: int, root: real, x: real)
    requires of > 0 && IsRoot(z, root, count, of)
    ensures Quadratic(z, count, of, x) == Factors(Lead(z, of), x, Low(z, count, of, root), High(z, count, of, root))
  {
    var n, k, q, p := of as real, count as real, z * z, Share(count, of);
    Signs(z, z);
    Cleared(z, count, of, root);
    ClearRadicand(z, count, of);
    var c, h, s, radicand := Centre(z, count, of), Half(z, root, of), z * root, Radicand(z, count, of);
    assert Quadratic(z, count, of, x) == n * (p - x) * (p - x) - q * x * (1.0 - x);
    assert Lead(z, of) == n + q && Low(z, count, of, root) == c - h && High(z, count, of, root) == c + h;
    assert root * root == radicand && p * n == k;
    hide *;
    FactoredReal(n, k, q, p, c, h, z, root, radicand, x);
    FactorsAre(n + q, x, c - h, c + h);
  }

  lemma FactorsAre(a: real, x: real, low: real, high: real)
    ensures Factors(a, x, low, high) == a * ((x - low) * (x - high))
  {
  }

  lemma FactoredReal(n: real, k: real, q: real, p: real, c: real, h: real, z: real, root: real, radicand: real, x: real)
    requires n > 0.0 && q > 0.0 && q == z * z && root * root == radicand
    requires p * n == k && c * (2.0 * (n + q)) == 2.0 * k + q && h * (n + q) == n * (z * root)
    requires 4.0 * (n * n) * radicand == 4.0 * (k * (1.0 - p)) + q
    ensures n * (p - x) * (p - x) - q * x * (1.0 - x) == (n + q) * ((x - (c - h)) * (x - (c + h)))
  {
    var s := z * root;
    SquareOfProduct(z, root);
    ScaledRadicand(n, q, radicand, s, 4.0 * (k * (1.0 - p)) + q);
    ProductOfRoots(n, k, q, p, c, h, s);
    Expanded(n, k, q, p, c, h, x);
  }

  lemma SquareOfProduct(a: real, b: real)
    ensures (a * b) * (a * b) == (a * a) * (b * b)
  {
  }

  lemma ScaledRadicand(n: real, q: real, radicand: real, s: real, t: real)
    requires s * s == q * radicand && 4.0 * (n * n) * radicand == t
    ensures 4.0 * (n * n) * (s * s) == q * t
  {
  }

  lemma NonNegativeProduct(a: real, b: real)
    requires a >= 0.0 && b >= 0.0
    ensures a * b >= 0.0
  {
  }

  lemma HalfNotNegative(z: Positive, count: int, of: int, root: real)
    requires of > 0 && IsRoot(z, root, count, of)
    ensures Half(z, root, of) >= 0.0 && Low(z, count, of, root) <= High(z, count, of, root)
  {
    Cleared(z, count, of, root);
    NonNegativeProduct(of as real, z * root);
    Signs(Half(z, root, of), of as real + z * z);
  }

  lemma Signs(a: real, b: real)
    ensures a * b > 0.0 <==> (a > 0.0 && b > 0.0) || (a < 0.0 && b < 0.0)
    ensures a * b == 0.0 <==> a == 0.0 || b == 0.0
  {
    if a * b == 0.0 && b != 0.0 {
      Cancel(if b > 0.0 then b else -b, a, 0.0);
    }
  }

  /** The end points are exactly the roots of the quadratic. */
  lemma EndsAreRoots(z: Positive, count: int, of: int, root: real, x: real)
    requires of > 0 && IsRoot(z, root, count, of)
    ensures Quadratic(z, count, of, x) == 0.0 <==> x == Low(z, count, of, root) || x == High(z, count, of, root)
  {
    Factored(z, count, of, root, x);
    var a, u, v := Lead(z, of), x - Low(z, count, of, root), x - High(z, count, of, root);
    Signs(a, u * v);
    Signs(u, v);
  }

  lemma SignBetween(a: real, x: real, low: real, high: real)
    requires a > 0.0 && low <= high
    ensures Factors(a, x, low, high) <= 0.0 <==> low <= x <= high
    ensures Factors(a, x, low, high) < 0.0 <==> low < x < high
  {
    var u, v := x - low, x - high;
    var product := u * v;
    Signs(u, v);
    Signs(a, product);
    assert Factors(a, x, low, high) == a * product;
  }

  /** Between them, and only there, the quadratic is not positive. */
  lemma InsideExactly(z: Positive, count: int, of: int, root: real, x: real)
    requires of > 0 && IsRoot(z, root, count, of)
    ensures Quadratic(z, count, of, x) <= 0.0 <==> Low(z, count, of, root) <= x <= High(z, count, of, root)
    ensures Quadratic(z, count, of, x) < 0.0 <==> Low(z, count, of, root) < x < High(z, count, of, root)
  {
    hide *;
    Factored(z, count, of, root, x);
    HalfNotNegative(z, count, of, root);
    SignBetween(Lead(z, of), x, Low(z, count, of, root), High(z, count, of, root));
  }

  lemma ShareBounds(count: int, of: int)
    requires 0 <= count <= of && of > 0
    ensures 0.0 <= Share(count, of) <= 1.0
    ensures Share(count, of) == 0.0 <==> count == 0
    ensures Share(count, of) == 1.0 <==> count == of
  {
    var n, p := of as real, Share(count, of);
    Divided(count as real, n, p);
    Signs(p, n);
    Signs(p - 1.0, n);
  }

  /** The interval holds the share, lies in [0, 1] (so that clamping changes nothing), and reaches an
      end of [0, 1] only when the share does. */
  lemma Encloses(z: Positive, count: int, of: int, root: real)
    requires 0 <= count <= of && of > 0 && IsRoot(z, root, count, of)
    ensures 0.0 <= Low(z, count, of, root) <= Share(count, of) <= High(z, count, of, root) <= 1.0
    ensures Low(z, count, of, root) == 0.0 <==> count == 0
    ensures High(z, count, of, root) == 1.0 <==> count == of
  {
    hide Low, High, Share;
    var p, low, high := Share(count, of), Low(z, count, of, root), High(z, count, of, root);
    ShareBounds(count, of);
    AtShare(z, count, of);
    InsideExactly(z, count, of, root, p);
    AtEnds(z, count, of);
    InsideExactly(z, count, of, root, 0.0);
    InsideExactly(z, count, of, root, 1.0);
    EndsAreRoots(z, count, of, root, 0.0);
    EndsAreRoots(z, count, of, root, 1.0);
    SumOfRoots(z, count, of, root);
  }

  lemma AtShare(z: Positive, count: int, of: int)
    requires 0 <= count <= of && of > 0
    ensures Quadratic(z, count, of, Share(count, of)) <= 0.0
  {
    var p := Share(count, of);
    ShareBounds(count, of);
    NonNegativeProduct(p, 1.0 - p);
    assert z * z * p * (1.0 - p) == z * z * (p * (1.0 - p));
    NonNegativeProduct(z * z, p * (1.0 - p));
  }

  lemma AtEnds(z: Positive, count: int, of: int)
    requires 0 <= count <= of && of > 0
    ensures Quadratic(z, count, of, 0.0) >= 0.0 && (Quadratic(z, count, of, 0.0) == 0.0 <==> count == 0)
    ensures Quadratic(z, count, of, 1.0) >= 0.0 && (Quadratic(z, count, of, 1.0) == 0.0 <==> count == of)
  {
    var n, p := of as real, Share(count, of);
    ShareBounds(count, of);
    SquareTimes(n, p);
    SquareTimes(n, p - 1.0);
    assert Quadratic(z, count, of, 0.0) == n * p * p;
    assert Quadratic(z, count, of, 1.0) == n * (p - 1.0) * (p - 1.0);
  }

  lemma SquareTimes(n: real, x: real)
    requires n > 0.0
    ensures n * x * x >= 0.0 && (n * x * x == 0.0 <==> x == 0.0)
  {
    assert n * x * x == n * (x * x);
    Signs(x, x);
    Signs(n, x * x);
  }

  /** The end points add up to more than 0 and less than 2: both cannot lie outside on one side. */
  lemma SumOfRoots(z: Positive, count: int, of: int, root: real)
    requires 0 <= count <= of && of > 0
    ensures 0.0 < Low(z, count, of, root) + High(z, count, of, root) < 2.0
  {
    var n, k, q, c := of as real, count as real, z * z, Centre(z, count, of);
    Signs(z, z);
    Cleared(z, count, of, root);
    assert Low(z, count, of, root) + High(z, count, of, root) == 2.0 * c;
    hide *;
    Signs(c, 2.0 * (n + q));
    assert (1.0 - c) * (2.0 * (n + q)) == 2.0 * (n - k) + q;
    Signs(1.0 - c, 2.0 * (n + q));
  }

  /** Counting the other way turns the interval round. */
  lemma Mirrored(z: Positive, count: int, of: int, root: real)
    requires of > 0 && IsRoot(z, root, count, of)
    ensures IsRoot(z, root, of - count, of)
    ensures Low(z, of - count, of, root) == 1.0 - High(z, count, of, root)
    ensures High(z, of - count, of, root) == 1.0 - Low(z, count, of, root)
  {
    var n, p, o := of as real, Share(count, of), Share(of - count, of);
    Divided(count as real, n, p);
    Divided((of - count) as real, n, o);
    assert (o - (1.0 - p)) * n == 0.0;
    Signs(o - (1.0 - p), n);
    assert o * (1.0 - o) == p * (1.0 - p);
    MirroredCentre(z, count, of);
  }

  lemma CentreCleared(z: Positive, count: int, of: int)
    requires of > 0
    ensures Centre(z, count, of) * (2.0 * (of as real + z * z)) == 2.0 * count as real + z * z
  {
    Cleared(z, count, of, 0.0);
  }

  lemma MirroredCentre(z: Positive, count: int, of: int)
    requires of > 0
    ensures Centre(z, of - count, of) == 1.0 - Centre(z, count, of)
  {
    hide *;
    CentreCleared(z, count, of);
    CentreCleared(z, of - count, of);
    Signs(z, z);
    var n, k := of as real, count as real;
    assert (of - count) as real == n - k;
    MirrorImage(n, k, z * z, Centre(z, count, of), Centre(z, of - count, of));
  }

  lemma MirrorImage(n: real, k: real, q: real, c: real, d: real)
    requires n + q > 0.0 && c * (2.0 * (n + q)) == 2.0 * k + q && d * (2.0 * (n + q)) == 2.0 * (n - k) + q
    ensures d == 1.0 - c
  {
    var a := 2.0 * (n + q);
    assert c * a == 2.0 * k + q && d * a == 2.0 * (n - k) + q;
    assert a * (1.0 - c) == a - c * a;
    Cancel(a, d, 1.0 - c);
  }

  lemma FartherIsMore(n: real, near: real, far: real)
    requires n > 0.0 && 0.0 <= near < far
    ensures n * near * near < n * far * far
  {
    Signs(far - near, far + near);
    assert far * far - near * near == (far - near) * (far + near);
    Signs(n, far * far - near * near);
    assert n * far * far - n * near * near == n * (far * far - near * near);
  }

  lemma MoreShare(less: int, more: int, of: int)
    requires less < more && of > 0
    ensures Share(less, of) < Share(more, of)
  {
    var n := of as real;
    Divided(less as real, n, Share(less, of));
    Divided(more as real, n, Share(more, of));
    Signs(Share(more, of) - Share(less, of), n);
  }

  /** A point below both shares that explains the larger explains the smaller, and strictly. */
  lemma ExplainsLess(z: Positive, less: int, more: int, of: int, x: real)
    requires 0 <= less < more <= of && x <= Share(less, of) && Quadratic(z, more, of, x) <= 0.0
    ensures Quadratic(z, less, of, x) < 0.0
  {
    MoreShare(less, more, of);
    var n, near, far, rest := of as real, Share(less, of) - x, Share(more, of) - x, z * z * x * (1.0 - x);
    assert Quadratic(z, less, of, x) == n * near * near - rest && Quadratic(z, more, of, x) == n * far * far - rest;
    hide *;
    FartherIsMore(n, near, far);
  }

  lemma LowRises(z: Positive, less: int, more: int, of: int, rootLess: real, rootMore: real)
    requires 0 <= less < more <= of && IsRoot(z, rootLess, less, of) && IsRoot(z, rootMore, more, of)
    ensures Low(z, less, of, rootLess) < Low(z, more, of, rootMore)
  {
    var x := Low(z, more, of, rootMore);
    hide *;
    Encloses(z, less, of, rootLess);
    HalfNotNegative(z, more, of, rootMore);
    InsideExactly(z, more, of, rootMore, x);
    InsideExactly(z, less, of, rootLess, x);
    if x <= Low(z, less, of, rootLess) {
      ExplainsLess(z, less, more, of, x);
    }
  }

  /** A larger count moves both ends up. */
  lemma Monotone(z: Positive, less: int, more: int, of: int, rootLess: real, rootMore: real)
    requires 0 <= less < more <= of && IsRoot(z, rootLess, less, of) && IsRoot(z, rootMore, more, of)
    ensures Low(z, less, of, rootLess) < Low(z, more, of, rootMore)
    ensures High(z, less, of, rootLess) < High(z, more, of, rootMore)
  {
    hide *;
    LowRises(z, less, more, of, rootLess, rootMore);
    Mirrored(z, less, of, rootLess);
    Mirrored(z, more, of, rootMore);
    LowRises(z, of - more, of - less, of, rootMore, rootLess);
  }

  // ---------------------------------------------------------------------------------------------
  // Rounding to four digits.

  lemma RoundMonotone(x: real, y: real)
    requires x <= y
    ensures Round(x) <= Round(y)
  {
    assert (x * 10000.0 + 0.5).Floor <= (y * 10000.0 + 0.5).Floor;
  }

  /** A decimal of at most four digits. */
  predicate FourDigits(x: real) {
    (10000.0 * x).Floor as real == 10000.0 * x
  }

  /** Rounding gives the nearest decimal of four digits, and the upper one of two equally near. */
  lemma RoundIsNearest(x: real)
    ensures FourDigits(Round(x)) && -0.00005 < Round(x) - x <= 0.00005
  {
    var n := (x * 10000.0 + 0.5).Floor;
    assert 10000.0 * Round(x) == n as real;
  }

  /** What is released: the clamps never bite, and the rounded interval still encloses the rounded share. */
  lemma ReleasedEncloses(z: Positive, count: int, of: int, root: real)
    requires 0 <= count <= of && of > 0 && IsRoot(z, root, count, of)
    ensures var rate := WilsonRate(z, count, of, root);
      && rate.value.Some? && rate.interval.Some?
      && rate.interval.value == Interval(Round(Low(z, count, of, root)), Round(High(z, count, of, root)))
      && 0.0 <= rate.interval.value.low <= rate.value.value <= rate.interval.value.high <= 1.0
      && Rounds(rate.value.value, Share(count, of))
      && Rounds(rate.interval.value.low, Low(z, count, of, root))
      && Rounds(rate.interval.value.high, High(z, count, of, root))
  {
    hide Low, High, Share, Round, IsRoot, FourDigits;
    Encloses(z, count, of, root);
    var p, low, high := Share(count, of), Low(z, count, of, root), High(z, count, of, root);
    RoundMonotone(0.0, low);
    RoundMonotone(low, p);
    RoundMonotone(p, high);
    RoundMonotone(high, 1.0);
    RoundEnds();
    RoundIsNearest(p);
    RoundIsNearest(low);
    RoundIsNearest(high);
  }

  lemma RoundEnds()
    ensures Round(0.0) == 0.0 && Round(1.0) == 1.0
  {
  }

  /** Released intervals keep their order as the count grows. */
  lemma ReleasedMonotone(z: Positive, less: int, more: int, of: int, rootLess: real, rootMore: real)
    requires 0 <= less < more <= of && IsRoot(z, rootLess, less, of) && IsRoot(z, rootMore, more, of)
    ensures var a, b := WilsonRate(z, less, of, rootLess), WilsonRate(z, more, of, rootMore);
      && a.interval.Some? && b.interval.Some?
      && a.interval.value.low <= b.interval.value.low && a.interval.value.high <= b.interval.value.high
  {
    hide Low, High, Share, Round, IsRoot;
    Monotone(z, less, more, of, rootLess, rootMore);
    ReleasedEncloses(z, less, of, rootLess);
    ReleasedEncloses(z, more, of, rootMore);
    RoundMonotone(Low(z, less, of, rootLess), Low(z, more, of, rootMore));
    RoundMonotone(High(z, less, of, rootLess), High(z, more, of, rootMore));
  }

  /** `r` is the four-digit decimal nearest to `x`. */
  predicate Rounds(r: real, x: real) {
    FourDigits(r) && -0.00005 < r - x <= 0.00005
  }

  lemma Released(z: Positive, count: int, of: int, root: real, rate: Rate)
    requires 0 <= count <= of && of > 0 && IsRoot(z, root, count, of) && rate == WilsonRate(z, count, of, root)
    ensures rate.value.Some? && rate.interval.Some?
    ensures Rounds(rate.value.value, Share(count, of))
    ensures Rounds(rate.interval.value.low, Low(z, count, of, root))
    ensures Rounds(rate.interval.value.high, High(z, count, of, root))
    ensures 0.0 <= rate.interval.value.low <= rate.value.value <= rate.interval.value.high <= 1.0
  {
    hide Low, High, Share, IsRoot, FourDigits;
    ReleasedEncloses(z, count, of, root);
  }

  /** `wilson`, with the quantile the source uses. */
  function WilsonAt95(count: int, of: int, root: real): (rate: Rate)
    requires 0 <= count <= of && (of > 0 ==> IsRoot(Z, root, count, of))
    ensures rate.count == count && rate.of == of
    ensures of == 0 ==> rate.value.None? && rate.interval.None?
    ensures of > 0 ==>
      && rate.value.Some? && rate.interval.Some?
      && Rounds(rate.value.value, count as real / of as real)
      && Rounds(rate.interval.value.low, Low(Z, count, of, root))
      && Rounds(rate.interval.value.high, High(Z, count, of, root))
    ensures of > 0 ==> 0.0 <= rate.interval.value.low <= rate.value.value <= rate.interval.value.high <= 1.0
  {
    if of > 0 then
      Released(Z, count, of, root, WilsonRate(Z, count, of, root));
      WilsonRate(Z, count, of, root)
    else WilsonRate(Z, count, of, root)
  }

  /** Without a leak the root is a fraction of the quantile. */
  lemma RootOfNone(z: Positive, of: int)
    requires of > 0
    ensures IsRoot(z, z / (2.0 * of as real), 0, of)
  {
    var n, root := of as real, z / (2.0 * of as real);
    assert Share(0, of) == 0.0;
    Divided(z, 2.0 * n, root);
    assert 4.0 * n * n * (root * root) == z * z;
    Divided(z * z, 4.0 * n * n, z * z / (4.0 * n * n));
  }

  /** The released interval in one case: one leak among five. */
  lemma OneOfFive(root: real)
    requires IsRoot(Z, root, 1, 5)
    ensures WilsonAt95(1, 5, root) == Rate(1, 5, Some(0.2), Some(Interval(0.0362, 0.6245)))
  {
    hide Low, High, IsRoot, WilsonRate;
    assert Quadratic(Z, 1, 5, 0.03615) > 0.0 && Quadratic(Z, 1, 5, 0.03625) < 0.0;
    assert Quadratic(Z, 1, 5, 0.62445) < 0.0 && Quadratic(Z, 1, 5, 0.62455) > 0.0;
    hide Quadratic;
    InsideExactly(Z, 1, 5, root, 0.03615);
    InsideExactly(Z, 1, 5, root, 0.03625);
    InsideExactly(Z, 1, 5, root, 0.62445);
    InsideExactly(Z, 1, 5, root, 0.62455);
  }
}
