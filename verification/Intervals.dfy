/**
 * The score intervals of `src/recertia/stats.py`, over the reals.
 *
 * The square root is a parameter: any function that returns the non-negative root of every
 * non-negative number.
 */
module Intervals {
  import opened Prelude

  ghost predicate IsSqrt(sqrt: real -> real) {
    forall x: real {:trigger sqrt(x)} :: x >= 0.0 ==> sqrt(x) >= 0.0 && sqrt(x) * sqrt(x) == x
  }

  datatype StatsError = UnsupportedLevel | NegativeRoot

  datatype Interval = Interval(low: real, high: real, level: real)

  function ZFor(level: real): (z: Result<real, StatsError>)
    ensures z.Ok? <==> level == 0.90 || level == 0.95 || level == 0.99
    ensures z.Ok? ==> z.value > 1.6
  {
    if level == 0.90 then Ok(1.6448536269514722)
    else if level == 0.95 then Ok(1.959963984540054)
    else if level == 0.99 then Ok(2.5758293035489004)
    else Err(UnsupportedLevel)
  }

  /** The supported levels have the two-sided quantiles of the normal distribution, here to four places. */
  lemma QuantilesToFourPlaces(level: real)
    ensures ZFor(level).Ok? <==> level == 0.90 || level == 0.95 || level == 0.99
    ensures level == 0.90 ==> 1.6448 < ZFor(level).value < 1.6449
    ensures level == 0.95 ==> 1.9599 < ZFor(level).value < 1.9600
    ensures level == 0.99 ==> 2.5758 < ZFor(level).value < 2.5759
  {
  }

  function RealMax(a: real, b: real): real {
    if a < b then b else a
  }

  function RealMin(a: real, b: real): real {
    if a < b then a else b
  }

  function Rate(successes: int, trials: int): real
    requires trials > 0
  {
    successes as real / trials as real
  }

  function Radicand(p: real, n: real, z: real): real
    requires n > 0.0
  {
    p * (1.0 - p) / n + z * z / (4.0 * n * n)
  }

  function Centre(p: real, n: real, z: real): real
    requires n > 0.0
  {
    assert z * z / n >= 0.0;
    (p + z * z / (2.0 * n)) / (1.0 + z * z / n)
  }

  function Half(p: real, n: real, z: real, root: real): real
    requires n > 0.0
  {
    assert z * z / n >= 0.0;
    (z / (1.0 + z * z / n)) * root
  }

  function Clamped(centre: real, half: real, level: real): Interval {
    Interval(RealMax(0.0, centre - half), RealMin(1.0, centre + half), level)
  }

  /** `wilson_interval`. */
  function Wilson(successes: int, trials: int, level: real, sqrt: real -> real): Result<Option<Interval>, StatsError> {
    if trials <= 0 then Ok(None)
    else
      match ZFor(level)
      case Err(e) => Err(e)
      case Ok(z) =>
        var p, n := Rate(successes, trials), trials as real;
        if Radicand(p, n, z) < 0.0 then Err(NegativeRoot)
        else Ok(Some(Clamped(Centre(p, n, z), Half(p, n, z, sqrt(Radicand(p, n, z))), level)))
  }

  // ----- the score quadratic, with k for z*z/n and q for z times the root

  /** `(p - x)^2 - k x (1 - x)`: negative inside the interval, zero at its ends. */
  function Score(p: real, k: real, x: real): real {
    (p - x) * (p - x) - k * x * (1.0 - x)
  }

  predicate Scaled(p: real, k: real, q: real) {
    0.0 <= p <= 1.0 && k > 0.0 && q >= 0.0 && q * q == k * p * (1.0 - p) + k * k / 4.0
  }

  function Low(p: real, k: real, q: real): real
    requires k > 0.0
  {
    (p + k / 2.0 - q) / (1.0 + k)
  }

  function High(p: real, k: real, q: real): real
    requires k > 0.0
  {
    (p + k / 2.0 + q) / (1.0 + k)
  }

  /** A product, named so that proofs can reason about it linearly. */
  function Times(a: real, b: real): real {
    a * b
  }

  lemma ProductSign(a: real, b: real)
    ensures a >= 0.0 && b >= 0.0 ==> Times(a, b) >= 0.0
    ensures a > 0.0 && b > 0.0 ==> Times(a, b) > 0.0
  {
  }

  lemma ProductNegates(a: real, b: real)
    ensures Times(a, -b) == -Times(a, b) && Times(-a, b) == -Times(a, b)
  {
  }

  lemma ProductGrows(c: real, a: real, b: real)
    ensures c >= 0.0 && a <= b ==> Times(c, a) <= Times(c, b)
    ensures c > 0.0 && a < b ==> Times(c, a) < Times(c, b)
  {
    ProductSign(c, b - a);
    assert Times(c, b - a) == Times(c, b) - Times(c, a);
  }

  lemma SignOfFactor(b: real, d: real)
    requires d > 0.0
    ensures b * d >= 0.0 ==> b >= 0.0
    ensures b * d > 0.0 ==> b > 0.0
  {
    ProductGrows(d, b, 0.0);
    ProductGrows(d, 0.0, b);
    assert Times(d, b) == b * d;
  }

  lemma QuotientSign(a: real, d: real)
    requires d > 0.0
    ensures a >= 0.0 ==> a / d >= 0.0
    ensures a > 0.0 ==> a / d > 0.0
  {
    ScaleBack(a, d);
    SignOfFactor(a / d, d);
  }

  lemma ScaleBack(x: real, d: real)
    requires d > 0.0
    ensures (x / d) * d == x
  {
  }

  lemma LowTimes(p: real, k: real, q: real)
    requires k > 0.0
    ensures Low(p, k, q) * (1.0 + k) == p + k / 2.0 - q
    ensures High(p, k, q) * (1.0 + k) == p + k / 2.0 + q
  {
    ScaleBack(p + k / 2.0 - q, 1.0 + k);
    ScaleBack(p + k / 2.0 + q, 1.0 + k);
  }

  lemma Square(a: real, b: real)
    ensures (a - b) * (a - b) == a * a - 2.0 * a * b + b * b
  {
  }

  lemma Expand(p: real, k: real, x: real)
    ensures Score(p, k, x) == (1.0 + k) * (x * x) - (2.0 * p + k) * x + p * p
  {
    Square(p, x);
    assert k * x * (1.0 - x) == k * x - k * (x * x);
  }

  lemma ScaledScore(p: real, k: real, x: real, y: real)
    requires y == x * (1.0 + k)
    ensures (1.0 + k) * Score(p, k, x) == y * y - (2.0 * p + k) * y + (1.0 + k) * (p * p)
  {
    Expand(p, k, x);
    var d := 1.0 + k;
    assert y * y == d * (d * (x * x)) by { assert (x * d) * (x * d) == d * (d * (x * x)); }
    assert (2.0 * p + k) * y == d * ((2.0 * p + k) * x);
  }

  lemma Discriminant(p: real, k: real, q: real)
    requires Scaled(p, k, q)
    ensures (p + k / 2.0) * (p + k / 2.0) - q * q == (1.0 + k) * (p * p)
  {
    assert (p + k / 2.0) * (p + k / 2.0) == p * p + p * k + k * k / 4.0;
    assert k * p * (1.0 - p) == p * k - k * (p * p);
  }

  lemma Factored(y: real, c: real, q: real)
    ensures y * y - 2.0 * c * y + c * c - q * q == (y - (c - q)) * (y - (c + q))
  {
    var u := y - c;
    assert (y - (c - q)) * (y - (c + q)) == (u + q) * (u - q);
    assert (u + q) * (u - q) == u * u - q * q;
    Square(y, c);
  }

  /** The quadratic, scaled, in terms of its roots. */
  lemma ScoreFactors(p: real, k: real, q: real, x: real)
    requires Scaled(p, k, q)
    ensures Score(p, k, x) == Times(1.0 + k, Times(x - Low(p, k, q), x - High(p, k, q)))
  {
    var d, c, y := 1.0 + k, p + k / 2.0, x * (1.0 + k);
    var lo, hi := Low(p, k, q), High(p, k, q);
    ScaledScore(p, k, x, y);
    Discriminant(p, k, q);
    assert 2.0 * p + k == 2.0 * c;
    Factored(y, c, q);
    LowTimes(p, k, q);
    FactorOut(x, lo, hi, d);
    CancelFactor(d, Score(p, k, x), d * ((x - lo) * (x - hi)));
  }

  lemma FactorOut(x: real, lo: real, hi: real, d: real)
    ensures (x * d - lo * d) * (x * d - hi * d) == d * (d * ((x - lo) * (x - hi)))
  {
    var a, b := x - lo, x - hi;
    assert x * d - lo * d == a * d && x * d - hi * d == b * d;
    assert (a * d) * (b * d) == d * (d * (a * b));
  }

  lemma CancelFactor(d: real, a: real, b: real)
    requires d > 0.0 && d * a == d * b
    ensures a == b
  {
    assert d * (a - b) == 0.0;
  }

  lemma SquareGrows(a: real, b: real)
    requires 0.0 <= a < b
    ensures a * a < b * b
  {
    ProductGrows(a, a, b);
    ProductGrows(b, a, b);
    assert Times(a, b) == Times(b, a);
  }

  lemma SquareOrder(a: real, b: real)
    requires b >= 0.0 && a * a <= b * b
    ensures -b <= a <= b
  {
    if a > b {
      SquareGrows(b, a);
    } else if a < -b {
      SquareGrows(b, -a);
    }
  }

  lemma DivideOrder(a: real, b: real, d: real)
    requires d > 0.0 && a * d <= b * d
    ensures a <= b
  {
    if a > b { ProductGrows(d, b, a); }
  }

  lemma Clearance(p: real, k: real, q: real)
    requires Scaled(p, k, q)
    ensures q * q - (k * (p - 0.5)) * (k * (p - 0.5)) == (1.0 + k) * (k * (p * (1.0 - p)))
  {
    var t, s, u := k * (p - 0.5), p * (1.0 - p), (p - 0.5) * (p - 0.5);
    assert t * t == (k * k) * u;
    assert u == 0.25 - s;
    assert (k * k) * (0.25 - s) == k * k / 4.0 - (k * k) * s;
    assert k * p * (1.0 - p) == k * s;
    assert (1.0 + k) * (k * s) == k * s + (k * k) * s;
  }

  lemma RootClears(p: real, k: real, q: real)
    requires Scaled(p, k, q)
    ensures -q <= k * (p - 0.5) <= q
  {
    var s, ks, c := p * (1.0 - p), k * (p * (1.0 - p)), 1.0 + k;
    Clearance(p, k, q);
    ProductSign(p, 1.0 - p);
    ProductSign(k, s);
    ProductSign(c, ks);
    SquareOrder(k * (p - 0.5), q);
  }

  lemma EnclosesRate(p: real, k: real, q: real)
    requires Scaled(p, k, q)
    ensures Low(p, k, q) <= p <= High(p, k, q)
  {
    RootClears(p, k, q);
    LowTimes(p, k, q);
    var lo, hi, d := Low(p, k, q), High(p, k, q), 1.0 + k;
    assert p * d == p + k / 2.0 + k * (p - 0.5);
    DivideOrder(lo, p, d);
    DivideOrder(p, hi, d);
  }

  lemma WithinUnit(p: real, k: real, q: real)
    requires Scaled(p, k, q)
    ensures 0.0 <= Low(p, k, q) && High(p, k, q) <= 1.0
  {
    LowTimes(p, k, q);
    Discriminant(p, k, q);
    assert p * p >= 0.0;
    SquareOrder(q, p + k / 2.0);
    DivideOrder(0.0, Low(p, k, q), 1.0 + k);
    var r := 1.0 - p;
    assert Scaled(r, k, q) by { assert k * r * (1.0 - r) == k * p * (1.0 - p); }
    Discriminant(r, k, q);
    assert r * r >= 0.0;
    SquareOrder(q, r + k / 2.0);
    DivideOrder(High(p, k, q), 1.0, 1.0 + k);
  }

  lemma Difference(p: real, r: real, k: real, x: real)
    ensures Score(r, k, x) - Score(p, k, x) == Times(r - p, r + p - 2.0 * x)
  {
    Square(r, x);
    Square(p, x);
    assert (r - p) * (r + p - 2.0 * x) == r * r - p * p - 2.0 * r * x + 2.0 * p * x;
  }

  lemma PositiveMeansOutside(a: real, b: real, d: real)
    requires d > 0.0 && Times(d, Times(a, b)) > 0.0
    ensures (a > 0.0 && b > 0.0) || (a < 0.0 && b < 0.0)
  {
    ProductGrows(d, Times(a, b), 0.0);
    ProductNegates(a, b);
    ProductSign(a, -b);
    ProductSign(-a, b);
  }

  lemma ScoreGains(p: real, r: real, k: real, x: real)
    ensures p < r && x <= p ==> Score(p, k, x) < Score(r, k, x)
    ensures p < r && r <= x ==> Score(r, k, x) < Score(p, k, x)
  {
    Difference(p, r, k, x);
    var u, v := r - p, r + p - 2.0 * x;
    ProductSign(u, v);
    ProductSign(u, -v);
    ProductNegates(u, v);
  }

  /** Both ends rise strictly with the rate. */
  lemma EndsRise(p: real, q: real, r: real, t: real, k: real)
    requires Scaled(p, k, q) && Scaled(r, k, t) && p < r
    ensures Low(p, k, q) < Low(r, k, t) && High(p, k, q) < High(r, k, t)
  {
    EnclosesRate(p, k, q);
    EnclosesRate(r, k, t);
    LowRises(p, q, r, t, k);
    HighRises(p, q, r, t, k);
  }

  lemma LowRises(p: real, q: real, r: real, t: real, k: real)
    requires Scaled(p, k, q) && Scaled(r, k, t) && p < r
    requires Low(p, k, q) <= p && r <= High(r, k, t)
    ensures Low(p, k, q) < Low(r, k, t)
  {
    var lo := Low(p, k, q);
    RootsScoreZero(p, k, q);
    ScoreGains(p, r, k, lo);
    ScoreFactors(r, k, t, lo);
    PositiveMeansOutside(lo - Low(r, k, t), lo - High(r, k, t), 1.0 + k);
  }

  lemma HighRises(p: real, q: real, r: real, t: real, k: real)
    requires Scaled(p, k, q) && Scaled(r, k, t) && p < r
    requires Low(p, k, q) <= p && r <= High(r, k, t)
    ensures High(p, k, q) < High(r, k, t)
  {
    var hi := High(r, k, t);
    RootsScoreZero(r, k, t);
    ScoreGains(p, r, k, hi);
    ScoreFactors(p, k, q, hi);
    PositiveMeansOutside(hi - Low(p, k, q), hi - High(p, k, q), 1.0 + k);
  }

  lemma RootsScoreZero(p: real, k: real, q: real)
    requires Scaled(p, k, q)
    ensures Score(p, k, Low(p, k, q)) == 0.0 && Score(p, k, High(p, k, q)) == 0.0
  {
    ScoreFactors(p, k, q, Low(p, k, q));
    ScoreFactors(p, k, q, High(p, k, q));
    ZeroFactor(1.0 + k, Low(p, k, q) - High(p, k, q));
    ZeroFactor(1.0 + k, High(p, k, q) - Low(p, k, q));
  }

  lemma ZeroFactor(d: real, a: real)
    ensures Times(d, Times(0.0, a)) == 0.0 && Times(d, Times(a, 0.0)) == 0.0
  {
  }

  // ----- Wilson's interval is that of the quadratic

  /** A sample of at least one trial, at a level the table has. */
  predicate Sampled(successes: int, trials: int, level: real) {
    0 <= successes <= trials && trials > 0 && ZFor(level).Ok?
  }

  function Weight(trials: int, level: real): (k: real)
    requires trials > 0 && ZFor(level).Ok?
    ensures k > 0.0
  {
    ZFor(level).value * ZFor(level).value / trials as real
  }

  lemma RateInUnit(successes: int, trials: int)
    requires 0 <= successes <= trials && trials > 0
    ensures 0.0 <= Rate(successes, trials) <= 1.0
  {
    ScaleBack(successes as real, trials as real);
    DivideOrder(0.0, Rate(successes, trials), trials as real);
    DivideOrder(Rate(successes, trials), 1.0, trials as real);
  }

  lemma RateRises(a: int, b: int, trials: int)
    requires a < b && trials > 0
    ensures Rate(a, trials) < Rate(b, trials)
  {
    ScaleBack(a as real, trials as real);
    ScaleBack(b as real, trials as real);
    if Rate(b, trials) <= Rate(a, trials) {
      ProductGrows(trials as real, Rate(b, trials), Rate(a, trials));
    }
  }

  lemma FourSquares(n: real, m: real)
    requires n > 0.0 && m == 4.0 * n * n
    ensures m > 0.0
  {
    ProductSign(n, n);
    assert m == 4.0 * Times(n, n);
  }

  lemma QuotientsAdd(s: real, n: real, zz: real)
    requires s >= 0.0 && zz > 0.0 && n > 0.0
    ensures 4.0 * n * n > 0.0 && s / n + zz / (4.0 * n * n) >= 0.0 && zz / n > 0.0
  {
    FourSquares(n, 4.0 * n * n);
    QuotientSign(s, n);
    QuotientSign(zz, 4.0 * n * n);
    QuotientSign(zz, n);
  }

  lemma RadicandIsPositive(p: real, n: real, z: real)
    requires n > 0.0 && z > 0.0 && 0.0 <= p <= 1.0
    ensures Radicand(p, n, z) >= 0.0
    ensures z * z / n > 0.0
  {
    ProductSign(p, 1.0 - p);
    ProductSign(z, z);
    QuotientsAdd(Times(p, 1.0 - p), n, Times(z, z));
  }

  /** `n` times the radicand, with `k` for `z * z / n`. */
  lemma RadicandTimes(s: real, n: real, zz: real, k: real)
    requires n > 0.0 && k == zz / n
    ensures 4.0 * n * n > 0.0 && zz == k * n
    ensures zz * (s / n) == k * s
    ensures zz * (zz / (4.0 * n * n)) == k * k / 4.0
  {
    var m, a := 4.0 * n * n, s / n;
    FourSquares(n, m);
    ScaleBack(zz, n);
    ScaleBack(s, n);
    assert zz * a == k * (a * n);
    assert zz / m == k / (4.0 * n) by { FourFold(k, n); }
    ScaleBack(k, 4.0 * n);
    var b := k / (4.0 * n);
    assert zz * b == k * (n * b);
    assert n * b == k / 4.0;
    assert k * (k / 4.0) == k * k / 4.0;
  }

  lemma FourFold(k: real, n: real)
    requires n > 0.0
    ensures 4.0 * n * n > 0.0 && (k * n) / (4.0 * n * n) == k / (4.0 * n)
  {
    var m := 4.0 * n * n;
    FourSquares(n, m);
    var b, c := (k * n) / m, k / (4.0 * n);
    ScaleBack(k * n, m);
    ScaleBack(k, 4.0 * n);
    assert c * m == (c * (4.0 * n)) * n;
    CancelFactor(m, b, c);
  }

  lemma RadicandScaled(p: real, n: real, z: real, k: real, root: real)
    requires n > 0.0 && z > 0.0 && k == z * z / n && 0.0 <= p <= 1.0
    requires root >= 0.0 && root * root == Radicand(p, n, z)
    ensures Scaled(p, k, z * root)
  {
    var s, zz, q := p * (1.0 - p), z * z, z * root;
    RadicandIsPositive(p, n, z);
    RadicandTimes(s, n, zz, k);
    ProductSign(z, root);
    assert q * q == zz * (root * root);
    var a, b := s / n, zz / (4.0 * n * n);
    assert root * root == a + b;
    assert zz * (a + b) == zz * a + zz * b;
    assert k * p * (1.0 - p) == k * s;
  }

  lemma EndsAreScaled(p: real, n: real, z: real, k: real, root: real)
    requires n > 0.0 && z > 0.0 && k == z * z / n && k > 0.0
    ensures Centre(p, n, z) - Half(p, n, z, root) == Low(p, k, z * root)
    ensures Centre(p, n, z) + Half(p, n, z, root) == High(p, k, z * root)
  {
    var d := 1.0 + k;
    HalveQuotient(z * z, n);
    assert Centre(p, n, z) == (p + k / 2.0) / d;
    ScaleBack(p + k / 2.0, d);
    ScaleBack(z, d);
    var half := (z / d) * root;
    assert half * d == z * root by { assert (z / d) * root * d == (z / d) * d * root; }
    LowTimes(p, k, z * root);
    CancelFactor(d, Centre(p, n, z) - half, Low(p, k, z * root));
    CancelFactor(d, Centre(p, n, z) + half, High(p, k, z * root));
  }

  lemma HalveQuotient(a: real, n: real)
    requires n > 0.0
    ensures a / (2.0 * n) == a / n / 2.0
  {
    ScaleBack(a, n);
    ScaleBack(a, 2.0 * n);
    CancelFactor(2.0 * n, a / (2.0 * n), a / n / 2.0);
  }

  lemma ClampsChangeNothing(p: real, n: real, z: real, k: real, root: real, level: real)
    requires n > 0.0 && z > 0.0 && k == z * z / n && 0.0 <= p <= 1.0
    requires root >= 0.0 && root * root == Radicand(p, n, z)
    ensures Scaled(p, k, z * root)
    ensures Clamped(Centre(p, n, z), Half(p, n, z, root), level)
         == Interval(Low(p, k, z * root), High(p, k, z * root), level)
  {
    var q := z * root;
    RadicandScaled(p, n, z, k, root);
    EndsAreScaled(p, n, z, k, root);
    WithinUnit(p, k, q);
    EnclosesRate(p, k, q);
  }

  /** The clamps of `wilson_interval` change nothing: its ends are those of the quadratic. */
  lemma WilsonEnds(successes: int, trials: int, level: real, sqrt: real -> real) returns (q: real)
    requires Sampled(successes, trials, level) && IsSqrt(sqrt)
    ensures Scaled(Rate(successes, trials), Weight(trials, level), q)
    ensures Wilson(successes, trials, level, sqrt)
         == Ok(Some(Interval(Low(Rate(successes, trials), Weight(trials, level), q),
                             High(Rate(successes, trials), Weight(trials, level), q), level)))
  {
    var p, n, z := Rate(successes, trials), trials as real, ZFor(level).value;
    RateInUnit(successes, trials);
    var root := sqrt(Radicand(p, n, z));
    RadicandIsPositive(p, n, z);
    ClampsChangeNothing(p, n, z, Weight(trials, level), root, level);
    q := z * root;
  }

  /** What `wilson_interval` answers on a sample that has an answer. */
  function WilsonOf(successes: int, trials: int, level: real, sqrt: real -> real): Interval
    requires Wilson(successes, trials, level, sqrt).Ok? && Wilson(successes, trials, level, sqrt).value.Some?
  {
    Wilson(successes, trials, level, sqrt).value.value
  }

  /**
   * Wilson's interval is exactly the set of probabilities whose score test accepts the sample:
   * `(p - x)^2 <= z^2 x (1 - x) / n`, with equality at the two ends only.
   */
  lemma WilsonIsTheScoreInterval(successes: int, trials: int, level: real, sqrt: real -> real, x: real)
    requires Sampled(successes, trials, level) && IsSqrt(sqrt)
    ensures Wilson(successes, trials, level, sqrt).Ok? && Wilson(successes, trials, level, sqrt).value.Some?
    ensures var w := WilsonOf(successes, trials, level, sqrt); var p := Rate(successes, trials);
            var k := Weight(trials, level);
            && (w.low <= x <= w.high <==> Score(p, k, x) <= 0.0)
            && (x == w.low || x == w.high <==> Score(p, k, x) == 0.0)
            && 0.0 <= w.low <= p <= w.high <= 1.0
  {
    RateInUnit(successes, trials);
    var q := WilsonEnds(successes, trials, level, sqrt);
    ScoreInterval(Rate(successes, trials), Weight(trials, level), q, x);
  }

  lemma ScoreInterval(p: real, k: real, q: real, x: real)
    requires Scaled(p, k, q)
    ensures Low(p, k, q) <= x <= High(p, k, q) <==> Score(p, k, x) <= 0.0
    ensures x == Low(p, k, q) || x == High(p, k, q) <==> Score(p, k, x) == 0.0
    ensures 0.0 <= Low(p, k, q) <= p <= High(p, k, q) <= 1.0
  {
    ScoreFactors(p, k, q, x);
    WithinUnit(p, k, q);
    EnclosesRate(p, k, q);
    SignOfProduct(x - Low(p, k, q), x - High(p, k, q), 1.0 + k);
  }

  lemma SignOfProduct(a: real, b: real, d: real)
    requires d > 0.0 && b <= a
    ensures Times(d, Times(a, b)) <= 0.0 <==> b <= 0.0 <= a
    ensures Times(d, Times(a, b)) == 0.0 <==> a == 0.0 || b == 0.0
  {
    ProductSign(a, b);
    ProductSign(-a, -b);
    ProductSign(a, -b);
    ProductNegates(a, b);
    ProductNegates(-a, b);
    ProductGrows(d, 0.0, Times(a, b));
    ProductGrows(d, Times(a, b), 0.0);
    ZeroFactor(d, a);
    ZeroFactor(d, b);
  }

  /** One more success moves both ends up. */
  lemma WilsonRises(a: int, b: int, trials: int, level: real, sqrt: real -> real)
    requires Sampled(a, trials, level) && Sampled(b, trials, level) && a < b && IsSqrt(sqrt)
    ensures Wilson(a, trials, level, sqrt).Ok? && Wilson(a, trials, level, sqrt).value.Some?
    ensures Wilson(b, trials, level, sqrt).Ok? && Wilson(b, trials, level, sqrt).value.Some?
    ensures WilsonOf(a, trials, level, sqrt).low < WilsonOf(b, trials, level, sqrt).low
    ensures WilsonOf(a, trials, level, sqrt).high < WilsonOf(b, trials, level, sqrt).high
  {
    var q := WilsonEnds(a, trials, level, sqrt);
    var t := WilsonEnds(b, trials, level, sqrt);
    RateRises(a, b, trials);
    EndsRise(Rate(a, trials), q, Rate(b, trials), t, Weight(trials, level));
  }

  function Mirrored(i: Interval): Interval {
    Interval(1.0 - i.high, 1.0 - i.low, i.level)
  }

  /** The interval of a sample with its successes and failures exchanged. */
  lemma WilsonMirrors(successes: int, trials: int, level: real, sqrt: real -> real)
    requires Sampled(successes, trials, level) && IsSqrt(sqrt)
    ensures Wilson(successes, trials, level, sqrt).Ok? && Wilson(successes, trials, level, sqrt).value.Some?
    ensures Wilson(trials - successes, trials, level, sqrt) == Ok(Some(Mirrored(WilsonOf(successes, trials, level, sqrt))))
  {
    var q := WilsonEnds(successes, trials, level, sqrt);
    var t := WilsonEnds(trials - successes, trials, level, sqrt);
    RatesComplement(successes, trials);
    EndsMirror(Rate(successes, trials), Weight(trials, level), q, t);
  }

  lemma RatesComplement(successes: int, trials: int)
    requires trials > 0
    ensures Rate(trials - successes, trials) == 1.0 - Rate(successes, trials)
  {
    ScaleBack(successes as real, trials as real);
    ScaleBack((trials - successes) as real, trials as real);
    CancelFactor(trials as real, Rate(trials - successes, trials), 1.0 - Rate(successes, trials));
  }

  lemma EndsMirror(p: real, k: real, q: real, t: real)
    requires Scaled(p, k, q) && Scaled(1.0 - p, k, t)
    ensures Low(1.0 - p, k, t) == 1.0 - High(p, k, q) && High(1.0 - p, k, t) == 1.0 - Low(p, k, q)
  {
    assert q * q == t * t by { assert k * (1.0 - p) * p == k * p * (1.0 - p); }
    SquareOrder(q, t);
    SquareOrder(t, q);
    LowTimes(p, k, q);
    LowTimes(1.0 - p, k, t);
    CancelFactor(1.0 + k, Low(1.0 - p, k, t), 1.0 - High(p, k, q));
    CancelFactor(1.0 + k, High(1.0 - p, k, t), 1.0 - Low(p, k, q));
  }

  // ----- samples with more successes than trials

  /** The radicand is a quotient by the number of trials, with `k` for `z * z / n`. */
  lemma RadicandIsQuotient(p: real, n: real, z: real, k: real)
    requires n > 0.0 && k == z * z / n
    ensures Times(Radicand(p, n, z), n) == Times(p, 1.0 - p) + k / 4.0
  {
    var s, zz := Times(p, 1.0 - p), z * z;
    ScaleBack(zz, n);
    ScaleBack(s, n);
    FourFold(k, n);
    ScaleBack(k, 4.0 * n);
    SumTimes(s / n, k / (4.0 * n), n);
    assert k * n == zz;
    assert zz / (4.0 * n * n) == k / (4.0 * n);
    assert Radicand(p, n, z) == s / n + k / (4.0 * n);
    assert 4.0 * (k / (4.0 * n) * n) == k;
  }

  lemma SumTimes(a: real, b: real, n: real)
    ensures Times(a + b, n) == Times(a, n) + Times(b, n)
  {
  }

  lemma ScaledSign(x: real, n: real)
    requires n > 0.0
    ensures x < 0.0 <==> Times(x, n) < 0.0
  {
    ProductSign(x, n);
    ProductSign(-x, n);
    ProductNegates(x, n);
  }

  /** The root fails exactly on samples so wrong that their rate pulls the radicand below zero. */
  lemma RootFailsIff(successes: int, trials: int, level: real, sqrt: real -> real)
    ensures Wilson(successes, trials, level, sqrt) == Err(NegativeRoot)
       <==> (trials > 0 && ZFor(level).Ok?
             && Times(Rate(successes, trials), 1.0 - Rate(successes, trials)) + Weight(trials, level) / 4.0 < 0.0)
  {
    if trials > 0 && ZFor(level).Ok? {
      var p, n, z := Rate(successes, trials), trials as real, ZFor(level).value;
      RadicandIsQuotient(p, n, z, Weight(trials, level));
      ScaledSign(Radicand(p, n, z), n);
    }
  }

  // ----- Newcombe's interval for a difference

  datatype Sample = Sample(successes: nat, trials: nat)

  /** `newcombe_wilson_difference`: both arms are computed before either is looked at. */
  function Newcombe(treatment: Sample, control: Sample, level: real, sqrt: real -> real): Result<Option<Interval>, StatsError> {
    match Wilson(treatment.successes, treatment.trials, level, sqrt)
    case Err(e) => Err(e)
    case Ok(ti) =>
      match Wilson(control.successes, control.trials, level, sqrt)
      case Err(e) => Err(e)
      case Ok(ci) =>
        if ti.None? || ci.None? then Ok(None)
        else
          var p, r := Rate(treatment.successes, treatment.trials), Rate(control.successes, control.trials);
          var low := p - r - sqrt(Hypot(p - ti.value.low, ci.value.high - r));
          var high := p - r + sqrt(Hypot(ti.value.high - p, r - ci.value.low));
          Ok(Some(Interval(low, high, level)))
  }

  function Hypot(a: real, b: real): (h: real)
    ensures h >= 0.0
  {
    a * a + b * b
  }

  predicate BothSampled(treatment: Sample, control: Sample, level: real) {
    Sampled(treatment.successes, treatment.trials, level) && Sampled(control.successes, control.trials, level)
  }

  lemma HypotIsShort(a: real, b: real, root: real)
    requires a >= 0.0 && b >= 0.0 && root >= 0.0 && root * root == Hypot(a, b)
    ensures root <= a + b
  {
    assert a * b >= 0.0;
    assert (a + b) * (a + b) == a * a + 2.0 * (a * b) + b * b;
    SquareOrder(root, a + b);
  }

  lemma RootOfHypot(a: real, b: real, sqrt: real -> real)
    requires a >= 0.0 && b >= 0.0 && IsSqrt(sqrt)
    ensures 0.0 <= sqrt(Hypot(a, b)) <= a + b
  {
    HypotIsShort(a, b, sqrt(Hypot(a, b)));
  }

  /**
   * The interval contains the observed difference and lies within what the two Wilson intervals
   * allow, so within [-1, 1].
   */
  lemma NewcombeContains(treatment: Sample, control: Sample, level: real, sqrt: real -> real)
    requires BothSampled(treatment, control, level) && IsSqrt(sqrt)
    ensures Newcombe(treatment, control, level, sqrt).Ok? && Newcombe(treatment, control, level, sqrt).value.Some?
    ensures var i := Newcombe(treatment, control, level, sqrt).value.value;
            var d := Rate(treatment.successes, treatment.trials) - Rate(control.successes, control.trials);
            var ti := WilsonOf(treatment.successes, treatment.trials, level, sqrt);
            var ci := WilsonOf(control.successes, control.trials, level, sqrt);
            && -1.0 <= ti.low - ci.high <= i.low <= d <= i.high <= ti.high - ci.low <= 1.0
  {
    var p, r := Rate(treatment.successes, treatment.trials), Rate(control.successes, control.trials);
    WilsonIsTheScoreInterval(treatment.successes, treatment.trials, level, sqrt, p);
    WilsonIsTheScoreInterval(control.successes, control.trials, level, sqrt, r);
    var ti := WilsonOf(treatment.successes, treatment.trials, level, sqrt);
    var ci := WilsonOf(control.successes, control.trials, level, sqrt);
    RootOfHypot(p - ti.low, ci.high - r, sqrt);
    RootOfHypot(ti.high - p, r - ci.low, sqrt);
  }

  /**
   * Each end lies as far from the observed difference as the two Wilson distances on its side,
   * put together as the sides of a right angle.
   */
  lemma NewcombeEnds(treatment: Sample, control: Sample, level: real, sqrt: real -> real)
    requires BothSampled(treatment, control, level) && IsSqrt(sqrt)
    ensures Newcombe(treatment, control, level, sqrt).Ok? && Newcombe(treatment, control, level, sqrt).value.Some?
    ensures var i := Newcombe(treatment, control, level, sqrt).value.value;
            var p, r := Rate(treatment.successes, treatment.trials), Rate(control.successes, control.trials);
            var ti := WilsonOf(treatment.successes, treatment.trials, level, sqrt);
            var ci := WilsonOf(control.successes, control.trials, level, sqrt);
            && i.level == level && i.low <= p - r <= i.high
            && Squared(p - r - i.low) == Squared(p - ti.low) + Squared(ci.high - r)
            && Squared(i.high - (p - r)) == Squared(ti.high - p) + Squared(r - ci.low)
  {
    var p, r := Rate(treatment.successes, treatment.trials), Rate(control.successes, control.trials);
    NewcombeContains(treatment, control, level, sqrt);
    var ti := WilsonOf(treatment.successes, treatment.trials, level, sqrt);
    var ci := WilsonOf(control.successes, control.trials, level, sqrt);
    RootIsRoot(p - ti.low, ci.high - r, sqrt);
    RootIsRoot(ti.high - p, r - ci.low, sqrt);
  }

  function Squared(x: real): real {
    x * x
  }

  lemma RootIsRoot(a: real, b: real, sqrt: real -> real)
    requires IsSqrt(sqrt)
    ensures Squared(sqrt(Hypot(a, b))) == Squared(a) + Squared(b)
  {
  }

  /** Swapping the two arms negates the interval. */
  lemma NewcombeSwaps(treatment: Sample, control: Sample, level: real, sqrt: real -> real)
    requires BothSampled(treatment, control, level) && IsSqrt(sqrt)
    ensures Newcombe(treatment, control, level, sqrt).Ok? && Newcombe(treatment, control, level, sqrt).value.Some?
    ensures var i := Newcombe(treatment, control, level, sqrt).value.value;
            Newcombe(control, treatment, level, sqrt) == Ok(Some(Interval(-i.high, -i.low, level)))
  {
    var p, r := Rate(treatment.successes, treatment.trials), Rate(control.successes, control.trials);
    WilsonIsTheScoreInterval(treatment.successes, treatment.trials, level, sqrt, p);
    WilsonIsTheScoreInterval(control.successes, control.trials, level, sqrt, r);
    var ti := WilsonOf(treatment.successes, treatment.trials, level, sqrt);
    var ci := WilsonOf(control.successes, control.trials, level, sqrt);
    assert Hypot(r - ci.low, ti.high - p) == Hypot(ti.high - p, r - ci.low);
    assert Hypot(ci.high - r, p - ti.low) == Hypot(p - ti.low, ci.high - r);
  }

  /** There is no interval iff an arm has no trials; a level outside the table is then not noticed. */
  lemma NoInterval(treatment: Sample, control: Sample, level: real, sqrt: real -> real)
    requires treatment.successes <= treatment.trials && control.successes <= control.trials && IsSqrt(sqrt)
    ensures Newcombe(treatment, control, level, sqrt) == Err(UnsupportedLevel)
       <==> ZFor(level).Err? && (treatment.trials > 0 || control.trials > 0)
    ensures (Newcombe(treatment, control, level, sqrt) == Ok(None))
       <==> ((treatment.trials == 0 && control.trials == 0)
             || (ZFor(level).Ok? && (treatment.trials == 0 || control.trials == 0)))
  {
    if ZFor(level).Ok? {
      if treatment.trials > 0 { var q := WilsonEnds(treatment.successes, treatment.trials, level, sqrt); }
      if control.trials > 0 { var t := WilsonEnds(control.successes, control.trials, level, sqrt); }
    }
  }
}
