/** evals/stats.py over exact reals. The square root enters as a value r >= 0 with r*r equal
    to the radicand. */
module Wilson {
  import opened Errors
  import opened Combinatorics
  import opened Estimation

  // p is the observed rate, m the number of trials

  function Radicand(p: real, m: real, z: real): real
    requires m > 0.0
  {
    p * (1.0 - p) / m + z * z / (4.0 * m * m)
  }

  predicate IsRoot(r: real, p: real, m: real, z: real)
    requires m > 0.0
  {
    r >= 0.0 && r * r == Radicand(p, m, z)
  }

  function Denominator(m: real, z: real): (d: real)
    requires m > 0.0
    ensures d >= 1.0
  {
    SignOfSquare(z);
    var u := z * z / m;
    NonNegativeFactor(u, m);
    1.0 + u
  }

  function Center(p: real, m: real, z: real): real
    requires m > 0.0
  {
    (p + z * z / (2.0 * m)) / Denominator(m, z)
  }

  function HalfWidth(m: real, z: real, root: real): real
    requires m > 0.0
  {
    z * root / Denominator(m, z)
  }

  function WilsonInterval(successes: int, n: int, z: real, root: real): Result<(real, real)> {
    if n <= 0 then Err(ValueError)
    else if !(0 <= successes <= n) then Err(ValueError)
    else
      var m := n as real;
      var p := successes as real / m;
      var center, halfWidth := Center(p, m, z), HalfWidth(m, z, root);
      var lo, hi := center - halfWidth, center + halfWidth;
      Ok((if lo > 0.0 then lo else 0.0, if hi < 1.0 then hi else 1.0))
  }

  function PassKInterval(successes: int, n: int, k: nat, z: real, root: real): Result<(real, real)> {
    var (lo, hi) :- WilsonInterval(successes, n, z, root);
    Ok((Pow(lo, k), Pow(hi, k)))
  }

  // ----- the geometry, over reals: n trials, observed rate p, squared z-score w

  /** c and h are centre and half width of the interval that inverts the score test. */
  predicate Fits(n: real, p: real, w: real, c: real, h: real) {
    && n > 0.0 && 0.0 <= p <= 1.0 && w >= 0.0 && h >= 0.0
    && (n + w) * c == n * p + w / 2.0
    && (n + w) * (c * c - h * h) == n * p * p
  }

  /** The score test at x accepts when this is at most zero, that is n (p - x)^2 <= w x (1 - x). */
  function Score(n: real, p: real, w: real, x: real): real {
    n * (p - x) * (p - x) - w * x * (1.0 - x)
  }

  lemma ScoreFactors(n: real, p: real, w: real, c: real, h: real, x: real)
    requires Fits(n, p, w, c, h)
    ensures Score(n, p, w, x) == (n + w) * ((x - c) * (x - c) - h * h)
  {
    var d := n + w;
    assert d * ((x - c) * (x - c) - h * h) == d * (x * x) - 2.0 * x * (d * c) + d * (c * c - h * h);
    assert Score(n, p, w, x) == n * p * p - 2.0 * x * (n * p) + n * (x * x) - w * x + w * (x * x);
    assert 2.0 * x * (d * c) == 2.0 * x * (n * p) + x * w;
  }

  /** The interval is the accepted set, and its ends are the two roots. */
  lemma AcceptedSet(n: real, p: real, w: real, c: real, h: real, x: real)
    requires Fits(n, p, w, c, h)
    ensures Score(n, p, w, x) <= 0.0 <==> c - h <= x <= c + h
    ensures Score(n, p, w, x) == 0.0 <==> x == c - h || x == c + h
  {
    ScoreFactors(n, p, w, c, h, x);
    var a, b := x - (c - h), (c + h) - x;
    assert (x - c) * (x - c) - h * h == -(a * b);
    SignOfScaled(n + w, a * b, Score(n, p, w, x));
    SignOfProduct(a, b);
  }

  lemma SignOfScaled(d: real, t: real, s: real)
    requires d > 0.0 && s == d * -t
    ensures s <= 0.0 <==> t >= 0.0
    ensures s == 0.0 <==> t == 0.0
  {
  }

  lemma SignOfProduct(a: real, b: real)
    requires a + b >= 0.0
    ensures a * b >= 0.0 <==> a >= 0.0 && b >= 0.0
    ensures a * b == 0.0 <==> a == 0.0 || b == 0.0
  {
  }

  lemma Mirror(n: real, p: real, w: real, c: real, h: real)
    requires Fits(n, p, w, c, h)
    ensures Fits(n, 1.0 - p, w, 1.0 - c, h)
  {
    var d := n + w;
    assert d * ((1.0 - c) * (1.0 - c) - h * h) == d - 2.0 * (d * c) + d * (c * c - h * h);
  }

  lemma NonNegativeProduct(a: real, b: real)
    requires a >= 0.0 && b >= 0.0
    ensures a * b >= 0.0
  {
  }

  lemma LowEnd(n: real, p: real, w: real, c: real, h: real)
    requires Fits(n, p, w, c, h)
    ensures 0.0 <= c - h
    ensures c - h == 0.0 <==> p == 0.0
  {
    NonNegativeFactor(c, n + w);
    assert (c - h) * (c + h) == c * c - h * h;
    LowEndSign(n, p, n + w, c - h, c + h, c * c - h * h);
  }

  lemma LowEndSign(n: real, p: real, d: real, lo: real, hi: real, t: real)
    requires n > 0.0 && d > 0.0 && lo <= hi && lo + hi >= 0.0
    requires lo * hi == t && d * t == n * p * p
    ensures 0.0 <= lo
    ensures lo == 0.0 <==> p == 0.0
  {
    var u := p * p;
    SignOfSquare(p);
    assert n * p * p == n * u;
    NonNegativeProduct(n, u);
    NonNegativeFactor(t, d);
    SignOfProduct(lo, hi);
    ZeroFactor(d, t);
    ZeroFactor(n, u);
    ZeroFactor(p, p);
  }

  lemma ZeroFactor(a: real, b: real)
    ensures a * b == 0.0 <==> a == 0.0 || b == 0.0
  {
  }

  /** The interval holds the observed rate. */
  lemma HoldsRate(n: real, p: real, w: real, c: real, h: real)
    requires Fits(n, p, w, c, h)
    ensures c - h <= p <= c + h
  {
    AcceptedSet(n, p, w, c, h, p);
    NonNegativeProduct(p, 1.0 - p);
    NonNegativeProduct(w, p * (1.0 - p));
    assert Score(n, p, w, p) == -(w * (p * (1.0 - p)));
  }

  lemma Ends(n: real, p: real, w: real, c: real, h: real)
    requires Fits(n, p, w, c, h)
    ensures 0.0 <= c - h <= p <= c + h <= 1.0
    ensures c - h == 0.0 <==> p == 0.0
    ensures c + h == 1.0 <==> p == 1.0
  {
    HoldsRate(n, p, w, c, h);
    LowEnd(n, p, w, c, h);
    Mirror(n, p, w, c, h);
    LowEnd(n, 1.0 - p, w, 1.0 - c, h);
  }

  /** A higher observed rate has the higher lower end. */
  lemma LowEndMonotone(n: real, p: real, w: real, c: real, h: real, p': real, c': real, h': real)
    requires Fits(n, p, w, c, h) && Fits(n, p', w, c', h') && p <= p'
    ensures c - h <= c' - h'
  {
    var x := c' - h';
    HoldsRate(n, p, w, c, h);
    AcceptedSet(n, p', w, c', h', x);
    AcceptedSet(n, p, w, c, h, x);
    if x < c - h {
      ScoreBelow(n, p, p', w, x);
    }
  }

  lemma ScoreBelow(n: real, p: real, p': real, w: real, x: real)
    requires n > 0.0 && x <= p <= p'
    ensures Score(n, p, w, x) <= Score(n, p', w, x)
  {
    var a, b := p - x, p' - x;
    ProductMonotone(a, a, b);
    ProductMonotone(b, a, b);
    ProductMonotone(n, a * a, b * b);
  }

  /** More trials at the same observed rate have the higher lower end. */
  lemma LowEndNests(n: real, n': real, p: real, w: real, c: real, h: real, c': real, h': real)
    requires Fits(n, p, w, c, h) && Fits(n', p, w, c', h') && n <= n'
    ensures c - h <= c' - h'
  {
    var x := c' - h';
    AcceptedSet(n', p, w, c', h', x);
    AcceptedSet(n, p, w, c, h, x);
    FewerTrialsAccept(n, n', p, w, x);
  }

  lemma FewerTrialsAccept(n: real, n': real, p: real, w: real, x: real)
    requires 0.0 < n <= n'
    ensures Score(n, p, w, x) <= Score(n', p, w, x)
  {
    var a := p - x;
    SignOfSquare(a);
    ProductMonotone(a * a, n, n');
  }

  lemma SignOfSquare(a: real)
    ensures a * a >= 0.0
  {
  }

  /** The interval collapses exactly when the z-score is zero. */
  lemma Width(n: real, p: real, w: real, c: real, h: real)
    requires Fits(n, p, w, c, h)
    ensures h == 0.0 <==> w == 0.0
  {
    var d, v := n + w, n * (p * (1.0 - p)) + w / 4.0;
    WidthAlgebra(n, p, w, c, h, d);
    NonNegativeProduct(p, 1.0 - p);
    NonNegativeProduct(n, p * (1.0 - p));
    ZeroFactor(w, v);
    ZeroFactor(d * d, h * h);
    ZeroFactor(h, h);
    ZeroFactor(d, d);
  }

  lemma WidthAlgebra(n: real, p: real, w: real, c: real, h: real, d: real)
    requires d == n + w && d * c == n * p + w / 2.0 && d * (c * c - h * h) == n * p * p
    ensures d * d * (h * h) == w * (n * (p * (1.0 - p)) + w / 4.0)
  {
    assert d * d * (h * h) == (d * c) * (d * c) - d * (d * (c * c - h * h));
    assert (d * c) * (d * c) == (n * p + w / 2.0) * (n * p + w / 2.0);
    assert d * (n * p * p) == n * (n * p * p) + w * (n * p * p);
  }

  // ----- the interval that the function returns

  /** The code's centre and half width satisfy the geometry. */
  lemma WilsonFits(p: real, m: real, z: real, r: real)
    requires m > 0.0 && 0.0 <= p <= 1.0 && z >= 0.0 && IsRoot(r, p, m, z)
    ensures Fits(m, p, z * z, Center(p, m, z), HalfWidth(m, z, r))
  {
    var u, v, t := Quotients(p, m, z, r);
    FitsAlgebra(m, p, z * z, u, v, t, z, r, Denominator(m, z), Center(p, m, z), HalfWidth(m, z, r));
  }

  /** The code's divisions, cleared of their denominators. */
  lemma Quotients(p: real, m: real, z: real, r: real) returns (u: real, v: real, t: real)
    requires m > 0.0 && z >= 0.0 && IsRoot(r, p, m, z)
    ensures u >= 0.0 && u * m == z * z && Denominator(m, z) == 1.0 + u
    ensures v * m == p * (1.0 - p) && m * (4.0 * t) == u && r * r == v + t
    ensures Center(p, m, z) * Denominator(m, z) == p + u / 2.0
    ensures HalfWidth(m, z, r) * Denominator(m, z) == z * r && HalfWidth(m, z, r) >= 0.0
  {
    u, v, t := z * z / m, p * (1.0 - p) / m, z * z / (4.0 * m * m);
    SignOfSquare(z);
    RateTimesTrials(z * z, m);
    RateTimesTrials(p * (1.0 - p), m);
    NonNegativeFactor(u, m);
    HalfQuotient(z * z, m, u);
    QuarterAlgebra(m, z * z, u, t);
    CenterTimes(p, m, z, u);
    HalfWidthTimes(m, z, r);
  }

  lemma CenterTimes(p: real, m: real, z: real, u: real)
    requires m > 0.0 && z * z / (2.0 * m) == u / 2.0
    ensures Center(p, m, z) * Denominator(m, z) == p + u / 2.0
  {
    RateTimesTrials(p + z * z / (2.0 * m), Denominator(m, z));
  }

  lemma HalfWidthTimes(m: real, z: real, r: real)
    requires m > 0.0 && z >= 0.0 && r >= 0.0
    ensures HalfWidth(m, z, r) * Denominator(m, z) == z * r && HalfWidth(m, z, r) >= 0.0
  {
    RateTimesTrials(z * r, Denominator(m, z));
    NonNegativeProduct(z, r);
    NonNegativeFactor(HalfWidth(m, z, r), Denominator(m, z));
  }

  lemma RateRange(p: real, m: real, s: real)
    requires p * m == s && 0.0 <= s <= m && m > 0.0
    ensures 0.0 <= p <= 1.0
  {
    NonNegativeFactor(p, m);
    NonNegativeFactor(1.0 - p, m);
  }

  lemma HalfQuotient(w: real, m: real, u: real)
    requires m > 0.0 && u * m == w
    ensures w / (2.0 * m) == u / 2.0
  {
    var x := w / (2.0 * m);
    assert x * (2.0 * m) == w;
    Cancel(m, 2.0 * x, u);
  }

  lemma QuarterAlgebra(m: real, w: real, u: real, t: real)
    requires m > 0.0 && u * m == w && t == w / (4.0 * m * m)
    ensures m * (4.0 * t) == u
  {
    var k := 4.0 * m * m;
    SignOfProduct(m, m);
    assert k == 4.0 * (m * m) > 0.0;
    assert t * k == w;
    assert t * k == (m * (4.0 * t)) * m;
    Cancel(m, m * (4.0 * t), u);
  }

  lemma FitsAlgebra(m: real, p: real, w: real, u: real, v: real, t: real, z: real, r: real, den: real, c: real, h: real)
    requires m > 0.0 && 0.0 <= p <= 1.0 && h >= 0.0
    requires u >= 0.0 && w == z * z && den == 1.0 + u && u * m == w
    requires v * m == p * (1.0 - p) && m * (4.0 * t) == u && r * r == v + t
    requires c * den == p + u / 2.0 && h * den == z * r
    ensures Fits(m, p, w, c, h)
  {
    SignOfSquare(z);
    SquareAlgebra(m, p, w, u, v, t, z, r, den, c, h);
    assert m * (p * p) == m * p * p;
    assert (m + w) * c == m * (c * den);
    assert m * (p + u / 2.0) == m * p + w / 2.0;
  }

  lemma SquareAlgebra(m: real, p: real, w: real, u: real, v: real, t: real, z: real, r: real, den: real, c: real, h: real)
    requires m > 0.0 && u >= 0.0 && w == z * z && den == 1.0 + u && u * m == w
    requires v * m == p * (1.0 - p) && m * (4.0 * t) == u && r * r == v + t
    requires c * den == p + u / 2.0 && h * den == z * r
    ensures (m + w) * (c * c - h * h) == m * (p * p)
  {
    var a, b, x := c * den, h * den, c * c - h * h;
    SpreadAlgebra(m, p, w, u, v, t, z, r, b);
    RateAlgebra(p, u, den, a, b * b);
    ScaleSquares(den, c, h, a, b, x);
    var y := p * p;
    assert a * a - b * b == den * y;
    SquareAlgebraEnd(m, w, u, den, x, y);
  }

  lemma SquareAlgebraEnd(m: real, w: real, u: real, d: real, x: real, y: real)
    requires u >= 0.0 && d == 1.0 + u && u * m == w && d * (d * x) == d * y
    ensures (m + w) * x == m * y
  {
    Cancel(d, d * x, y);
    assert (m + w) * x == m * (d * x);
  }

  lemma SpreadAlgebra(m: real, p: real, w: real, u: real, v: real, t: real, z: real, r: real, b: real)
    requires w == z * z && u * m == w && v * m == p * (1.0 - p) && m * (4.0 * t) == u
    requires r * r == v + t && b == z * r
    ensures b * b == u * (p * (1.0 - p)) + u * u / 4.0
  {
    assert b * b == (z * z) * (r * r) == w * v + w * t;
    assert w * v == u * (v * m) && w * t == u * (m * (4.0 * t)) / 4.0;
  }

  lemma RateAlgebra(p: real, u: real, den: real, a: real, bb: real)
    requires den == 1.0 + u && a == p + u / 2.0 && bb == u * (p * (1.0 - p)) + u * u / 4.0
    ensures a * a - bb == den * (p * p)
  {
    assert a * a == p * p + p * u + u * u / 4.0;
    assert u * (p * (1.0 - p)) == p * u - u * (p * p);
  }

  lemma ScaleSquares(d: real, c: real, h: real, a: real, b: real, x: real)
    requires a == c * d && b == h * d && x == c * c - h * h
    ensures d * (d * x) == a * a - b * b
  {
  }

  /** A call that the function accepts, with a non-negative z-score and an exact root. */
  predicate Call(s: int, n: int, z: real, root: real) {
    0 <= s <= n && n > 0 && z >= 0.0 && IsRoot(root, s as real / n as real, n as real, z)
  }

  function Low(s: int, n: int, z: real, root: real): real
    requires Call(s, n, z, root)
  {
    WilsonInterval(s, n, z, root).value.0
  }

  function High(s: int, n: int, z: real, root: real): real
    requires Call(s, n, z, root)
  {
    WilsonInterval(s, n, z, root).value.1
  }

  lemma CallFits(s: int, n: int, z: real, root: real) returns (p: real, c: real, h: real)
    requires Call(s, n, z, root)
    ensures p == s as real / n as real && p * n as real == s as real
    ensures Fits(n as real, p, z * z, c, h)
    ensures Low(s, n, z, root) == c - h && High(s, n, z, root) == c + h
  {
    var m := n as real;
    p := s as real / m;
    RateRange(p, m, s as real);
    WilsonFits(p, m, z, root);
    c, h := Center(p, m, z), HalfWidth(m, z, root);
    Ends(m, p, z * z, c, h);
  }

  /** The returned interval is exactly the set of rates that the score test accepts, its ends
      are the two roots of n (p - x)^2 = z^2 x (1 - x), and neither clamp changed them. */
  lemma IntervalInvertsScoreTest(s: int, n: int, z: real, root: real, x: real)
    requires Call(s, n, z, root)
    ensures Score(n as real, s as real / n as real, z * z, x) <= 0.0
            <==> Low(s, n, z, root) <= x <= High(s, n, z, root)
    ensures Score(n as real, s as real / n as real, z * z, x) == 0.0
            <==> x == Low(s, n, z, root) || x == High(s, n, z, root)
    ensures Low(s, n, z, root) == Center(s as real / n as real, n as real, z) - HalfWidth(n as real, z, root)
    ensures High(s, n, z, root) == Center(s as real / n as real, n as real, z) + HalfWidth(n as real, z, root)
  {
    var p, c, h := CallFits(s, n, z, root);
    AcceptedSet(n as real, p, z * z, c, h, x);
    WilsonFits(p, n as real, z, root);
    Ends(n as real, p, z * z, Center(p, n as real, z), HalfWidth(n as real, z, root));
  }

  /** The interval stays in [0, 1], holds the observed rate, reaches 0 only without a success
      and 1 only without a failure, and has positive width unless z is zero. */
  lemma IntervalEnds(s: int, n: int, z: real, root: real)
    requires Call(s, n, z, root)
    ensures 0.0 <= Low(s, n, z, root) <= s as real / n as real <= High(s, n, z, root) <= 1.0
    ensures Low(s, n, z, root) == 0.0 <==> s == 0
    ensures High(s, n, z, root) == 1.0 <==> s == n
    ensures Low(s, n, z, root) < High(s, n, z, root) <==> z > 0.0
  {
    var p, c, h := CallFits(s, n, z, root);
    FitsEnds(n as real, p, z, c, h, s as real);
  }

  lemma FitsEnds(m: real, p: real, z: real, c: real, h: real, s: real)
    requires Fits(m, p, z * z, c, h) && p * m == s && z >= 0.0
    ensures 0.0 <= c - h <= p <= c + h <= 1.0
    ensures c - h == 0.0 <==> s == 0.0
    ensures c + h == 1.0 <==> s == m
    ensures c - h < c + h <==> z > 0.0
  {
    Ends(m, p, z * z, c, h);
    Width(m, p, z * z, c, h);
    ZeroFactor(z, z);
    RateEnds(p, m, s);
  }

  lemma RateEnds(p: real, m: real, s: real)
    requires p * m == s && m > 0.0
    ensures p == 0.0 <==> s == 0.0
    ensures p == 1.0 <==> s == m
  {
    ZeroFactor(p, m);
    ZeroFactor(1.0 - p, m);
  }

  /** A negative z-score gives the same two ends, exchanged. */
  lemma NegativeExchanges(s: int, n: int, z: real, root: real)
    requires Call(s, n, z, root)
    ensures IsRoot(root, s as real / n as real, n as real, -z)
    ensures WilsonInterval(s, n, -z, root) == Ok((High(s, n, z, root), Low(s, n, z, root)))
  {
    var p, m := s as real / n as real, n as real;
    SameSquare(p, m, z);
    IntervalEnds(s, n, z, root);
    IntervalInvertsScoreTest(s, n, z, root, 0.0);
    NegatedHalfWidth(m, z, root);
  }

  lemma SameSquare(p: real, m: real, z: real)
    requires m > 0.0
    ensures Radicand(p, m, -z) == Radicand(p, m, z) && Denominator(m, -z) == Denominator(m, z)
    ensures Center(p, m, -z) == Center(p, m, z)
  {
    assert (-z) * (-z) == z * z;
  }

  lemma NegatedHalfWidth(m: real, z: real, root: real)
    requires m > 0.0
    ensures HalfWidth(m, -z, root) == -HalfWidth(m, z, root)
  {
    SameSquare(0.0, m, z);
    NegatedQuotient(z * root, (-z) * root, Denominator(m, z));
  }

  lemma NegatedQuotient(a: real, b: real, d: real)
    requires d > 0.0 && b == -a
    ensures b / d == -(a / d)
  {
    var x, y := a / d, b / d;
    assert x * d == a && y * d == b;
    Cancel(d, y, -x);
  }

  /** The rates that the score test accepts, given as the values between two ends. */
  predicate Encloses(m: real, p: real, w: real, x: real, lo: real, hi: real) {
    && 0.0 <= lo <= hi <= 1.0
    && (Score(m, p, w, x) <= 0.0 <==> lo <= x <= hi)
    && (Score(m, p, w, x) == 0.0 <==> x == lo || x == hi)
  }

  lemma CallEncloses(s: int, n: int, z: real, root: real, x: real, w: real)
    requires Call(s, n, z, root) && w == z * z
    ensures Encloses(n as real, s as real / n as real, w, x, Low(s, n, z, root), High(s, n, z, root))
    ensures Low(s, n, z, root) < High(s, n, z, root) <==> z > 0.0
  {
    IntervalInvertsScoreTest(s, n, z, root, x);
    IntervalEnds(s, n, z, root);
  }

  lemma Negate(p: real, m: real, z: real) returns (y: real)
    requires m > 0.0
    ensures y == -z && y * y == z * z && Radicand(p, m, y) == Radicand(p, m, z)
  {
    y := -z;
    SameSquare(p, m, z);
  }

  /** For every z-score the two returned ends enclose what the score test accepts, the lower first
      unless the z-score is negative. */
  lemma IntervalForAnyZ(s: int, n: int, z: real, root: real, x: real)
    requires 0 <= s <= n && n > 0 && IsRoot(root, s as real / n as real, n as real, z)
    ensures WilsonInterval(s, n, z, root).Ok?
    ensures var (a, b) := WilsonInterval(s, n, z, root).value;
            && (a <= b <==> z >= 0.0)
            && Encloses(n as real, s as real / n as real, z * z, x, if z >= 0.0 then a else b, if z >= 0.0 then b else a)
  {
    if z >= 0.0 {
      CallEncloses(s, n, z, root, x, z * z);
    } else {
      var y := Negate(s as real / n as real, n as real, z);
      CallEncloses(s, n, y, root, x, z * z);
      NegativeExchanges(s, n, y, root);
      assert z == -y;
    }
  }

  /** Successes and failures change places by reflecting the interval; the root is the same. */
  lemma IntervalSymmetric(s: int, n: int, z: real, root: real)
    requires Call(s, n, z, root)
    ensures Call(n - s, n, z, root)
    ensures Low(n - s, n, z, root) == 1.0 - High(s, n, z, root)
    ensures High(n - s, n, z, root) == 1.0 - Low(s, n, z, root)
  {
    MirrorCall(s, n, z, root);
    var p, c, h := CallFits(s, n, z, root);
    var p', c', h' := CallFits(n - s, n, z, root);
    MirrorRates(p, p', n as real, s as real, (n - s) as real);
    MirrorEnds(n as real, p, z * z, c, h, p', c', h');
  }

  lemma RateTimesTrials(s: real, m: real)
    requires m > 0.0
    ensures s / m * m == s
  {
  }

  lemma MirrorRates(p: real, p': real, m: real, s: real, s': real)
    requires m > 0.0 && p * m == s && p' * m == s' && s + s' == m
    ensures p' == 1.0 - p
  {
    Cancel(m, p', 1.0 - p);
  }

  lemma MirrorCall(s: int, n: int, z: real, root: real)
    requires Call(s, n, z, root)
    ensures Call(n - s, n, z, root)
  {
    var p, p', m := s as real / n as real, (n - s) as real / n as real, n as real;
    RateTimesTrials(s as real, m);
    RateTimesTrials((n - s) as real, m);
    MirrorRates(p, p', m, s as real, (n - s) as real);
    MirrorRadicand(p, p', m, z);
  }

  lemma MirrorRadicand(p: real, p': real, m: real, z: real)
    requires m > 0.0 && p' == 1.0 - p
    ensures Radicand(p', m, z) == Radicand(p, m, z)
  {
    assert p' * (1.0 - p') == p * (1.0 - p);
  }

  lemma MirrorEnds(m: real, p: real, w: real, c: real, h: real, p': real, c': real, h': real)
    requires Fits(m, p, w, c, h) && Fits(m, p', w, c', h') && p' == 1.0 - p
    ensures c' - h' == 1.0 - (c + h) && c' + h' == 1.0 - (c - h)
  {
    Mirror(m, p, w, c, h);
    FitsUnique(m, p', w, c', h', 1.0 - c, h);
  }

  lemma FitsUnique(n: real, p: real, w: real, c: real, h: real, c': real, h': real)
    requires Fits(n, p, w, c, h) && Fits(n, p, w, c', h')
    ensures c == c' && h == h'
  {
    Cancel(n + w, c, c');
    LowEndMonotone(n, p, w, c, h, p, c', h');
    LowEndMonotone(n, p, w, c', h', p, c, h);
  }

  /** More successes of as many trials raise both ends. */
  lemma IntervalMonotone(s: int, t: int, n: int, z: real, root: real, root': real)
    requires Call(s, n, z, root) && Call(t, n, z, root') && s <= t
    ensures Low(s, n, z, root) <= Low(t, n, z, root')
    ensures High(s, n, z, root) <= High(t, n, z, root')
  {
    var p, c, h := CallFits(s, n, z, root);
    var p', c', h' := CallFits(t, n, z, root');
    OrderedRates(p, p', n as real, s as real, t as real);
    OrderedEnds(n as real, p, z * z, c, h, p', c', h');
  }

  lemma OrderedRates(p: real, p': real, m: real, s: real, t: real)
    requires m > 0.0 && p * m == s && p' * m == t && s <= t
    ensures p <= p'
  {
    assert (p' - p) * m == t - s;
    NonNegativeFactor(p' - p, m);
  }

  lemma OrderedEnds(m: real, p: real, w: real, c: real, h: real, p': real, c': real, h': real)
    requires Fits(m, p, w, c, h) && Fits(m, p', w, c', h') && p <= p'
    ensures c - h <= c' - h' && c + h <= c' + h'
  {
    LowEndMonotone(m, p, w, c, h, p', c', h');
    Mirror(m, p, w, c, h);
    Mirror(m, p', w, c', h');
    LowEndMonotone(m, 1.0 - p', w, 1.0 - c', h', 1.0 - p, 1.0 - c, h);
  }

  /** At the same observed rate, more trials give an interval inside the one from fewer. */
  lemma IntervalNests(s: int, n: int, s': int, n': int, z: real, root: real, root': real)
    requires Call(s, n, z, root) && Call(s', n', z, root')
    requires n <= n' && s as real / n as real == s' as real / n' as real
    ensures Low(s, n, z, root) <= Low(s', n', z, root') <= High(s', n', z, root') <= High(s, n, z, root)
  {
    var m, m', w := n as real, n' as real, z * z;
    var p, c, h := CallFits(s, n, z, root);
    var p', c', h' := CallFits(s', n', z, root');
    LowEndNests(m, m', p, w, c, h, c', h');
    Mirror(m, p, w, c, h);
    Mirror(m', p, w, c', h');
    LowEndNests(m, m', 1.0 - p, w, 1.0 - c, h, 1.0 - c', h');
  }

  lemma {:induction false} PowMonotone(x: real, y: real, k: nat)
    requires 0.0 <= x <= y
    ensures 0.0 <= Pow(x, k) <= Pow(y, k)
    ensures x > 0.0 ==> Pow(x, k) > 0.0
  {
    if k > 0 {
      PowMonotone(x, y, k - 1);
      ProductChain(x, y, Pow(x, k - 1), Pow(y, k - 1));
    }
  }

  lemma ProductChain(x: real, y: real, a: real, b: real)
    requires 0.0 <= x <= y && 0.0 <= a <= b
    ensures 0.0 <= x * a <= y * b
    ensures x > 0.0 && a > 0.0 ==> x * a > 0.0
  {
    NonNegativeProduct(x, a);
    ProductMonotone(x, a, b);
    ProductMonotone(b, x, y);
    ZeroFactor(x, a);
  }

  /** The reported interval for pass^k holds the k-th power of the observed rate. */
  lemma PassKIntervalHoldsPower(s: int, n: int, k: nat, z: real, root: real)
    requires Call(s, n, z, root)
    ensures PassKInterval(s, n, k, z, root) == Ok((Pow(Low(s, n, z, root), k), Pow(High(s, n, z, root), k)))
    ensures var (lo, hi) := PassKInterval(s, n, k, z, root).value;
            && lo <= Pow(s as real / n as real, k) <= hi
            && (0 < s ==> 0.0 < lo)
  {
    IntervalEnds(s, n, z, root);
    PowMonotone(Low(s, n, z, root), s as real / n as real, k);
    PowMonotone(s as real / n as real, High(s, n, z, root), k);
  }

  lemma EstimateBelowRate(s: nat, n: nat, k: nat)
    requires s <= n && 0 < n && k <= n
    ensures PassK(s, n, k).value <= Pow(s as real / n as real, k)
  {
    RateTimesTrials(s as real, n as real);
    EstimateBelowPower(s, n, k, s as real / n as real);
  }

  /** The point estimate never exceeds the upper end; with some successes but fewer than k it
      is zero and lies strictly below its own reported lower end. */
  lemma PassKAgainstInterval(s: int, n: int, k: nat, z: real, root: real)
    requires Call(s, n, z, root) && k <= n
    ensures var (lo, hi) := PassKInterval(s, n, k, z, root).value;
            && PassK(s, n, k).value <= Pow(s as real / n as real, k) <= hi
            && (0 < s < k ==> PassK(s, n, k) == Ok(0.0) && PassK(s, n, k).value < lo)
  {
    PassKIntervalHoldsPower(s, n, k, z, root);
    EstimateBelowRate(s, n, k);
  }

  // ----- when the reported interval holds its own point estimate

  lemma {:induction false} PowStrict(x: real, y: real, k: nat)
    requires 0.0 <= x < y && k > 0
    ensures Pow(x, k) < Pow(y, k)
  {
    PowMonotone(x, y, k - 1);
    if k > 1 {
      PowStrict(x, y, k - 1);
    }
    StrictChain(x, y, Pow(x, k - 1), Pow(y, k - 1));
  }

  lemma StrictChain(x: real, y: real, a: real, b: real)
    requires 0.0 <= x < y && 0.0 <= a <= b && b > 0.0
    ensures x * a < y * b
  {
    ProductMonotone(x, a, b);
    assert y * b == x * b + (y - x) * b;
    NonNegativeProduct(y - x, b);
    ZeroFactor(y - x, b);
  }

  lemma PowOrder(x: real, y: real, k: nat)
    requires 0.0 <= x && 0.0 <= y && k > 0
    ensures Pow(x, k) <= Pow(y, k) <==> x <= y
  {
    if x <= y {
      PowMonotone(x, y, k);
    } else {
      PowStrict(y, x, k);
    }
  }

  predicate HoldsEstimate(s: int, n: int, k: nat, z: real, root: real)
    requires Call(s, n, z, root) && k <= n
  {
    var (lo, hi) := PassKInterval(s, n, k, z, root).value;
    lo <= PassK(s, n, k).value <= hi
  }

  /** The interval holds the point estimate exactly when the score test accepts the rate whose k-th
      power the estimate is. */
  lemma PassKInsideExactly(s: int, n: int, k: nat, z: real, root: real, x: real)
    requires Call(s, n, z, root) && 0 < k <= n
    requires x >= 0.0 && Pow(x, k) == PassK(s, n, k).value
    ensures HoldsEstimate(s, n, k, z, root) <==> Score(n as real, s as real / n as real, z * z, x) <= 0.0
  {
    PassKIntervalHoldsPower(s, n, k, z, root);
    IntervalEnds(s, n, z, root);
    IntervalInvertsScoreTest(s, n, z, root, x);
    PowOrder(Low(s, n, z, root), x, k);
    PowOrder(x, High(s, n, z, root), k);
  }

  /** The clear cases: no success, no failure or a single attempt keep the estimate inside; some
      successes but too few for one k-subset put it outside. */
  lemma PassKInsideCases(s: int, n: int, k: nat, z: real, root: real)
    requires Call(s, n, z, root) && k <= n
    ensures s == 0 || s == n || k <= 1 ==> HoldsEstimate(s, n, k, z, root)
    ensures 0 < s < k ==> !HoldsEstimate(s, n, k, z, root)
  {
    PassKAgainstInterval(s, n, k, z, root);
    PassKIntervalHoldsPower(s, n, k, z, root);
    IntervalEnds(s, n, z, root);
    if s == n {
      CertainEstimate(n, k);
      PowMonotone(Low(s, n, z, root), 1.0, k);
      PowOne(k);
    } else if k <= 1 {
      EstimateIsRatio(s, n, k);
      CombOne(s);
      CombOne(n);
    } else if s == 0 {
      PowZero(k);
    }
  }

  lemma {:induction false} PowOne(k: nat)
    ensures Pow(1.0, k) == 1.0
  {
    if k > 0 {
      PowOne(k - 1);
    }
  }

  lemma PowZero(k: nat)
    requires k > 0
    ensures Pow(0.0, k) == 0.0
  {
  }

  lemma {:induction false} CombOne(n: nat)
    ensures Comb(n, 1) == n
  {
    if n > 0 {
      CombOne(n - 1);
    }
  }

  /** An estimate no larger than the k-th power of a rate that the test rejects from below lies
      below the interval. */
  lemma BelowRejected(s: int, n: int, k: nat, z: real, root: real, y: real)
    requires Call(s, n, z, root) && 0 < k <= n
    requires 0.0 <= y <= s as real / n as real && Score(n as real, s as real / n as real, z * z, y) > 0.0
    requires PassK(s, n, k).value <= Pow(y, k)
    ensures !HoldsEstimate(s, n, k, z, root)
  {
    PassKIntervalHoldsPower(s, n, k, z, root);
    IntervalEnds(s, n, z, root);
    IntervalInvertsScoreTest(s, n, z, root, y);
    PowStrict(y, Low(s, n, z, root), k);
  }

  lemma CertainEstimate(n: nat, k: nat)
    requires k <= n
    ensures PassK(n, n, k) == Ok(1.0)
  {
    EstimateIsRatio(n, n, k);
    WholeShare(Comb(n, k) as real);
  }

  lemma WholeShare(a: real)
    requires a > 0.0
    ensures a / a == 1.0
  {
  }

  /** With exactly k successes the estimate is 1 / C(n,k). */
  lemma OneSubsetOutside(n: nat, k: nat, z: real, root: real, y: real)
    requires 0 < k <= n && Call(k, n, z, root) && Comb(n, k) > 0
    requires RejectedBelow(k as real / n as real, n as real, z, y)
    requires 1.0 / Comb(n, k) as real <= Pow(y, k)
    ensures !HoldsEstimate(k, n, k, z, root)
  {
    EstimateIsRatio(k, n, k);
    CombDiagonal(k);
    BelowRejected(k, n, k, z, root, y);
  }

  predicate RejectedBelow(p: real, m: real, z: real, y: real) {
    0.0 <= y <= p && Score(m, p, z * z, y) > 0.0
  }

  /** The reported pass^8 of 8 successes in 100 trials, at the default z-score: there are enough
      successes for a k-subset, and the estimate is below its interval all the same. */
  lemma EightOfAHundred(n: nat, k: nat, z: real, root: real)
    requires k == 8 && n == 100 && z == 1.96 && Call(k, n, z, root)
    ensures !HoldsEstimate(k, n, k, z, root)
  {
    var y := TwentyFifth(n, k, z);
    OneSubsetOutside(n, k, z, root, y);
  }

  lemma TwentyFifth(n: nat, k: nat, z: real) returns (y: real)
    requires k == 8 && n == 100 && z == 1.96
    ensures RejectedBelow(k as real / n as real, n as real, z, y)
    ensures Comb(n, k) > 0 && 1.0 / Comb(n, k) as real <= Pow(y, k)
  {
    y := 1.0 / 25.0;
    RejectsY(k as real / n as real, n as real, z, y);
    EightSubsets(n);
    PowEight(y);
    SmallShare(Comb(n, k) as real, Pow(y, k), y);
  }

  lemma SmallShare(c: real, v: real, y: real)
    requires c == 186087894300.0 && 25.0 * y == 1.0 && v == (y * y) * (y * y) * ((y * y) * (y * y))
    ensures 1.0 / c <= v
  {
    assert y == 0.04;
  }

  lemma RejectsY(p: real, n: real, z: real, y: real)
    requires p == 8.0 / 100.0 && n == 100.0 && z == 1.96 && 25.0 * y == 1.0
    ensures RejectedBelow(p, n, z, y)
  {
    assert y == 0.04 && p == 0.08;
  }

  lemma {:induction false} CombDiagonal(n: nat)
    ensures Comb(n, n) == 1
  {
    if n > 0 {
      CombSupport(n - 1, n);
      CombDiagonal(n - 1);
    }
  }

  lemma NextComb(n: nat, k: nat, a: nat, b: nat)
    requires k <= n && Comb(n, k) == a && (k + 1) * b == (n - k) * a
    ensures Comb(n, k + 1) == b
  {
    Absorption(n, k);
    assert (k + 1) * Comb(n, k + 1) == (k + 1) * b;
  }

  lemma EightSubsets(n: nat)
    requires n == 100
    ensures Comb(n, 8) == 186087894300
  {
    NextComb(n, 0, 1, 100);
    NextComb(n, 1, 100, 4950);
    NextComb(n, 2, 4950, 161700);
    NextComb(n, 3, 161700, 3921225);
    NextComb(n, 4, 3921225, 75287520);
    NextComb(n, 5, 75287520, 1192052400);
    NextComb(n, 6, 1192052400, 16007560800);
    NextComb(n, 7, 16007560800, 186087894300);
  }

  lemma PowTwo(y: real, k: nat)
    ensures Pow(y, k + 2) == (y * y) * Pow(y, k)
  {
    assert Pow(y, k + 2) == y * Pow(y, k + 1);
  }

  lemma PowEight(y: real)
    ensures Pow(y, 8) == (y * y) * (y * y) * ((y * y) * (y * y))
  {
    PowTwo(y, 0);
    PowTwo(y, 2);
    PowTwo(y, 4);
    PowTwo(y, 6);
    assert Pow(y, 0) == 1.0;
  }
}
