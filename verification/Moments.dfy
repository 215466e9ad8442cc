/**
 * Running sums of paired values. They satisfy the sum-of-squares inequalities for every linear combination of the
 * two values, which bound correlation and cosine similarity.
 */
module Moments {

  /** How many pairs were added, with the sums of x, y, xy, x^2 and y^2. */
  datatype Sums = Sums(n: nat, x: real, y: real, xy: real, xx: real, yy: real) {
    function Add(a: real, b: real): Sums {
      Sums(n + 1, x + a, y + b, xy + a * b, xx + a * a, yy + b * b)
    }
  }

  const NONE := Sums(0, 0.0, 0.0, 0.0, 0.0, 0.0)

  function SumsOf(xs: seq<real>, ys: seq<real>): (s: Sums)
    requires |xs| == |ys|
    ensures s.n == |xs|
  {
    if xs == [] then NONE else SumsOf(xs[..|xs| - 1], ys[..|ys| - 1]).Add(xs[|xs| - 1], ys[|ys| - 1])
  }

  /** The polynomial a*l^2 + 2*c*l + b. */
  function Quadratic(a: real, c: real, b: real, l: real): real {
    a * l * l + 2.0 * c * l + b
  }

  /** The sum of the squares of l*x + y. */
  function Squares(s: Sums, l: real): real {
    Quadratic(s.xx, s.xy, s.yy, l)
  }

  /** The sum of l*x + y. */
  function Total(s: Sums, l: real): real {
    l * s.x + s.y
  }

  /** Within any sums of squares Z, totals T and counts n of the same values: Z >= 0 and T^2 <= n Z. */
  ghost predicate Consistent(s: Sums, l: real) {
    Squares(s, l) >= 0.0 && Total(s, l) * Total(s, l) <= s.n as real * Squares(s, l)
  }

  lemma QuadraticSum(a: real, c: real, b: real, p: real, q: real, r: real, l: real)
    ensures Quadratic(a + p, c + q, b + r, l) == Quadratic(a, c, b, l) + Quadratic(p, q, r, l)
  {
  }

  lemma SquareOfSum(a: real, b: real, l: real)
    ensures (l * a + b) * (l * a + b) == Quadratic(a * a, a * b, b * b, l)
  {
    assert (l * a + b) * (l * a + b) == (l * a) * (l * a) + 2.0 * (l * a) * b + b * b;
  }

  lemma SquaresOfAdd(s: Sums, a: real, b: real, l: real, w: real)
    requires w == l * a + b
    ensures Squares(s.Add(a, b), l) == Squares(s, l) + w * w && Total(s.Add(a, b), l) == Total(s, l) + w
  {
    QuadraticSum(s.xx, s.xy, s.yy, a * a, a * b, b * b, l);
    SquareOfSum(a, b, l);
  }

  /** n w^2 - 2 T w + Z >= 0 whenever T^2 <= n Z. */
  lemma NonNegativeForm(n: real, t: real, z: real, w: real)
    requires n >= 0.0 && z >= 0.0 && t * t <= n * z
    ensures n * w * w - 2.0 * t * w + z >= 0.0
  {
    var f := n * w * w - 2.0 * t * w + z;
    if n == 0.0 {
      if t != 0.0 { NonZeroSquare(t); }
    } else {
      var d := n * w - t;
      assert n * f == d * d + (n * z - t * t);
      assert d * d >= 0.0;
      FactorSign(n, f);
    }
  }

  lemma DifferenceOfSquares(u: real, t: real)
    ensures (u - t) * (u + t) == u * u - t * t
  {
  }

  lemma TimesZero(x: real, y: real)
    ensures y == 0.0 ==> x * y == 0.0
  {
  }

  lemma NegativeSquare(u: real, t: real)
    requires u > 0.0 && u + t == 0.0
    ensures t * t > 0.0
  {
    DifferenceOfSquares(u, t);
    TimesZero(u - t, u + t);
    PositiveProduct(u, u);
  }

  lemma NonZeroSquare(t: real)
    requires t != 0.0
    ensures t * t > 0.0
  {
    if t > 0.0 { PositiveProduct(t, t); } else { NegativeSquare(-t, t); }
  }

  lemma NegativeProduct(n: real, f: real)
    requires n > 0.0 && f < 0.0
    ensures n * f < 0.0
  {
    PositiveProduct(n, -f);
    assert n * -f == -(n * f);
  }

  lemma FactorSign(n: real, f: real)
    requires n > 0.0 && n * f >= 0.0
    ensures f >= 0.0
  {
    if f < 0.0 { NegativeProduct(n, f); }
  }

  lemma GrownBound(n: real, t: real, z: real, w: real)
    requires n >= 0.0 && z >= 0.0 && t * t <= n * z
    ensures (t + w) * (t + w) <= (n + 1.0) * (z + w * w) && z + w * w >= 0.0
  {
    NonNegativeForm(n, t, z, w);
    assert (n + 1.0) * (z + w * w) - (t + w) * (t + w) == n * z - t * t + (n * w * w - 2.0 * t * w + z);
    assert w * w >= 0.0;
  }

  lemma AddIsConsistent(s: Sums, a: real, b: real, l: real)
    requires Consistent(s, l)
    ensures Consistent(s.Add(a, b), l)
  {
    var w := l * a + b;
    SquaresOfAdd(s, a, b, l, w);
    GrownBound(s.n as real, Total(s, l), Squares(s, l), w);
  }

  lemma {:induction false} SumsAreConsistent(xs: seq<real>, ys: seq<real>, l: real)
    requires |xs| == |ys|
    ensures Consistent(SumsOf(xs, ys), l)
  {
    if xs != [] {
      var n := |xs| - 1;
      SumsAreConsistent(xs[..n], ys[..n], l);
      AddIsConsistent(SumsOf(xs[..n], ys[..n]), xs[n], ys[n], l);
    }
  }

  // ---- Discriminants ----

  lemma SomewhereNegative(c: real, b: real) returns (l: real)
    requires c != 0.0
    ensures Quadratic(0.0, c, b, l) < 0.0
  {
    var d := 2.0 * c;
    l := -(b + 1.0) / d;
    assert d * l == -(b + 1.0);
    assert 0.0 * l * l == 0.0;
    assert Quadratic(0.0, c, b, l) == d * l + b;
  }

  lemma AtVertex(a: real, c: real, b: real, l: real)
    requires a > 0.0 && l == -c / a && Quadratic(a, c, b, l) >= 0.0
    ensures c * c <= a * b
  {
    assert l * a == -c;
    assert a * Quadratic(a, c, b, l) == (a * l) * (a * l) + 2.0 * c * (a * l) + a * b;
    assert a * Quadratic(a, c, b, l) >= 0.0;
    assert (a * l) * (a * l) == c * c && 2.0 * c * (a * l) == -2.0 * c * c;
  }

  /** A quadratic that is nowhere negative has no positive discriminant. */
  lemma Discriminant(a: real, c: real, b: real)
    requires a >= 0.0 && forall l :: Quadratic(a, c, b, l) >= 0.0
    ensures c * c <= a * b
  {
    if a > 0.0 {
      var l := -c / a;
      assert Quadratic(a, c, b, l) >= 0.0;
      AtVertex(a, c, b, l);
    } else if c != 0.0 {
      var l := SomewhereNegative(c, b);
    }
  }

  /** n times the sum of squares less the square of the sum. */
  function SpreadX(s: Sums): real { s.n as real * s.xx - s.x * s.x }

  function SpreadY(s: Sums): real { s.n as real * s.yy - s.y * s.y }

  function Covariance(s: Sums): real { s.n as real * s.xy - s.x * s.y }

  lemma SpreadIsQuadratic(s: Sums, l: real)
    ensures s.n as real * Squares(s, l) - Total(s, l) * Total(s, l) ==
            Quadratic(SpreadX(s), Covariance(s), SpreadY(s), l)
  {
    var n := s.n as real;
    assert n * Squares(s, l) == n * s.xx * l * l + 2.0 * (n * s.xy) * l + n * s.yy;
    assert Total(s, l) * Total(s, l) == s.x * s.x * l * l + 2.0 * (s.x * s.y) * l + s.y * s.y;
    assert SpreadX(s) * l * l == n * s.xx * l * l - s.x * s.x * l * l;
    assert Covariance(s) * l == n * s.xy * l - s.x * s.y * l;
  }

  lemma SpreadIsNonNegative(s: Sums, l: real)
    requires Consistent(s, l)
    ensures Quadratic(SpreadX(s), Covariance(s), SpreadY(s), l) >= 0.0
  {
    SpreadIsQuadratic(s, l);
  }

  /** The sums with x and y exchanged. */
  function Exchanged(s: Sums): Sums {
    Sums(s.n, s.y, s.x, s.xy, s.yy, s.xx)
  }

  lemma {:induction false} SumsOfExchanged(xs: seq<real>, ys: seq<real>)
    requires |xs| == |ys|
    ensures SumsOf(ys, xs) == Exchanged(SumsOf(xs, ys))
  {
    if xs != [] {
      var n := |xs| - 1;
      SumsOfExchanged(xs[..n], ys[..n]);
    }
  }

  /** What every list of pairs guarantees of its sums. */
  ghost predicate Sound(s: Sums) {
    (forall l :: Consistent(s, l)) && Consistent(Exchanged(s), 0.0)
  }

  lemma SumsAreSound(xs: seq<real>, ys: seq<real>)
    requires |xs| == |ys|
    ensures Sound(SumsOf(xs, ys))
  {
    forall l ensures Consistent(SumsOf(xs, ys), l) { SumsAreConsistent(xs, ys, l); }
    SumsAreConsistent(ys, xs, 0.0);
    SumsOfExchanged(xs, ys);
  }

  lemma SecondSpread(s: Sums)
    requires Consistent(s, 0.0)
    ensures SpreadY(s) >= 0.0 && s.yy >= 0.0
  {
    SpreadIsNonNegative(s, 0.0);
  }

  /** Both radicands of the correlation are non-negative, and the square of its numerator is at most their product. */
  lemma CorrelationInequality(s: Sums)
    requires Sound(s)
    ensures SpreadX(s) >= 0.0 && SpreadY(s) >= 0.0 && Covariance(s) * Covariance(s) <= SpreadX(s) * SpreadY(s)
  {
    SecondSpread(s);
    SecondSpread(Exchanged(s));
    forall l ensures Quadratic(SpreadX(s), Covariance(s), SpreadY(s), l) >= 0.0 { SpreadIsNonNegative(s, l); }
    Discriminant(SpreadX(s), Covariance(s), SpreadY(s));
  }

  /** The square of a scalar product is at most the product of the squared norms. */
  lemma ProductInequality(s: Sums)
    requires Sound(s)
    ensures s.xx >= 0.0 && s.yy >= 0.0 && s.xy * s.xy <= s.xx * s.yy
  {
    SecondSpread(s);
    SecondSpread(Exchanged(s));
    forall l ensures Quadratic(s.xx, s.xy, s.yy, l) >= 0.0 { assert Consistent(s, l); }
    Discriminant(s.xx, s.xy, s.yy);
  }

  // ---- Ratios ----

  lemma PositiveProduct(x: real, y: real)
    ensures x > 0.0 && y > 0.0 ==> x * y > 0.0
  {
  }

  lemma SquareGrows(x: real, y: real)
    requires 0.0 <= y < x
    ensures y * y < x * x
  {
    PositiveProduct(x - y, x + y);
    DifferenceOfSquares(x, y);
  }

  /** A ratio lies in [-1, 1] when its numerator's square is at most its denominator's. */
  lemma RatioBound(num: real, den: real)
    requires den > 0.0 && num * num <= den * den
    ensures -1.0 <= num / den <= 1.0
  {
    if num > den { SquareGrows(num, den); }
    if -num > den { SquareGrows(-num, den); }
    var q := num / den;
    assert q * den == num;
    assert (1.0 - q) * den >= 0.0 && (1.0 + q) * den >= 0.0;
  }

  lemma ProductSquares(a: real, b: real, ra: real, rb: real)
    requires ra * ra == a && rb * rb == b
    ensures (ra * rb) * (ra * rb) == a * b
  {
    assert (ra * rb) * (ra * rb) == (ra * ra) * (rb * rb);
  }

  /** Any square root function. */
  ghost predicate IsRoot(root: real -> real) {
    forall x :: x >= 0.0 ==> root(x) >= 0.0 && root(x) * root(x) == x
  }

  lemma RootAt(root: real -> real, x: real)
    ensures IsRoot(root) && x >= 0.0 ==> root(x) >= 0.0 && root(x) * root(x) == x
  {
  }

  lemma NonNegativeProduct(x: real, y: real)
    ensures x >= 0.0 && y >= 0.0 ==> x * y >= 0.0
  {
  }

  lemma RootIsUnique(x: real, y: real)
    requires x >= 0.0 && y >= 0.0 && x * x == y * y
    ensures x == y
  {
    DifferenceOfSquares(x, y);
    if x < y { PositiveProduct(y - x, x + y); } else if y < x { PositiveProduct(x - y, x + y); }
  }
}
