/**
 * Cosine similarity of signal vectors, its range, symmetry and value at equal vectors, and the best stored match of a
 * workload.
 */
module Fingerprint {
  import opened Moments
  import opened Options

  const DIMENSIONS := 11
  const MIN_NORM := 0.000000000001
  const MATCH_THRESHOLD := 0.85

  /** The divisor is never zero where the quotient is used: both norms are at least the minimum. */
  function Quotient(dot: real, ra: real, rb: real): real {
    if ra * rb == 0.0 then 0.0 else dot / (ra * rb)
  }

  function CosineOf(s: Sums, root: real -> real): real {
    if s.xx < MIN_NORM || s.yy < MIN_NORM then 0.0 else Quotient(s.xy, root(s.xx), root(s.yy))
  }

  lemma QuotientBound(dot: real, a: real, b: real, ra: real, rb: real)
    requires a > 0.0 && b > 0.0 && ra >= 0.0 && rb >= 0.0 && ra * ra == a && rb * rb == b
    requires dot * dot <= a * b
    ensures ra * rb > 0.0 && Quotient(dot, ra, rb) == dot / (ra * rb) && -1.0 <= Quotient(dot, ra, rb) <= 1.0
  {
    TimesZero(ra, ra);
    TimesZero(rb, rb);
    PositiveProduct(ra, rb);
    ProductSquares(a, b, ra, rb);
    RatioBound(dot, ra * rb);
  }

  lemma CosineBound(s: Sums, root: real -> real)
    requires Sound(s) && IsRoot(root)
    ensures -1.0 <= CosineOf(s, root) <= 1.0
  {
    ProductInequality(s);
    if s.xx >= MIN_NORM && s.yy >= MIN_NORM {
      RootAt(root, s.xx);
      RootAt(root, s.yy);
      QuotientBound(s.xy, s.xx, s.yy, root(s.xx), root(s.yy));
    }
  }

  lemma QuotientSign(dot: real, ra: real, rb: real)
    requires dot >= 0.0 && ra >= 0.0 && rb >= 0.0
    ensures Quotient(dot, ra, rb) >= 0.0
  {
    NonNegativeProduct(ra, rb);
  }

  lemma {:induction false} NonNegativeDot(a: seq<real>, b: seq<real>)
    requires |a| == |b| && forall i :: 0 <= i < |a| ==> a[i] >= 0.0 && b[i] >= 0.0
    ensures SumsOf(a, b).xy >= 0.0
  {
    if a != [] {
      var n := |a| - 1;
      NonNegativeDot(a[..n], b[..n]);
      NonNegativeProduct(a[n], b[n]);
    }
  }

  lemma {:induction false} SelfSums(a: seq<real>)
    ensures var s := SumsOf(a, a); s.xy == s.xx == s.yy
  {
    if a != [] { SelfSums(a[..|a| - 1]); }
  }

  lemma SelfQuotient(x: real, r: real)
    requires x > 0.0 && r * r == x
    ensures Quotient(x, r, r) == 1.0
  {
    assert x / x == 1.0;
  }

  /** Similarity lies in [-1, 1]. */
  lemma SimilarityBound(a: seq<real>, b: seq<real>, root: real -> real)
    requires |a| == |b| && IsRoot(root)
    ensures -1.0 <= CosineOf(SumsOf(a, b), root) <= 1.0
  {
    SumsAreSound(a, b);
    CosineBound(SumsOf(a, b), root);
  }

  /** It does not depend on the order of the vectors. */
  lemma SimilarityIsSymmetric(a: seq<real>, b: seq<real>, root: real -> real)
    requires |a| == |b|
    ensures CosineOf(SumsOf(b, a), root) == CosineOf(SumsOf(a, b), root)
  {
    var s := SumsOf(a, b);
    SumsOfExchanged(a, b);
    assert root(s.xx) * root(s.yy) == root(s.yy) * root(s.xx);
  }

  /** A vector that is not negligible has similarity 1 to itself. */
  lemma SelfSimilarity(a: seq<real>, root: real -> real)
    requires IsRoot(root)
    ensures CosineOf(SumsOf(a, a), root) == if SumsOf(a, a).xx < MIN_NORM then 0.0 else 1.0
  {
    var x := SumsOf(a, a).xx;
    SelfSums(a);
    if x >= MIN_NORM {
      RootAt(root, x);
      SelfQuotient(x, root(x));
    }
  }

  /** Its square is the squared scalar product over the product of the squared norms, and it has the product's sign. */
  lemma SimilarityMeans(a: seq<real>, b: seq<real>, root: real -> real)
    requires |a| == |b| && IsRoot(root) && SumsOf(a, b).xx >= MIN_NORM && SumsOf(a, b).yy >= MIN_NORM
    ensures var s := SumsOf(a, b); IsCosine(CosineOf(s, root), s.xy, s.xx, s.yy)
  {
    CosineMeans(SumsOf(a, b), root);
  }

  lemma CosineMeans(s: Sums, root: real -> real)
    requires IsRoot(root) && s.xx >= MIN_NORM && s.yy >= MIN_NORM
    ensures IsCosine(CosineOf(s, root), s.xy, s.xx, s.yy)
  {
    RootAt(root, s.xx);
    RootAt(root, s.yy);
    QuotientMeans(s.xy, s.xx, s.yy, root(s.xx), root(s.yy));
  }

  ghost predicate IsCosine(r: real, dot: real, a: real, b: real) {
    r * r * (a * b) == dot * dot && (r > 0.0 <==> dot > 0.0) && (r < 0.0 <==> dot < 0.0)
  }

  lemma QuotientMeans(dot: real, a: real, b: real, ra: real, rb: real)
    requires a > 0.0 && b > 0.0 && ra >= 0.0 && rb >= 0.0 && ra * ra == a && rb * rb == b
    ensures IsCosine(Quotient(dot, ra, rb), dot, a, b)
  {
    TimesZero(ra, ra);
    TimesZero(rb, rb);
    PositiveProduct(ra, rb);
    ProductSquares(a, b, ra, rb);
    SignOfQuotient(dot, ra * rb);
    var (q, d) := (dot / (ra * rb), ra * rb);
    assert q * d == dot;
    assert (q * d) * (q * d) == q * q * (d * d);
  }

  lemma SignOfQuotient(x: real, d: real)
    requires d > 0.0
    ensures (x / d > 0.0 <==> x > 0.0) && (x / d < 0.0 <==> x < 0.0)
  {
    var q := x / d;
    assert q * d == x;
    if q > 0.0 { PositiveProduct(q, d); }
    if q < 0.0 { PositiveProduct(-q, d); }
  }

  function Scale(c: real, a: seq<real>): (r: seq<real>)
    ensures |r| == |a|
  {
    seq(|a|, i requires 0 <= i < |a| => c * a[i])
  }

  lemma ScalePrefix(c: real, a: seq<real>, n: nat)
    requires n <= |a|
    ensures Scale(c, a)[..n] == Scale(c, a[..n])
  {
    forall i | 0 <= i < n ensures Scale(c, a)[..n][i] == Scale(c, a[..n])[i] { assert a[..n][i] == a[i]; }
  }

  ghost predicate IsScaled(c: real, s: Sums, t: Sums) {
    t.xx == c * c * s.xx && t.xy == c * s.xy && t.yy == s.yy
  }

  lemma ScaledAdd(c: real, s: Sums, t: Sums, x: real, y: real, z: real)
    requires IsScaled(c, s, t) && z == c * x
    ensures IsScaled(c, s.Add(x, y), t.Add(z, y))
  {
    ScaledPair(c, s.xx, s.xy, x, y);
    assert z * z == (c * x) * (c * x) && z * y == (c * x) * y;
  }

  lemma {:induction false} ScaledSums(c: real, a: seq<real>, b: seq<real>)
    requires |a| == |b|
    ensures IsScaled(c, SumsOf(a, b), SumsOf(Scale(c, a), b))
  {
    if a != [] {
      var n := |a| - 1;
      ScaledSums(c, a[..n], b[..n]);
      ScalePrefix(c, a, n);
      ScaledAdd(c, SumsOf(a[..n], b[..n]), SumsOf(Scale(c, a)[..n], b[..n]), a[n], b[n], Scale(c, a)[n]);
    }
  }

  lemma ScaledPair(c: real, xx: real, xy: real, x: real, y: real)
    ensures c * c * xx + (c * x) * (c * x) == c * c * (xx + x * x)
    ensures c * xy + (c * x) * y == c * (xy + x * y)
  {
    assert (c * x) * (c * x) == (c * c) * (x * x);
    assert (c * x) * y == c * (x * y);
  }

  lemma ScaledRoot(c: real, x: real, r: real, q: real)
    requires c > 0.0 && x > 0.0 && r >= 0.0 && q >= 0.0 && r * r == x && q * q == c * c * x
    ensures q == c * r && r > 0.0
  {
    assert (c * r) * (c * r) == c * c * (r * r);
    NonNegativeProduct(c, r);
    RootIsUnique(q, c * r);
    TimesZero(r, r);
  }

  lemma ScaledQuotient(c: real, dot: real, ra: real, rb: real)
    requires c > 0.0 && ra > 0.0 && rb > 0.0
    ensures Quotient(c * dot, c * ra, rb) == Quotient(dot, ra, rb)
  {
    var d := ra * rb;
    PositiveProduct(ra, rb);
    PositiveProduct(c, d);
    assert c * ra * rb == c * d;
    CancelFactor(c, dot, d);
  }

  lemma CancelFactor(c: real, x: real, d: real)
    requires c > 0.0 && d > 0.0
    ensures c * d > 0.0 && c * x / (c * d) == x / d
  {
    PositiveProduct(c, d);
    var q := x / d;
    assert q * d == x;
    assert q * (c * d) == c * (q * d);
    QuotientIs(c * x, c * d, q);
  }

  lemma QuotientIs(x: real, d: real, q: real)
    requires d > 0.0 && q * d == x
    ensures x / d == q
  {
  }

  /** Scaling a vector up or down does not change its similarity, unless it becomes negligible. */
  lemma SimilarityOfScaled(c: real, a: seq<real>, b: seq<real>, root: real -> real)
    requires c > 0.0 && |a| == |b| && IsRoot(root)
    requires SumsOf(a, b).xx >= MIN_NORM && SumsOf(Scale(c, a), b).xx >= MIN_NORM
    ensures CosineOf(SumsOf(Scale(c, a), b), root) == CosineOf(SumsOf(a, b), root)
  {
    ScaledSums(c, a, b);
    ScaledCosine(c, SumsOf(a, b), SumsOf(Scale(c, a), b), root);
  }

  lemma ScaledCosine(c: real, s: Sums, t: Sums, root: real -> real)
    requires c > 0.0 && IsRoot(root) && s.xx >= MIN_NORM && t.xx >= MIN_NORM
    requires IsScaled(c, s, t)
    ensures CosineOf(t, root) == CosineOf(s, root)
  {
    if s.yy >= MIN_NORM {
      RootAt(root, s.xx);
      RootAt(root, t.xx);
      RootAt(root, s.yy);
      ScaledRoot(c, s.xx, root(s.xx), root(t.xx));
      TimesZero(root(s.yy), root(s.yy));
      ScaledQuotient(c, s.xy, root(s.xx), root(s.yy));
    }
  }

  /** Orthogonal vectors have similarity 0. */
  lemma OrthogonalSimilarity(a: seq<real>, b: seq<real>, root: real -> real)
    requires |a| == |b| && IsRoot(root) && SumsOf(a, b).xy == 0.0
    ensures CosineOf(SumsOf(a, b), root) == 0.0
  {
    var s := SumsOf(a, b);
    if s.xx >= MIN_NORM && s.yy >= MIN_NORM { SimilarityMeans(a, b, root); }
  }

  /** Vectors of penalties, none negative, have no negative similarity. */
  lemma PenaltySimilarity(a: seq<real>, b: seq<real>, root: real -> real)
    requires |a| == |b| && IsRoot(root) && forall i :: 0 <= i < |a| ==> a[i] >= 0.0 && b[i] >= 0.0
    ensures CosineOf(SumsOf(a, b), root) >= 0.0
  {
    var s := SumsOf(a, b);
    NonNegativeDot(a, b);
    if s.xx >= MIN_NORM && s.yy >= MIN_NORM {
      RootAt(root, s.xx);
      RootAt(root, s.yy);
      QuotientSign(s.xy, root(s.xx), root(s.yy));
    }
  }

  lemma SumsNext(a: seq<real>, b: seq<real>, i: nat)
    requires |a| == |b| && i < |a|
    ensures SumsOf(a[..i + 1], b[..i + 1]) == SumsOf(a[..i], b[..i]).Add(a[i], b[i])
  {
    assert a[..i + 1][..i] == a[..i] && b[..i + 1][..i] == b[..i];
  }

  method CosineSimilarity(a: seq<real>, b: seq<real>, root: real -> real) returns (r: real)
    requires |a| == |b| == DIMENSIONS && IsRoot(root)
    ensures r == CosineOf(SumsOf(a, b), root) && -1.0 <= r <= 1.0
  {
    SumsAreSound(a, b);
    CosineBound(SumsOf(a, b), root);
    var dot, normA, normB := 0.0, 0.0, 0.0;
    for i := 0 to |a|
      invariant var s := SumsOf(a[..i], b[..i]); s.xy == dot && s.xx == normA && s.yy == normB
    {
      SumsNext(a, b, i);
      dot := dot + a[i] * b[i];
      normA := normA + a[i] * a[i];
      normB := normB + b[i] * b[i];
    }
    assert a[..|a|] == a && b[..|b|] == b;
    if normA < MIN_NORM || normB < MIN_NORM { return 0.0; }
    r := Quotient(dot, root(normA), root(normB));
  }

  // ---- Matching ----

  datatype Recorded = Recorded(workload: string, vector: seq<real>)

  ghost function Similarity(vector: seq<real>, f: Recorded, root: real -> real): real
    requires |vector| == |f.vector|
  {
    CosineOf(SumsOf(vector, f.vector), root)
  }

  ghost predicate WellSized(fps: seq<Recorded>) {
    forall i :: 0 <= i < |fps| ==> |fps[i].vector| == DIMENSIONS
  }

  /** Returns the first of a workload's most similar fingerprints, or nothing when none reaches the threshold. */
  method Match(workload: string, vector: seq<real>, fps: seq<Recorded>, root: real -> real) returns (found: Option<nat>)
    requires |vector| == DIMENSIONS && WellSized(fps) && IsRoot(root)
    ensures match found
      case None =>
        forall i :: 0 <= i < |fps| && fps[i].workload == workload ==> Similarity(vector, fps[i], root) < MATCH_THRESHOLD
      case Some(k) =>
        && k < |fps| && fps[k].workload == workload && Similarity(vector, fps[k], root) >= MATCH_THRESHOLD
        && (forall i :: 0 <= i < |fps| && fps[i].workload == workload ==>
              Similarity(vector, fps[i], root) <= Similarity(vector, fps[k], root))
        && forall i :: 0 <= i < k && fps[i].workload == workload ==>
             Similarity(vector, fps[i], root) < Similarity(vector, fps[k], root)
  {
    var best := 0.0;
    found := None;
    for i := 0 to |fps|
      invariant found.None? ==> best == 0.0
      invariant found.Some? ==> found.value < i && fps[found.value].workload == workload
                                && best == Similarity(vector, fps[found.value], root)
      invariant forall j :: 0 <= j < i && fps[j].workload == workload ==> Similarity(vector, fps[j], root) <= best
      invariant found.Some? ==> forall j :: 0 <= j < found.value && fps[j].workload == workload ==>
                                  Similarity(vector, fps[j], root) < best
    {
      if fps[i].workload == workload {
        var sim := CosineSimilarity(vector, fps[i].vector, root);
        if sim > best { best, found := sim, Some(i); }
      }
    }
    if best < MATCH_THRESHOLD { found := None; }
  }
}
