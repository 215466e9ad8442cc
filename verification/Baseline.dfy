/**
 * The running mean and squared deviations of each signal, updated one value at a time, and the score of a raw value
 * relative to them.
 */
module Baseline {
  import opened Moments

  const READY_AFTER := 96
  const MIN_SIGMA := 0.05

  function Sum(vs: seq<real>): real {
    if vs == [] then 0.0 else Sum(vs[..|vs| - 1]) + vs[|vs| - 1]
  }

  function Mean(vs: seq<real>): real
    requires vs != []
  {
    Sum(vs) / |vs| as real
  }

  function Square(x: real): (r: real)
    ensures r >= 0.0
  {
    if x != 0.0 then
      NonZeroSquare(x);
      x * x
    else 0.0
  }

  /** The sum of the squared deviations of `vs` from `m`. */
  function Deviations(vs: seq<real>, m: real): (d: real)
    ensures d >= 0.0
  {
    if vs == [] then 0.0 else Deviations(vs[..|vs| - 1], m) + Square(vs[|vs| - 1] - m)
  }

  /** What squared deviations of n values with sum s become when the centre moves from m to c. */
  function Shifted(dev: real, s: real, n: real, m: real, c: real): real {
    dev - 2.0 * (c - m) * s + n * (c * c - m * m)
  }

  lemma ShiftOne(v: real, m: real, c: real)
    ensures Square(v - c) == Square(v - m) - 2.0 * (c - m) * v + (c * c - m * m)
  {
    assert Square(v - c) == v * v - 2.0 * c * v + c * c;
    assert Square(v - m) == v * v - 2.0 * m * v + m * m;
  }

  lemma ShiftedNext(dev: real, s: real, n: real, v: real, m: real, c: real)
    ensures Shifted(dev + Square(v - m), s + v, n + 1.0, m, c) == Shifted(dev, s, n, m, c) + Square(v - c)
  {
    ShiftOne(v, m, c);
    var (d, q) := (c - m, c * c - m * m);
    assert 2.0 * d * (s + v) == 2.0 * d * s + 2.0 * d * v;
    assert (n + 1.0) * q == n * q + q;
  }

  /** Deviations from two centres differ by a term in the sum and the count alone. */
  lemma {:induction false} Shift(vs: seq<real>, m: real, c: real)
    ensures Deviations(vs, c) == Shifted(Deviations(vs, m), Sum(vs), |vs| as real, m, c)
  {
    if vs != [] {
      var init := vs[..|vs| - 1];
      Shift(init, m, c);
      ShiftedNext(Deviations(init, m), Sum(init), |init| as real, vs[|vs| - 1], m, c);
    }
  }

  /** Around the mean m of n values, moving the centre to c adds n (c - m)^2. */
  lemma AroundMean(dev: real, s: real, n: real, m: real, c: real)
    requires n * m == s
    ensures Shifted(dev, s, n, m, c) == dev + n * ((c - m) * (c - m))
  {
    var d := c - m;
    assert d * s == n * (d * m);
    assert c * c - m * m - 2.0 * (d * m) == d * d;
    assert n * (c * c - m * m - 2.0 * (d * m)) == n * (c * c - m * m) - 2.0 * (n * (d * m));
    assert 2.0 * d * s == 2.0 * (n * (d * m));
  }

  /** The squares gained when the mean of n - 1 values moves by d = e / n towards a value at distance e. */
  lemma Balance(n: real, e: real, d: real)
    requires n * d == e
    ensures (n - 1.0) * (d * d) + Square(e - d) == e * (e - d)
  {
    assert n * (d * d) == e * d;
    assert (n - 1.0) * (d * d) == n * (d * d) - d * d;
    assert Square(e - d) == e * e - 2.0 * (e * d) + d * d;
    assert e * (e - d) == e * e - e * d;
  }

  /** The mean `m` moved towards `v`, the last of `k` values. */
  function MovedMean(m: real, v: real, k: real): real
    requires k > 0.0
  {
    m + (v - m) / k
  }

  function MovedSquares(dev: real, m: real, v: real, k: real): real
    requires k > 0.0
  {
    dev + (v - m) * (v - MovedMean(m, v, k))
  }

  /** `m` is the mean of `n` values with sum `s`. */
  predicate IsMean(n: real, m: real, s: real) {
    n * m == s
  }

  lemma NextMean(n: real, s: real, m: real, v: real, d: real)
    requires n >= 0.0 && IsMean(n, m, s) && d == (v - m) / (n + 1.0)
    ensures (n + 1.0) * d == v - m && IsMean(n + 1.0, m + d, s + v)
  {
    var k := n + 1.0;
    assert k * d == v - m;
    assert k * (m + d) == k * m + k * d;
    assert k * m == n * m + m;
  }

  lemma NextSquares(dev: real, n: real, s: real, m: real, v: real, d: real)
    requires IsMean(n, m, s) && (n + 1.0) * d == v - m
    ensures Shifted(dev, s, n, m, m + d) + Square(v - (m + d)) == dev + (v - m) * (v - (m + d))
  {
    AroundMean(dev, s, n, m, m + d);
    Balance(n + 1.0, v - m, d);
  }

  lemma Moved(dev: real, n: real, s: real, m: real, v: real, c: real)
    requires n >= 0.0 && IsMean(n, m, s) && c == MovedMean(m, v, n + 1.0)
    ensures IsMean(n + 1.0, c, s + v)
    ensures Shifted(dev, s, n, m, c) + Square(v - c) == MovedSquares(dev, m, v, n + 1.0)
  {
    var d := (v - m) / (n + 1.0);
    assert c == m + d && MovedSquares(dev, m, v, n + 1.0) == dev + (v - m) * (v - c);
    NextMean(n, s, m, v, d);
    NextSquares(dev, n, s, m, v, d);
  }

  /** The mean and the squared deviations of the values seen; both 0 before the first. */
  ghost predicate Welford(vs: seq<real>, mean: real, m2: real) {
    IsMean(|vs| as real, mean, Sum(vs)) && m2 == Deviations(vs, mean)
  }

  lemma OneMore(vs: seq<real>, v: real, m: real)
    ensures Sum(vs + [v]) == Sum(vs) + v && Deviations(vs + [v], m) == Deviations(vs, m) + Square(v - m)
  {
    assert (vs + [v])[..|vs|] == vs;
  }

  /** One update keeps both exact. */
  lemma WelfordStep(vs: seq<real>, mean: real, m2: real, v: real, k: real)
    requires Welford(vs, mean, m2) && k == |vs| as real + 1.0
    ensures Welford(vs + [v], MovedMean(mean, v, k), MovedSquares(m2, mean, v, k))
  {
    var (n, c) := (|vs| as real, MovedMean(mean, v, k));
    Moved(m2, n, Sum(vs), mean, v, c);
    Shift(vs, mean, c);
    OneMore(vs, v, c);
  }

  /** What a workload keeps of the values of a signal. */
  datatype Stats = Stats(count: nat, mean: real, m2: real) {
    function Add(v: real): Stats {
      var k := count as real + 1.0;
      Stats(count + 1, MovedMean(mean, v, k), MovedSquares(m2, mean, v, k))
    }
  }

  const UNSEEN := Stats(0, 0.0, 0.0)

  /** The updates of a signal, one value after the other. */
  function StatsOf(vs: seq<real>): (s: Stats)
    ensures s.count == |vs|
  {
    if vs == [] then UNSEEN else StatsOf(vs[..|vs| - 1]).Add(vs[|vs| - 1])
  }

  lemma {:induction false} StatsAreExact(vs: seq<real>)
    ensures Welford(vs, StatsOf(vs).mean, StatsOf(vs).m2)
  {
    if vs == [] {
      assert Sum(vs) == 0.0 && Deviations(vs, 0.0) == 0.0;
    } else {
      var (init, v) := (vs[..|vs| - 1], vs[|vs| - 1]);
      StatsAreExact(init);
      WelfordStep(init, StatsOf(init).mean, StatsOf(init).m2, v, |vs| as real);
      assert init + [v] == vs;
    }
  }

  /** The running updates compute the arithmetic mean and the sum of the squared deviations from it. */
  lemma StatsMeaning(vs: seq<real>)
    requires vs != []
    ensures StatsOf(vs) == Stats(|vs|, Mean(vs), Deviations(vs, Mean(vs))) && StatsOf(vs).m2 >= 0.0
  {
    StatsAreExact(vs);
    WelfordMean(vs, StatsOf(vs).mean, StatsOf(vs).m2);
  }

  lemma WelfordMean(vs: seq<real>, mean: real, m2: real)
    requires Welford(vs, mean, m2) && vs != []
    ensures mean == Mean(vs) && m2 == Deviations(vs, Mean(vs)) && m2 >= 0.0
  {
    var n := |vs| as real;
    assert n * mean / n == mean;
  }

  // ---- Scores ----

  function Clamp(v: real, lo: real, hi: real): real {
    if v < lo then lo else if v > hi then hi else v
  }

  function Floored(sigma: real): real {
    if sigma < MIN_SIGMA then MIN_SIGMA else sigma
  }

  /** The sample standard deviation of `vs`, at least the minimum. */
  function Sigma(vs: seq<real>, root: real -> real): (s: real)
    requires |vs| >= 2
    ensures s >= MIN_SIGMA
  {
    Floored(root(Deviations(vs, Mean(vs)) / (|vs| - 1) as real))
  }

  function Deviation(raw: real, mean: real, sigma: real): (z: real)
    requires sigma > 0.0
  {
    (raw - mean) / sigma
  }

  /** The score of a value against the earlier values of its signal. */
  function Score(vs: seq<real>, raw: real, root: real -> real): real
    requires |vs| >= 2
  {
    Clamp(Deviation(raw, Mean(vs), Sigma(vs, root)) / 3.0, 0.0, 1.0)
  }

  lemma DeviationAtLeast(raw: real, mean: real, sigma: real, k: real)
    requires sigma > 0.0
    ensures Deviation(raw, mean, sigma) >= k <==> raw >= mean + k * sigma
  {
    var z := Deviation(raw, mean, sigma);
    assert z * sigma == raw - mean;
    assert (z - k) * sigma == raw - mean - k * sigma;
    if z < k { NegativeProduct(sigma, z - k); } else { NonNegativeProduct(z - k, sigma); }
  }

  lemma DeviationGrows(r1: real, r2: real, mean: real, sigma: real)
    requires sigma > 0.0 && r1 <= r2
    ensures Deviation(r1, mean, sigma) <= Deviation(r2, mean, sigma)
  {
    var z := Deviation(r1, mean, sigma);
    assert z * sigma == r1 - mean;
    DeviationAtLeast(r2, mean, sigma, z);
  }

  /** A score is in [0, 1], grows with the value, is 0 up to the mean and 1 from three deviations above it on. */
  lemma ScoreLaws(vs: seq<real>, r1: real, r2: real, root: real -> real)
    requires |vs| >= 2 && r1 <= r2
    ensures 0.0 <= Score(vs, r1, root) <= Score(vs, r2, root) <= 1.0
    ensures r1 <= Mean(vs) ==> Score(vs, r1, root) == 0.0
    ensures Score(vs, r1, root) == 1.0 <==> r1 >= Mean(vs) + 3.0 * Sigma(vs, root)
    ensures r1 < Mean(vs) + 0.15 ==> Score(vs, r1, root) < 1.0
  {
    var (m, s) := (Mean(vs), Sigma(vs, root));
    DeviationGrows(r1, r2, m, s);
    DeviationAtLeast(r1, m, s, 3.0);
    if r1 <= m {
      DeviationGrows(r1, m, m, s);
      assert Deviation(m, m, s) == 0.0;
    }
  }

  // ---- A workload ----

  /** The three maps hold what `of` makes of the values of each signal. */
  ghost predicate Tracked(of: seq<real> -> Stats, counts: map<string, nat>, means: map<string, real>,
                          m2: map<string, real>, values: map<string, seq<real>>) {
    && counts.Keys == means.Keys == m2.Keys == values.Keys
    && forall k {:trigger counts[k]} :: k in values ==>
       values[k] != [] && of(values[k]) == Stats(counts[k], means[k], m2[k])
  }

  lemma TrackedAdd(of: seq<real> -> Stats, counts: map<string, nat>, means: map<string, real>, m2: map<string, real>,
                   values: map<string, seq<real>>, k: string, vs: seq<real>, s: Stats)
    requires Tracked(of, counts, means, m2, values) && vs != [] && of(vs) == s
    ensures Tracked(of, counts[k := s.count], means[k := s.mean], m2[k := s.m2], values[k := vs])
  {
  }

  lemma TrackedAt(of: seq<real> -> Stats, counts: map<string, nat>, means: map<string, real>, m2: map<string, real>,
                  values: map<string, seq<real>>, k: string)
    requires Tracked(of, counts, means, m2, values) && k in values
    ensures k in counts && k in means && k in m2 && values[k] != []
            && of(values[k]) == Stats(counts[k], means[k], m2[k])
  {
    assert counts[k] == counts[k];
  }

  /** Every value seen of a signal, oldest first. */
  ghost function Past(values: map<string, seq<real>>, k: string): seq<real> {
    if k in values then values[k] else []
  }

  /** Each signal not left over has one more value, and nothing else changed. */
  ghost predicate Grown(before: map<string, seq<real>>, after: map<string, seq<real>>, signals: map<string, real>,
                        left: set<string>)
  {
    forall k {:trigger Past(after, k)} ::
      Past(after, k) == if k in signals && k !in left then Past(before, k) + [signals[k]] else Past(before, k)
  }

  lemma GrownStep(before: map<string, seq<real>>, after: map<string, seq<real>>, signals: map<string, real>,
                  left: set<string>, k: string)
    requires Grown(before, after, signals, left) && k in left && k in signals
    ensures Grown(before, after[k := Past(after, k) + [signals[k]]], signals, left - {k})
  {
    var next := after[k := Past(after, k) + [signals[k]]];
    forall j ensures Past(next, j) == if j in signals && j !in left - {k} then Past(before, j) + [signals[j]]
      else Past(before, j)
    {
      assert j != k ==> Past(next, j) == Past(after, j);
      assert Past(after, k) == Past(before, k);
    }
  }

  class WorkloadState {
    var observationCount: nat
    var counts: map<string, nat>
    var means: map<string, real>
    var m2: map<string, real>
    var ready: bool
    ghost var values: map<string, seq<real>>

    ghost predicate Valid()
      reads this
    {
      && Tracked(StatsOf, counts, means, m2, values)
      && ready == (observationCount >= READY_AFTER)
    }

    constructor ()
      ensures Valid() && observationCount == 0 && values == map[]
    {
      observationCount, ready := 0, false;
      counts, means, m2, values := map[], map[], map[], map[];
    }

    method Current(k: string) returns (s: Stats)
      requires Tracked(StatsOf, counts, means, m2, values)
      ensures s == StatsOf(Past(values, k))
    {
      if k !in means { return UNSEEN; }
      TrackedAt(StatsOf, counts, means, m2, values, k);
      s := Stats(counts[k], means[k], m2[k]);
    }

    method AddValue(k: string, v: real)
      requires Tracked(StatsOf, counts, means, m2, values)
      modifies this`counts, this`means, this`m2, this`values
      ensures Tracked(StatsOf, counts, means, m2, values) && values == old(values)[k := Past(old(values), k) + [v]]
    {
      ghost var seen := Past(values, k);
      var last := Current(k);
      var s := last.Add(v);
      assert (seen + [v])[..|seen|] == seen;
      Put(k, s, StatsOf, seen + [v]);
    }

    method Put(k: string, s: Stats, ghost of: seq<real> -> Stats, ghost vs: seq<real>)
      requires Tracked(of, counts, means, m2, values) && vs != [] && of(vs) == s
      modifies this`counts, this`means, this`m2, this`values
      ensures Tracked(of, counts, means, m2, values) && values == old(values)[k := vs]
    {
      TrackedAdd(of, counts, means, m2, values, k, vs, s);
      counts, means, m2 := counts[k := s.count], means[k := s.mean], m2[k := s.m2];
      values := values[k := vs];
    }

    method AddValues(signals: map<string, real>)
      requires Tracked(StatsOf, counts, means, m2, values)
      modifies this`counts, this`means, this`m2, this`values
      ensures Tracked(StatsOf, counts, means, m2, values) && Grown(old(values), values, signals, {})
    {
      var rest := signals.Keys;
      while rest != {}
        invariant rest <= signals.Keys && Tracked(StatsOf, counts, means, m2, values)
        invariant Grown(old(values), values, signals, rest)
      {
        var k :| k in rest;
        GrownStep(old(values), values, signals, rest, k);
        AddValue(k, signals[k]);
        rest := rest - {k};
      }
    }

    /** Adds one value to each signal, whatever the order of the map. */
    method UpdateBaseline(signals: map<string, real>)
      requires Valid()
      modifies this
      ensures Valid() && observationCount == old(observationCount) + 1 && Grown(old(values), values, signals, {})
    {
      observationCount := observationCount + 1;
      AddValues(signals);
      if observationCount >= READY_AFTER { ready := true; }
    }

    /** The score against every value seen, or the raw value before there are enough. */
    function AdaptiveScore(signal: string, raw: real, root: real -> real): (score: real)
      reads this
      requires Valid()
      ensures score == if observationCount < READY_AFTER || |Past(values, signal)| < 2 then raw
              else Score(Past(values, signal), raw, root)
    {
      if !ready || observationCount < 2 || signal !in means || counts[signal] < 2 then raw
      else
        TrackedAt(StatsOf, counts, means, m2, values, signal);
        StatsMeaning(values[signal]);
        var sigma := Floored(root(m2[signal] / (counts[signal] - 1) as real));
        Clamp(Deviation(raw, means[signal], sigma) / 3.0, 0.0, 1.0)
    }
  }
}
