/** Matching bursts with drops of the health score, the confidence of a match, and the correlation that weighs it. */
module Correlator {
  import opened Moments
  import opened Options
  import opened Rings

  /** Times and durations are in nanoseconds. */
  const SECOND := 1_000_000_000
  const CORRELATION_WINDOW := 120 * SECOND
  const DELTA_THRESHOLD := 10.0
  const KPI_WINDOW := 300
  const STORE_SIZE := 1000
  const MIN_DENOMINATOR := 0.000000000001
  const MIN_PAIRS := 10

  class PearsonTracker {
    var sums: Sums
    ghost var xs: seq<real>
    ghost var ys: seq<real>

    ghost predicate Valid()
      reads this
    {
      |xs| == |ys| && sums == SumsOf(xs, ys)
    }

    constructor ()
      ensures Valid() && Sound(sums) && xs == [] && ys == []
    {
      SumsAreSound([], []);
      sums, xs, ys := NONE, [], [];
    }

    method Update(x: real, y: real)
      requires Valid()
      modifies this
      ensures Valid() && Sound(sums) && xs == old(xs) + [x] && ys == old(ys) + [y]
    {
      sums := Sums(sums.n + 1, sums.x + x, sums.y + y, sums.xy + x * y, sums.xx + x * x, sums.yy + y * y);
      xs, ys := xs + [x], ys + [y];
      SumsOfMore(old(xs), old(ys), x, y);
      SumsAreSound(xs, ys);
    }

    function Corr(root: real -> real): (r: real)
      reads this
      requires Sound(sums) && IsRoot(root)
      ensures SpreadX(sums) >= 0.0 && SpreadY(sums) >= 0.0 && -1.0 <= r <= 1.0
    {
      CorrBound(sums, root);
      CorrOf(sums, root)
    }
  }

  lemma SumsOfMore(xs: seq<real>, ys: seq<real>, x: real, y: real)
    requires |xs| == |ys|
    ensures SumsOf(xs + [x], ys + [y]) == SumsOf(xs, ys).Add(x, y)
  {
    assert (xs + [x])[..|xs|] == xs && (ys + [y])[..|ys|] == ys;
  }

  /** A quotient, or 0 when the denominator is negligible. */
  function Scaled(num: real, den: real): real {
    if den < MIN_DENOMINATOR then 0.0 else num / den
  }

  function Correlation(num: real, p: real, q: real, root: real -> real): real {
    Scaled(num, root(p * q))
  }

  function CorrOf(s: Sums, root: real -> real): real {
    Correlation(Covariance(s), SpreadX(s), SpreadY(s), root)
  }

  lemma CorrelationBound(num: real, p: real, q: real, root: real -> real)
    requires p >= 0.0 && q >= 0.0 && num * num <= p * q && IsRoot(root)
    ensures -1.0 <= Correlation(num, p, q, root) <= 1.0
  {
    NonNegativeProduct(p, q);
    RootAt(root, p * q);
    if root(p * q) >= MIN_DENOMINATOR { RatioBound(num, root(p * q)); }
  }

  /** Radicands of any sums over pairs are non-negative and their correlation lies in [-1, 1]. */
  lemma CorrBound(s: Sums, root: real -> real)
    requires Sound(s) && IsRoot(root)
    ensures SpreadX(s) >= 0.0 && SpreadY(s) >= 0.0 && -1.0 <= CorrOf(s, root) <= 1.0
  {
    CorrelationInequality(s);
    CorrelationBound(Covariance(s), SpreadX(s), SpreadY(s), root);
  }

  ghost predicate LineY(n: nat, sx: real, sy: real, a: real, b: real) {
    sy == a * sx + n as real * b
  }

  ghost predicate LineXY(sx: real, sxx: real, sxy: real, a: real, b: real) {
    sxy == a * sxx + b * sx
  }

  ghost predicate LineYY(n: nat, sx: real, sxx: real, syy: real, a: real, b: real) {
    syy == a * a * sxx + 2.0 * (a * b * sx) + n as real * (b * b)
  }

  /** The sums over pairs on the line y = a x + b. */
  ghost predicate OnLine(s: Sums, a: real, b: real) {
    LineY(s.n, s.x, s.y, a, b) && LineXY(s.x, s.xx, s.xy, a, b) && LineYY(s.n, s.x, s.xx, s.yy, a, b)
  }

  ghost predicate PairOnLine(x: real, y: real, a: real, b: real) {
    y == a * x + b
  }

  ghost predicate AllOnLine(xs: seq<real>, ys: seq<real>, a: real, b: real) {
    |xs| == |ys| && forall i :: 0 <= i < |xs| ==> PairOnLine(xs[i], ys[i], a, b)
  }

  lemma LineAddY(n: nat, sx: real, sy: real, a: real, b: real, x: real, y: real)
    requires LineY(n, sx, sy, a, b) && PairOnLine(x, y, a, b)
    ensures LineY(n + 1, sx + x, sy + y, a, b)
  {
    assert (n + 1) as real * b == n as real * b + b;
  }

  lemma LineAddXY(sx: real, sxx: real, sxy: real, a: real, b: real, x: real, y: real)
    requires LineXY(sx, sxx, sxy, a, b) && PairOnLine(x, y, a, b)
    ensures LineXY(sx + x, sxx + x * x, sxy + x * y, a, b)
  {
    assert x * y == a * (x * x) + b * x;
  }

  lemma LineAddYY(n: nat, sx: real, sxx: real, syy: real, a: real, b: real, x: real, y: real)
    requires LineYY(n, sx, sxx, syy, a, b) && PairOnLine(x, y, a, b)
    ensures LineYY(n + 1, sx + x, sxx + x * x, syy + y * y, a, b)
  {
    var (p, q, z) := (a * a, a * b, a * x);
    assert y * y == z * z + 2.0 * (z * b) + b * b;
    assert z * z == p * (x * x) && z * b == q * x;
    assert p * (sxx + x * x) == p * sxx + p * (x * x) && q * (sx + x) == q * sx + q * x;
    assert (n + 1) as real * (b * b) == n as real * (b * b) + b * b;
  }

  lemma LineAdd(s: Sums, a: real, b: real, x: real, y: real)
    requires OnLine(s, a, b) && PairOnLine(x, y, a, b)
    ensures OnLine(s.Add(x, y), a, b)
  {
    LineAddY(s.n, s.x, s.y, a, b, x, y);
    LineAddXY(s.x, s.xx, s.xy, a, b, x, y);
    LineAddYY(s.n, s.x, s.xx, s.yy, a, b, x, y);
  }

  lemma {:induction false} LineSums(xs: seq<real>, ys: seq<real>, a: real, b: real)
    requires AllOnLine(xs, ys, a, b)
    ensures OnLine(SumsOf(xs, ys), a, b)
  {
    if xs != [] {
      var n := |xs| - 1;
      assert PairOnLine(xs[n], ys[n], a, b);
      LineSums(xs[..n], ys[..n], a, b);
      LineAdd(SumsOf(xs[..n], ys[..n]), a, b, xs[n], ys[n]);
    }
  }

  lemma LineMoments(s: Sums, a: real, b: real)
    requires OnLine(s, a, b)
    ensures Covariance(s) == a * SpreadX(s) && SpreadY(s) == a * a * SpreadX(s)
  {
    var (n, x, xx) := (s.n as real, s.x, s.xx);
    assert n * s.xy - x * s.y == a * (n * xx) + n * (b * x) - (a * (x * x) + x * (n * b));
    assert s.y * s.y == a * a * (x * x) + 2.0 * (a * b * x * n) + n * n * (b * b);
    assert n * s.yy == a * a * (n * xx) + 2.0 * (a * b * x * n) + n * n * (b * b);
  }

  /** The correlation on a line of slope `a`, for this spread of x. */
  ghost predicate IsFull(r: real, spread: real, a: real) {
    r == if Abs(a) * spread < 0.000000000001 then 0.0 else if a < 0.0 then -1.0 else 1.0
  }

  lemma SquareOfSize(p: real, a: real)
    ensures (Abs(a) * p) * (Abs(a) * p) == p * (a * a * p)
    ensures a * p == if a < 0.0 then -(Abs(a) * p) else Abs(a) * p
  {
    assert Abs(a) * Abs(a) == a * a;
  }

  lemma UnitQuotient(r: real, x: real, negative: bool)
    requires r > 0.0 && x == if negative then -r else r
    ensures x / r == if negative then -1.0 else 1.0
  {
    var (q, sign) := (x / r, if negative then -1.0 else 1.0);
    assert q * r == x == sign * r;
    PositiveProduct(q - sign, r);
    PositiveProduct(sign - q, r);
    assert (q - sign) * r == 0.0 && (sign - q) * r == 0.0;
  }

  lemma LineCorrelation(p: real, a: real, root: real -> real)
    requires p >= 0.0 && IsRoot(root)
    ensures IsFull(Correlation(a * p, p, a * a * p, root), p, a)
  {
    var (r, q) := (Abs(a) * p, a * a * p);
    NonNegativeProduct(Abs(a), p);
    SquareOfSize(p, a);
    assert r * r == p * q;
    NonNegativeProduct(r, r);
    RootAt(root, r * r);
    RootIsUnique(root(r * r), r);
    if r >= MIN_DENOMINATOR { UnitQuotient(r, a * p, a < 0.0); }
  }

  lemma CorrIs(s: Sums, c: real, p: real, q: real, root: real -> real)
    requires Covariance(s) == c && SpreadX(s) == p && SpreadY(s) == q
    ensures CorrOf(s, root) == Correlation(c, p, q, root)
  {
  }

  lemma SumsOnLine(s: Sums, a: real, b: real, root: real -> real)
    requires Sound(s) && IsRoot(root) && OnLine(s, a, b)
    ensures IsFull(CorrOf(s, root), SpreadX(s), a)
  {
    var p := SpreadX(s);
    CorrBound(s, root);
    LineMoments(s, a, b);
    CorrIs(s, a * p, p, a * a * p, root);
    LineCorrelation(p, a, root);
  }

  /** Pairs on a line correlate fully, with the sign of its slope, unless it is flat or x hardly varies. */
  lemma LineCorrelates(xs: seq<real>, ys: seq<real>, a: real, b: real, root: real -> real)
    requires AllOnLine(xs, ys, a, b) && IsRoot(root)
    ensures IsFull(CorrOf(SumsOf(xs, ys), root), SpreadX(SumsOf(xs, ys)), a)
  {
    SumsAreSound(xs, ys);
    LineSums(xs, ys, a, b);
    SumsOnLine(SumsOf(xs, ys), a, b, root);
  }

  // ---- Confidence ----

  function AbsDiff(d: int): int {
    if d < 0 then -d else d
  }

  function Abs(x: real): real {
    if x < 0.0 then -x else x
  }

  /** Time proximity, size of the drop and correlation, averaged. */
  function Confidence(correlation: Option<real>, delta: real, diff: int): real {
    var timeScore := 1.0 - (AbsDiff(diff) as real / SECOND as real) / (CORRELATION_WINDOW as real / SECOND as real);
    var deltaScore := if delta / 50.0 < 1.0 then delta / 50.0 else 1.0;
    var pearsonScore := if correlation.None? then 0.5 else Abs(correlation.value);
    (timeScore + deltaScore + pearsonScore) / 3.0
  }

  predicate InWindow(diff: int) {
    -CORRELATION_WINDOW <= diff <= CORRELATION_WINDOW
  }

  lemma Proximity(d: int)
    requires 0 <= d <= CORRELATION_WINDOW
    ensures 0.0 <= (d as real / SECOND as real) / (CORRELATION_WINDOW as real / SECOND as real) <= 1.0
  {
    var (x, c) := (d as real / SECOND as real, CORRELATION_WINDOW as real / SECOND as real);
    assert c == 120.0 && 0.0 <= x <= 120.0;
    assert x / c == x / 120.0;
  }

  lemma ConfidenceInUnit(correlation: Option<real>, delta: real, diff: int)
    requires correlation.Some? ==> -1.0 <= correlation.value <= 1.0
    requires delta >= 0.0 && InWindow(diff)
    ensures 0.0 <= Confidence(correlation, delta, diff) <= 1.0
  {
    Proximity(AbsDiff(diff));
  }

  /** Confidence falls with the time difference, and grows with the drop up to 50 points and with the correlation. */
  lemma ConfidenceOrder(c: Option<real>, d: Option<real>, delta: real, more: real, diff: int, far: int)
    requires AbsDiff(diff) <= AbsDiff(far) && delta <= more
    requires c.Some? && d.Some? ==> Abs(c.value) <= Abs(d.value)
    ensures Confidence(c, delta, far) <= Confidence(c, delta, diff)
    ensures AbsDiff(diff) < AbsDiff(far) ==> Confidence(c, delta, far) < Confidence(c, delta, diff)
    ensures Confidence(c, delta, diff) <= Confidence(c, more, diff)
    ensures delta < more && delta < 50.0 ==> Confidence(c, delta, diff) < Confidence(c, more, diff)
    ensures c.Some? && d.Some? ==> Confidence(c, delta, diff) <= Confidence(d, delta, diff)
  {
    TimeScores(AbsDiff(diff), AbsDiff(far));
  }

  lemma TimeScores(a: int, b: int)
    requires a <= b
    ensures var s := CORRELATION_WINDOW as real / SECOND as real;
            && a as real / SECOND as real / s <= b as real / SECOND as real / s
            && (a < b ==> a as real / SECOND as real / s < b as real / SECOND as real / s)
  {
    assert CORRELATION_WINDOW as real / SECOND as real == 120.0;
  }

  /** Each of the three scores is worth a third; an unknown correlation counts as one of a half. */
  lemma ConfidenceEnds(c: real, delta: real, diff: int)
    ensures Confidence(Some(1.0), 50.0, 0) == Confidence(Some(-1.0), 90.0, 0) == 1.0
    ensures Confidence(Some(0.0), 0.0, CORRELATION_WINDOW) == Confidence(Some(0.0), 0.0, -CORRELATION_WINDOW) == 0.0
    ensures Confidence(Some(c), delta, diff) == Confidence(Some(-c), delta, diff) == Confidence(Some(c), delta, -diff)
    ensures Confidence(None, delta, diff) == Confidence(Some(0.5), delta, diff)
    ensures Confidence(Some(1.0), delta, diff) - Confidence(Some(0.0), delta, diff) == 1.0 / 3.0
    ensures Confidence(Some(c), 50.0, diff) - Confidence(Some(c), 0.0, diff) == 1.0 / 3.0
    ensures Confidence(Some(c), delta, 0) - Confidence(Some(c), delta, 120_000_000_000) == 1.0 / 3.0
  {
    assert CORRELATION_WINDOW as real / SECOND as real == 120.0;
  }

  // ---- Bursts ----

  datatype Burst = Burst(id: string, service: string, start: int)

  datatype Pending = Pending(burst: Burst, addedAt: int, correlated: bool)

  datatype Event = Event(host: string, burstId: string, delta: real, confidence: real, at: int)

  predicate Matches(p: Pending, at: int) {
    !p.correlated && InWindow(at - p.burst.start)
  }

  function EventOf(p: Pending, host: string, delta: real, at: int, correlation: string -> Option<real>): seq<Event> {
    if Matches(p, at)
    then [Event(host, p.burst.id, delta, Confidence(correlation(p.burst.service), delta, at - p.burst.start), at)]
    else []
  }

  /** The events of one health drop, in the order of the pending bursts. */
  function EventsOf(pending: seq<Pending>, host: string, delta: real, at: int,
                    correlation: string -> Option<real>): seq<Event>
  {
    if pending == [] then []
    else
      EventsOf(pending[..|pending| - 1], host, delta, at, correlation)
      + EventOf(pending[|pending| - 1], host, delta, at, correlation)
  }

  function Marked(p: Pending, at: int): Pending {
    if Matches(p, at) then p.(correlated := true) else p
  }

  ghost predicate Correlations(correlation: string -> Option<real>) {
    forall s :: correlation(s).Some? ==> -1.0 <= correlation(s).value <= 1.0
  }

  /** Every event of a drop of at least the threshold has a confidence in [0, 1]. */
  lemma {:induction false} EventsInUnit(pending: seq<Pending>, host: string, delta: real, at: int,
                                        correlation: string -> Option<real>)
    requires Correlations(correlation) && delta >= DELTA_THRESHOLD
    ensures forall e :: e in EventsOf(pending, host, delta, at, correlation) ==> 0.0 <= e.confidence <= 1.0
  {
    if pending != [] {
      var (init, p) := (pending[..|pending| - 1], pending[|pending| - 1]);
      EventsInUnit(init, host, delta, at, correlation);
      if Matches(p, at) { ConfidenceInUnit(correlation(p.burst.service), delta, at - p.burst.start); }
    }
  }

  function MarkAll(pending: seq<Pending>, at: int): (r: seq<Pending>)
    ensures |r| == |pending|
  {
    if pending == [] then [] else MarkAll(pending[..|pending| - 1], at) + [Marked(pending[|pending| - 1], at)]
  }

  function CorrelatedCount(pending: seq<Pending>): nat {
    if pending == [] then 0
    else CorrelatedCount(pending[..|pending| - 1]) + if pending[|pending| - 1].correlated then 1 else 0
  }

  /** Each event marks one burst for good, so no burst yields a second event. */
  lemma {:induction false} OneEventPerMark(pending: seq<Pending>, host: string, delta: real, at: int,
                                           correlation: string -> Option<real>)
    ensures CorrelatedCount(MarkAll(pending, at)) ==
            CorrelatedCount(pending) + |EventsOf(pending, host, delta, at, correlation)|
  {
    if pending != [] {
      var n := |pending| - 1;
      var r := MarkAll(pending, at);
      assert r[..n] == MarkAll(pending[..n], at);
      OneEventPerMark(pending[..n], host, delta, at, correlation);
    }
  }

  /** The correlation of a service with a host, once enough pairs were added. */
  function Tracked(pearson: map<string, Sums>, host: string, root: real -> real): string -> Option<real> {
    (service: string) =>
      var key := service + ":" + host;
      if key in pearson && pearson[key].n >= MIN_PAIRS then Some(CorrOf(pearson[key], root)) else None
  }

  /** Every tracker holds the sums of some list of pairs, as far as the bounds need it. */
  ghost predicate AllSound(pearson: map<string, Sums>) {
    forall k :: k in pearson ==> Sound(pearson[k])
  }

  /** Trackers with sound sums give correlations between -1 and 1, for any square root. */
  lemma TrackedIsBounded(pearson: map<string, Sums>, host: string, root: real -> real)
    requires IsRoot(root) && AllSound(pearson)
    ensures Correlations(Tracked(pearson, host, root))
  {
    forall s | Tracked(pearson, host, root)(s).Some? ensures -1.0 <= Tracked(pearson, host, root)(s).value <= 1.0 {
      CorrBound(pearson[s + ":" + host], root);
    }
  }

  /** The pending bursts that the cutoff spares, or the ones it drops. */
  function Sifted(pending: seq<Pending>, cutoff: int, spared: bool): seq<Pending> {
    if pending == [] then []
    else
      var p := pending[|pending| - 1];
      Sifted(pending[..|pending| - 1], cutoff, spared) + if (p.addedAt > cutoff) == spared then [p] else []
  }

  lemma {:induction false} CountAppend(a: seq<Pending>, b: seq<Pending>)
    ensures CorrelatedCount(a + b) == CorrelatedCount(a) + CorrelatedCount(b)
  {
    if b == [] {
      assert a + b == a;
    } else {
      assert (a + b)[..|a + b| - 1] == a + b[..|b| - 1];
      CountAppend(a, b[..|b| - 1]);
    }
  }

  /** Eviction loses no mark: the matched bursts are either still pending or evicted. */
  lemma {:induction false} SiftedCounts(pending: seq<Pending>, cutoff: int)
    ensures CorrelatedCount(Sifted(pending, cutoff, true)) + CorrelatedCount(Sifted(pending, cutoff, false)) ==
            CorrelatedCount(pending)
  {
    if pending != [] {
      var (init, p) := (pending[..|pending| - 1], pending[|pending| - 1]);
      SiftedCounts(init, cutoff);
      CountAppend(Sifted(init, cutoff, p.addedAt > cutoff), [p]);
      assert Sifted(init, cutoff, p.addedAt <= cutoff) + [] == Sifted(init, cutoff, p.addedAt <= cutoff);
      assert [p][..0] == [] && CorrelatedCount([p]) == if p.correlated then 1 else 0;
    }
  }

  /** A drop matches the bursts that are still unmatched and started within two minutes of it, and marks these alone. */
  lemma {:induction false} MatchedMeans(pending: seq<Pending>, at: int, i: nat)
    requires i < |pending|
    ensures MarkAll(pending, at)[i].burst == pending[i].burst && MarkAll(pending, at)[i].addedAt == pending[i].addedAt
    ensures MarkAll(pending, at)[i].correlated <==>
            pending[i].correlated || -120_000_000_000 <= at - pending[i].burst.start <= 120_000_000_000
  {
    if i < |pending| - 1 { MatchedMeans(pending[..|pending| - 1], at, i); }
  }

  class Engine {
    var history: map<string, seq<real>>
    var pending: seq<Pending>
    var events: seq<Event>
    var pearson: map<string, Sums>
    ghost var scores: map<string, seq<real>>
    ghost var produced: seq<Event>
    /** The matched bursts among those evicted. */
    ghost var evicted: nat

    ghost predicate Valid()
      reads this
    {
      && history.Keys == scores.Keys
      && (forall h :: h in history ==> history[h] == Last(scores[h], KPI_WINDOW))
      && AllSound(pearson)
      && events == Last(produced, STORE_SIZE)
      && |produced| == CorrelatedCount(pending) + evicted
      && forall e :: e in produced ==> 0.0 <= e.confidence <= 1.0
    }

    constructor ()
      ensures Valid() && pending == [] && produced == [] && scores == map[] && pearson == map[]
    {
      history, pending, events, pearson, scores, produced, evicted := map[], [], [], map[], map[], [], 0;
    }

    /** Adds a burst and drops the ones that have waited for twice the window. */
    method ObserveBurst(burst: Burst, now: int)
      requires Valid()
      modifies this`pending, this`evicted
      ensures Valid() && pending ==
              Sifted(old(pending) + [Pending(burst, now, false)], now - 2 * CORRELATION_WINDOW, true)
      ensures pending != [] && pending[|pending| - 1] == Pending(burst, now, false)
    {
      var all := pending + [Pending(burst, now, false)];
      CountAppend(pending, [Pending(burst, now, false)]);
      var one: seq<Pending> := [Pending(burst, now, false)];
      assert one[..0] == [] && CorrelatedCount(one) == 0;
      SiftedCounts(all, now - 2 * CORRELATION_WINDOW);
      var keep := EvictStale(all, now - 2 * CORRELATION_WINDOW);
      assert all[..|all| - 1] == pending;
      evicted := evicted + CorrelatedCount(Sifted(all, now - 2 * CORRELATION_WINDOW, false));
      pending := keep;
    }

    static method EvictStale(pending: seq<Pending>, cutoff: int) returns (keep: seq<Pending>)
      ensures keep == Sifted(pending, cutoff, true)
    {
      keep := [];
      for i := 0 to |pending|
        invariant keep == Sifted(pending[..i], cutoff, true)
      {
        assert pending[..i + 1][..i] == pending[..i];
        if pending[i].addedAt > cutoff { keep := keep + [pending[i]]; }
      }
      assert pending[..|pending|] == pending;
    }

    /** Keeps the last scores of a host and returns the one before this. */
    method Record(host: string, value: real) returns (previous: Option<real>)
      requires Valid()
      modifies this`history, this`scores
      ensures Valid() && scores == old(scores)[host := Before(old(scores), host) + [value]]
      ensures previous == LastScore(Before(old(scores), host))
    {
      LastTwo(Before(scores, host), value, KPI_WINDOW);
      var ring := (if host in history then history[host] else []) + [value];
      if |ring| > KPI_WINDOW { ring := ring[1..]; }
      LastOfAppend(Before(scores, host), value, KPI_WINDOW);
      previous := if |ring| < 2 then None else Some(ring[|ring| - 2]);
      history := history[host := ring];
      scores := scores[host := Before(scores, host) + [value]];
    }

    /** Records a health score; a drop of at least the threshold is matched with the pending bursts. */
    method ObserveHealth(host: string, value: real, at: int, root: real -> real)
      requires Valid() && IsRoot(root)
      modifies this`history, this`scores, this`pending, this`events, this`produced
      ensures Valid() && scores == old(scores)[host := Before(old(scores), host) + [value]]
      ensures var (last, correlation) := (LastScore(Before(old(scores), host)), Tracked(pearson, host, root));
              if last.Some? && last.value - value >= DELTA_THRESHOLD
              then pending == MarkAll(old(pending), at)
                   && produced == old(produced) + EventsOf(old(pending), host, last.value - value, at, correlation)
              else pending == old(pending) && produced == old(produced)
    {
      var previous := Record(host, value);
      if previous.Some? && previous.value - value >= DELTA_THRESHOLD {
        Correlate(host, previous.value - value, at, root);
      }
    }

    /** Every event has a confidence in [0, 1], whatever the trackers have seen. */
    method Correlate(host: string, delta: real, at: int, root: real -> real)
      requires Valid() && IsRoot(root) && delta >= DELTA_THRESHOLD
      modifies this`pending, this`events, this`produced
      ensures Valid() && pending == MarkAll(old(pending), at)
      ensures produced == old(produced) + EventsOf(old(pending), host, delta, at, Tracked(pearson, host, root))
    {
      var correlation := Tracked(pearson, host, root);
      TrackedIsBounded(pearson, host, root);
      OneEventPerMark(pending, host, delta, at, correlation);
      EventsInUnit(pending, host, delta, at, correlation);
      MatchPending(host, delta, at, correlation);
    }

    method MatchPending(host: string, delta: real, at: int, correlation: string -> Option<real>)
      requires events == Last(produced, STORE_SIZE)
      modifies this`pending, this`events, this`produced
      ensures pending == MarkAll(old(pending), at) && events == Last(produced, STORE_SIZE)
      ensures produced == old(produced) + EventsOf(old(pending), host, delta, at, correlation)
    {
      var marked := [];
      for i := 0 to |pending|
        invariant pending == old(pending)
        invariant marked == MarkAll(pending[..i], at)
        invariant produced == old(produced) + EventsOf(pending[..i], host, delta, at, correlation)
        invariant events == Last(produced, STORE_SIZE)
      {
        assert pending[..i + 1][..i] == pending[..i];
        if Matches(pending[i], at) {
          var ev := EventOf(pending[i], host, delta, at, correlation)[0];
          Store(ev);
        }
        marked := marked + [Marked(pending[i], at)];
      }
      assert pending[..|pending|] == pending;
      pending := marked;
    }

    /** Keeps the last events in the ring. */
    method Store(ev: Event)
      requires events == Last(produced, STORE_SIZE)
      modifies this`events, this`produced
      ensures events == Last(produced, STORE_SIZE) && produced == old(produced) + [ev]
    {
      LastOfAppend(produced, ev, STORE_SIZE);
      events := events + [ev];
      if |events| > STORE_SIZE { events := events[1..]; }
      produced := produced + [ev];
    }
  }

  ghost function Before(scores: map<string, seq<real>>, host: string): seq<real> {
    if host in scores then scores[host] else []
  }

  ghost function LastScore(before: seq<real>): Option<real> {
    if before == [] then None else Some(before[|before| - 1])
  }

  lemma LastTwo<T>(s: seq<T>, x: T, n: nat)
    ensures n >= 2 ==> var r := Last(s + [x], n); if s == [] then |r| == 1 else |r| >= 2 && r[|r| - 2] == s[|s| - 1]
  {
  }
}
