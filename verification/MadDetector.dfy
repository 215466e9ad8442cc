/** Median-absolute-deviation anomaly detection over the last values of a metric. */
module MadDetector {
  import opened OrderStats
  import opened Rings
  import RunningMedian

  const DEFAULT_K := 3.0
  const MIN_SAMPLES := 10
  const SIGMA_SCALE := 1.4826
  const MIN_SIGMA := 0.0000000001
  const BOUNDED_FRACTION := 0.02
  const MEDIAN_FRACTION := 0.20

  datatype Verdict = Verdict(anomaly: bool, expected: real, score: real)

  function Abs(x: real): real {
    if x < 0.0 then -x else x
  }

  function Deviations(win: seq<real>, center: real): (r: seq<real>)
    ensures |r| == |win| && forall i :: 0 <= i < |r| ==> r[i] == Abs(win[i] - center)
  {
    seq(|win|, i requires 0 <= i < |win| => Abs(win[i] - center))
  }

  ghost predicate Apart(dev: seq<real>, win: seq<real>, center: real, i: int) {
    0 <= i < |dev| && i < |win| && dev[i] == Abs(win[i] - center)
  }

  ghost predicate AllApart(dev: seq<real>, win: seq<real>, center: real) {
    forall i {:trigger Apart(dev, win, center, i)} :: 0 <= i < |dev| ==> Apart(dev, win, center, i)
  }

  lemma DeviationsApart(win: seq<real>, center: real)
    ensures |Deviations(win, center)| == |win| && AllApart(Deviations(win, center), win, center)
  {
  }

  /** The median absolute deviation of a window, computed by sorting. */
  function Mad(win: seq<real>): real {
    Median(Deviations(win, Median(win)))
  }

  predicate InUnit(x: real) {
    0.0 <= x <= 1.0
  }

  /** How far `v` must be from the median: a constant while all values are fractions, else relative to the median. */
  function MinAbsDeviation(win: seq<real>, v: real, med: real): real {
    if InUnit(v) && forall x :: x in win ==> InUnit(x) then BOUNDED_FRACTION else MEDIAN_FRACTION * Abs(med)
  }

  /** The outcome for a value `v`, given the median, the MAD and the alert floor of its window. */
  function Outcome(samples: nat, k: real, v: real, med: real, mad: real, floor: real): Verdict {
    var sigma := SIGMA_SCALE * mad;
    if samples < MIN_SAMPLES then Verdict(false, v, 0.0)
    else if sigma < MIN_SIGMA then Verdict(false, med, 0.0)
    else
      var z := Abs(v - med) / sigma;
      Verdict(z > k && Abs(v - med) >= floor, med, z)
  }

  /** The test of `v` against a window whose median and MAD come from sorting. */
  function Judge(win: seq<real>, k: real, v: real): Verdict {
    Outcome(|win|, k, v, Median(win), Mad(win), MinAbsDeviation(win, v, Median(win)))
  }

  ghost predicate AtLeastApart(v: real, med: real, d: real) {
    v >= med + d || v <= med - d
  }

  ghost predicate FartherThan(v: real, med: real, d: real) {
    v > med + d || v < med - d
  }

  /** A window of fractions: a fraction is an anomaly when it is far by the scaled MAD and at least 0.02 away. */
  lemma BoundedAnomaly(win: seq<real>, k: real, v: real)
    requires |win| >= 10 && k > 0.0 && 1.4826 * Mad(win) >= 0.0000000001
    requires 0.0 <= v <= 1.0 && forall x :: x in win ==> 0.0 <= x <= 1.0
    ensures Judge(win, k, v).anomaly <==>
            FartherThan(v, Median(win), k * (1.4826 * Mad(win))) && AtLeastApart(v, Median(win), 0.02)
  {
    ScoreAbove(v, Median(win), 1.4826 * Mad(win), k);
  }

  /** When some value is not a fraction, it must be away by at least a fifth of the median. */
  lemma UnboundedAnomaly(win: seq<real>, k: real, v: real)
    requires |win| >= 10 && k > 0.0 && 1.4826 * Mad(win) >= 0.0000000001
    requires !(0.0 <= v <= 1.0 && forall x :: x in win ==> 0.0 <= x <= 1.0)
    ensures Judge(win, k, v).anomaly <==>
            && FartherThan(v, Median(win), k * (1.4826 * Mad(win)))
            && AtLeastApart(v, Median(win), if Median(win) < 0.0 then -0.2 * Median(win) else 0.2 * Median(win))
  {
    ScoreAbove(v, Median(win), 1.4826 * Mad(win), k);
  }

  /** So, unless all are fractions, nothing strictly within a fifth of the median is ever an anomaly. */
  lemma NearMedianIsQuiet(win: seq<real>, k: real, v: real)
    requires k > 0.0 && !(0.0 <= v <= 1.0 && forall x :: x in win ==> 0.0 <= x <= 1.0)
    requires !AtLeastApart(v, Median(win), if Median(win) < 0.0 then -0.2 * Median(win) else 0.2 * Median(win))
    ensures !Judge(win, k, v).anomaly
  {
    if |win| >= 10 && 1.4826 * Mad(win) >= 0.0000000001 { UnboundedAnomaly(win, k, v); }
  }

  lemma ScoreAbove(v: real, med: real, sigma: real, k: real)
    requires sigma > 0.0
    ensures Abs(v - med) / sigma > k <==> FartherThan(v, med, k * sigma)
  {
    var z := Abs(v - med) / sigma;
    assert z * sigma == Abs(v - med);
    assert (z - k) * sigma == z * sigma - k * sigma;
    if z > k { assert (z - k) * sigma > 0.0; } else { assert (k - z) * sigma >= 0.0; }
  }

  /** With fewer values or next to no spread nothing is an anomaly; the score is the distance in scaled MADs. */
  lemma QuietAndScore(win: seq<real>, k: real, v: real)
    ensures |win| < 10 ==> Judge(win, k, v) == Verdict(false, v, 0.0)
    ensures |win| >= 10 && 1.4826 * Mad(win) < 0.0000000001 ==> Judge(win, k, v) == Verdict(false, Median(win), 0.0)
    ensures |win| >= 10 && 1.4826 * Mad(win) >= 0.0000000001 ==>
              var r := Judge(win, k, v);
              && r.expected == Median(win) && r.score >= 0.0
              && !FartherThan(v, Median(win), r.score * (1.4826 * Mad(win)))
              && AtLeastApart(v, Median(win), r.score * (1.4826 * Mad(win)))
  {
  }

  ghost function AtMost(m: real): real -> bool {
    x => x <= m
  }

  ghost function Within(center: real, radius: real): real -> bool {
    x => Abs(x - center) <= radius
  }

  ghost function Flagged(win: seq<real>, k: real): real -> bool {
    x => Judge(win, k, x).anomaly
  }

  /** No more than half of a window is flagged against that window. */
  ghost predicate MinorityFlagged(win: seq<real>, k: real) {
    2 * Count(win, Flagged(win, k)) <= |win|
  }

  lemma {:induction false} CountDeviations(win: seq<real>, center: real, radius: real)
    ensures Count(Deviations(win, center), AtMost(radius)) == Count(win, Within(center, radius))
  {
    if win != [] {
      assert Deviations(win, center)[1..] == Deviations(win[1..], center);
      CountDeviations(win[1..], center, radius);
    }
  }

  /** At least half of a window lies within its MAD of its median. */
  lemma HalfWithinMad(win: seq<real>)
    ensures 2 * Count(win, Within(Median(win), Mad(win))) >= |win|
  {
    var s := Deviations(win, Median(win));
    var a := Sort(s);
    SortIsSorted(s);
    MiddleAboveHalf(a);
    CountRange(a, 0, (|a| + 1) / 2, AtMost(Mad(win)));
    CountPermutation(s, a, AtMost(Mad(win)));
    CountDeviations(win, Median(win), Mad(win));
  }

  lemma AlarmIsFar(samples: nat, k: real, v: real, med: real, mad: real, floor: real)
    requires k * SIGMA_SCALE >= 1.0 && Outcome(samples, k, v, med, mad, floor).anomaly
    ensures Abs(v - med) > mad
  {
    var d, sigma := Abs(v - med), SIGMA_SCALE * mad;
    assert d == d / sigma * sigma > k * sigma == (k * SIGMA_SCALE) * mad >= 1.0 * mad;
  }

  /** When k sigma reaches the MAD, no more than half of a window can be flagged against that window. */
  lemma AtMostHalfFlagged(win: seq<real>, k: real)
    requires k * SIGMA_SCALE >= 1.0
    ensures MinorityFlagged(win, k)
  {
    HalfWithinMad(win);
    forall x | Flagged(win, k)(x) ensures !Within(Median(win), Mad(win))(x) {
      AlarmIsFar(|win|, k, x, Median(win), Mad(win), MinAbsDeviation(win, x, Median(win)));
    }
    CountDisjoint(win, Flagged(win, k), Within(Median(win), Mad(win)));
  }

  /** Four values of -10, three of 0 and four of 10. */
  ghost predicate IsSpread(w: seq<real>) {
    |w| == 11 && forall i :: 0 <= i < 11 ==> w[i] == if i < 4 then -10.0 else if i < 7 then 0.0 else 10.0
  }

  lemma SpreadStatistics(w: seq<real>)
    requires IsSpread(w)
    ensures Median(w) == 0.0 && Mad(w) == 10.0
  {
    MedianOfListing(w, w);
    var dev := Deviations(w, Median(w));
    SpreadDeviation(dev);
  }

  lemma SpreadDeviation(dev: seq<real>)
    requires |dev| == 11 && forall i :: 0 <= i < 11 ==> dev[i] == if 4 <= i < 7 then 0.0 else 10.0
    ensures Median(dev) == 10.0
  {
    var head, mid, tail := dev[..4], dev[4..7], dev[7..];
    assert dev == head + mid + tail;
    MedianOfListing(dev, mid + (head + tail));
  }

  lemma FarIsFlagged(w: seq<real>, k: real, i: nat)
    requires IsSpread(w) && k * SIGMA_SCALE < 1.0 && i < 11 && w[i] != 0.0
    ensures Flagged(w, k)(w[i])
  {
    SpreadStatistics(w);
    var sigma := SIGMA_SCALE * 10.0;
    assert k * sigma < 10.0 == Abs(w[i]);
    assert Abs(w[i]) / sigma > k;
    assert w[0] in w && !InUnit(w[0]);
  }

  lemma CountEnds(w: seq<real>, p: real -> bool)
    requires |w| == 11 && forall i :: 0 <= i < 4 || 7 <= i < 11 ==> p(w[i])
    ensures Count(w, p) >= 8
  {
    var head, tail := w[..4], w[4..];
    CountRange(head, 0, |head|, p);
    CountRange(tail, 3, |tail|, p);
    CountAppend(head, tail, p);
    assert head + tail == w;
  }

  /** A smaller k flags eight of the eleven values of such a window. */
  lemma MostFlagged(w: seq<real>, k: real)
    requires IsSpread(w) && 0.0 < k && k * SIGMA_SCALE < 1.0
    ensures !MinorityFlagged(w, k)
  {
    forall i | 0 <= i < 4 || 7 <= i < 11 ensures Flagged(w, k)(w[i]) { FarIsFlagged(w, k, i); }
    CountEnds(w, Flagged(w, k));
  }

  /** Exactly which multipliers keep the flagged share of every window at one half or less. */
  lemma FlaggedShare(k: real)
    requires k > 0.0
    ensures k * SIGMA_SCALE >= 1.0 <==> forall win :: MinorityFlagged(win, k)
  {
    if k * SIGMA_SCALE >= 1.0 {
      forall win ensures MinorityFlagged(win, k) { AtMostHalfFlagged(win, k); }
    } else {
      MostFlagged(seq(11, i => if i < 4 then -10.0 else if i < 7 then 0.0 else 10.0), k);
    }
  }

  class Detector {
    const window: Ring<real>
    const k: real

    ghost predicate Valid()
      reads this, window, window.data
    {
      window.Valid() && k > 0.0
    }

    constructor (windowSize: nat, k: real)
      ensures Valid() && window.cap == windowSize && window.log == []
      ensures this.k == if k <= 0.0 then DEFAULT_K else k
    {
      this.k := if k <= 0.0 then DEFAULT_K else k;
      window := new Ring<real>(windowSize);
    }

    method Update(v: real)
      requires Valid() && window.cap > 0
      modifies window, window.data
      ensures Valid() && window.log == old(window.log) + [v]
    {
      window.Push(v);
    }

    method WindowMedian() returns (med: real)
      requires Valid()
      ensures med == Median(window.Recent())
    {
      ghost var win := window.Recent();
      var rm := new RunningMedian.Estimator();
      for i := 0 to window.n
        invariant rm.Valid() && rm.pushed == win[..i] && fresh(rm) && fresh(rm.lo) && fresh(rm.hi)
      {
        var x := window.At(i);
        assert win[..i + 1] == win[..i] + [x];
        rm.Push(x);
      }
      assert win[..window.n] == win;
      med := rm.CurrentMedian();
    }

    method WindowDeviation(med: real) returns (mad: real)
      requires Valid()
      ensures mad == Median(Deviations(window.Recent(), med))
    {
      DeviationsApart(window.Recent(), med);
      mad := FeedDeviations(med, Deviations(window.Recent(), med));
    }

    method FeedDeviations(med: real, ghost dev: seq<real>) returns (mad: real)
      requires Valid() && |dev| == window.n && AllApart(dev, window.Recent(), med)
      ensures mad == Median(dev)
    {
      var rm := new RunningMedian.Estimator();
      for i := 0 to window.n
        invariant rm.Valid() && rm.pushed == dev[..i] && fresh(rm) && fresh(rm.lo) && fresh(rm.hi)
      {
        var d := DistanceAt(med, i, dev);
        assert dev[..i + 1] == dev[..i] + [d];
        rm.Push(d);
      }
      assert dev[..window.n] == dev;
      mad := rm.CurrentMedian();
    }

    method DistanceAt(med: real, i: nat, ghost dev: seq<real>) returns (d: real)
      requires Valid() && |dev| == window.n && AllApart(dev, window.Recent(), med) && i < window.n
      ensures d == dev[i]
    {
      assert Apart(dev, window.Recent(), med, i);
      d := Abs(window.At(i) - med);
    }

    /** The heap-based test gives the sorting test's verdict on the last `cap` updates. */
    method IsAnomaly(v: real) returns (r: Verdict)
      requires Valid()
      ensures r == Judge(Last(window.log, window.cap), k, v)
    {
      ghost var win := window.Recent();
      if window.n < MIN_SAMPLES { return Verdict(false, v, 0.0); }
      var med := WindowMedian();
      var mad := WindowDeviation(med);
      assert mad == Mad(win);
      r := Weigh(v, med, mad);
    }

    method Weigh(v: real, med: real, mad: real) returns (r: Verdict)
      requires Valid() && window.n >= MIN_SAMPLES
      ensures r == Outcome(window.n, k, v, med, mad, MinAbsDeviation(Last(window.log, window.cap), v, med))
    {
      var sigma := SIGMA_SCALE * mad;
      if sigma < MIN_SIGMA { return Verdict(false, med, 0.0); }
      var z := Abs(v - med) / sigma;
      if z <= k { return Verdict(false, med, z); }
      var floor := FloorFor(v, med);
      r := Verdict(Abs(v - med) >= floor, med, z);
    }

    method FloorFor(v: real, med: real) returns (floor: real)
      requires Valid()
      ensures floor == MinAbsDeviation(Last(window.log, window.cap), v, med)
    {
      ghost var win := window.Recent();
      SlotsAreHeld(window.data[..], window.log, window.n);
      var bounded := AllBounded(v);
      floor := if bounded then BOUNDED_FRACTION else MEDIAN_FRACTION * Abs(med);
    }

    /** The scan in slot order, which stops at the first value outside [0, 1]. */
    method AllBounded(v: real) returns (bounded: bool)
      requires window.n <= window.data.Length
      ensures bounded <==> InUnit(v) && forall x :: x in window.data[..window.n] ==> InUnit(x)
    {
      bounded := InUnit(v);
      var i := 0;
      while bounded && i < window.n
        invariant 0 <= i <= window.n
        invariant bounded <==> InUnit(v) && forall j :: 0 <= j < i ==> InUnit(window.data[j])
      {
        if !InUnit(window.data[i]) { bounded := false; }
        i := i + 1;
      }
      ghost var slots := window.data[..window.n];
      assert !bounded && InUnit(v) ==> exists x :: x in slots && !InUnit(x);
      assert bounded ==> forall x :: x in slots ==> InUnit(x);
    }
  }
}
