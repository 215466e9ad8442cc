/** Time to memory exhaustion, from a pruned window and its Theil-Sen slope. */
module Saturation {
  import opened OrderStats
  import opened Options

  /** Times and durations are in nanoseconds. */
  const SECOND := 1_000_000_000
  const MINUTE := 60 * SECOND
  const WINDOW := 30 * MINUTE
  const MIN_SAMPLES := 5
  const MAX_SAMPLES := 120
  const MIN_AGREEING := 0.8
  const MIN_SPAN := 10 * MINUTE
  const MIN_HALF_RISE := 0.2

  datatype Point = Point(at: int, usage: real)

  datatype Estimate = Estimate(etf: int, early: int, late: int, confidence: real, usage: real)

  function Seconds(d: int): real {
    d as real / SECOND as real
  }

  /** time.Duration(x * float64(time.Second)) for x >= 0: truncated to whole nanoseconds. */
  function ToDuration(x: real): int {
    (x * SECOND as real).Floor
  }

  // ---- Slopes ----

  function Slope(p: Point, q: Point): real
    requires p.at < q.at
  {
    (q.usage - p.usage) / Seconds(q.at - p.at)
  }

  /** The slopes from `p` to each later point among the first `n`. */
  function SlopesFrom(p: Point, points: seq<Point>): seq<real> {
    if points == [] then []
    else
      var (init, q) := (points[..|points| - 1], points[|points| - 1]);
      SlopesFrom(p, init) + if p.at < q.at then [Slope(p, q)] else []
  }

  lemma SlopesFromNext(p: Point, points: seq<Point>, a: nat, j: nat)
    requires a <= j < |points|
    ensures SlopesFrom(p, points[a..j + 1]) ==
            SlopesFrom(p, points[a..j]) + if p.at < points[j].at then [Slope(p, points[j])] else []
  {
    assert points[a..j + 1][..j - a] == points[a..j];
  }

  function AllSlopes(points: seq<Point>, i: nat): seq<real>
    requires i <= |points|
  {
    if i == 0 then [] else AllSlopes(points, i - 1) + SlopesFrom(points[i - 1], points[i..])
  }

  /** The slopes of all pairs, sorted. */
  function PairSlopesOf(points: seq<Point>): seq<real> {
    Sort(AllSlopes(points, |points|))
  }

  method SlopesToLater(points: seq<Point>, i: nat) returns (slopes: seq<real>)
    requires i < |points|
    ensures slopes == SlopesFrom(points[i], points[i + 1..])
  {
    slopes := [];
    for j := i + 1 to |points|
      invariant slopes == SlopesFrom(points[i], points[i + 1..j])
    {
      SlopesFromNext(points[i], points, i + 1, j);
      if points[i].at < points[j].at { slopes := slopes + [Slope(points[i], points[j])]; }
    }
    assert points[i + 1..|points|] == points[i + 1..];
  }

  method PairSlopes(points: seq<Point>) returns (slopes: seq<real>)
    ensures slopes == PairSlopesOf(points)
  {
    slopes := [];
    for i := 0 to |points|
      invariant slopes == AllSlopes(points, i)
    {
      var more := SlopesToLater(points, i);
      slopes := slopes + more;
    }
    slopes := Sort(slopes);
  }

  // ---- Trend ----

  function Positive(): real -> bool { x => x > 0.0 }

  function Changing(): real -> bool { x => x != 0.0 }

  /** The share of changing pairs that rise. */
  function Agreement(slopes: seq<real>): real {
    if Count(slopes, Changing()) == 0 then 0.0
    else Count(slopes, Positive()) as real / Count(slopes, Changing()) as real
  }

  method TheilSen(slopes: seq<real>) returns (median: real, agree: real)
    ensures median == Middle(slopes) && agree == Agreement(slopes)
  {
    if |slopes| == 0 { return 0.0, 0.0; }
    median := slopes[|slopes| / 2];
    if |slopes| % 2 == 0 { median := (slopes[|slopes| / 2 - 1] + slopes[|slopes| / 2]) / 2.0; }
    var positive, changing := 0, 0;
    for i := 0 to |slopes|
      invariant positive == Count(slopes[..i], Positive()) && changing == Count(slopes[..i], Changing())
    {
      CountNext(slopes, i, Positive());
      CountNext(slopes, i, Changing());
      if slopes[i] != 0.0 { changing := changing + 1; }
      if slopes[i] > 0.0 { positive := positive + 1; }
    }
    assert slopes[..|slopes|] == slopes;
    if changing == 0 { return median, 0.0; }
    agree := positive as real / changing as real;
  }

  function Sum(points: seq<Point>): real {
    if points == [] then 0.0 else Sum(points[..|points| - 1]) + points[|points| - 1].usage
  }

  function AverageOf(points: seq<Point>): real
    requires points != []
  {
    Sum(points) / |points| as real
  }

  method Average(points: seq<Point>) returns (m: real)
    requires points != []
    ensures m == AverageOf(points)
  {
    var sum := 0.0;
    for i := 0 to |points|
      invariant sum == Sum(points[..i])
    {
      assert points[..i + 1][..i] == points[..i];
      sum := sum + points[i].usage;
    }
    assert points[..|points|] == points;
    m := sum / |points| as real;
  }

  function EdgeSize(n: nat): (e: nat)
    ensures e >= 1 && (n >= 1 ==> e <= n)
    ensures n >= 2 ==> 5 * (n - e) >= n - 1
  {
    if n / 4 < 1 then 1 else n / 4
  }

  /** The rise from the average of the first samples to that of the last. */
  function NetRise(points: seq<Point>): real
    requires points != []
  {
    var e := EdgeSize(|points|);
    AverageOf(points[|points| - e..]) - AverageOf(points[..e])
  }

  ghost predicate UsageWithin(points: seq<Point>, lo: real, hi: real) {
    forall i :: 0 <= i < |points| ==> lo <= points[i].usage <= hi
  }

  lemma {:induction false} SumWithin(points: seq<Point>, lo: real, hi: real)
    requires UsageWithin(points, lo, hi)
    ensures |points| as real * lo <= Sum(points) <= |points| as real * hi
  {
    if points != [] {
      var m := (|points| - 1) as real;
      SumWithin(points[..|points| - 1], lo, hi);
      assert |points| as real * lo == m * lo + lo && |points| as real * hi == m * hi + hi;
    }
  }

  lemma AverageWithin(points: seq<Point>, lo: real, hi: real)
    requires UsageWithin(points, lo, hi) && points != []
    ensures lo <= AverageOf(points) <= hi
  {
    SumWithin(points, lo, hi);
    var (m, x) := (|points| as real, AverageOf(points));
    assert (x - lo) * m == Sum(points) - m * lo && (hi - x) * m == m * hi - Sum(points);
  }

  /** The rise is between what the lowest late and highest early readings and their opposites allow. */
  lemma RiseBetween(points: seq<Point>, early: (real, real), late: (real, real))
    requires points != []
    requires UsageWithin(points[..EdgeSize(|points|)], early.0, early.1)
    requires UsageWithin(points[|points| - EdgeSize(|points|)..], late.0, late.1)
    ensures late.0 - early.1 <= NetRise(points) <= late.1 - early.0
  {
    AverageWithin(points[..EdgeSize(|points|)], early.0, early.1);
    AverageWithin(points[|points| - EdgeSize(|points|)..], late.0, late.1);
  }

  method MeasureRise(points: seq<Point>) returns (rise: real)
    requires points != []
    ensures rise == NetRise(points)
  {
    var edge := |points| / 4;
    if edge < 1 { edge := 1; }
    var high := Average(points[|points| - edge..]);
    var low := Average(points[..edge]);
    rise := high - low;
  }

  /** Duration division by two, truncated toward zero. */
  function Half(d: int): int {
    if d < 0 then -((-d) / 2) else d / 2
  }

  function MidTime(points: seq<Point>): int
    requires points != []
  {
    points[0].at + Half(points[|points| - 1].at - points[0].at)
  }

  /** The binary search of sort.Search for the first point after `mid`, between `i` and `j`. */
  function SearchAfter(points: seq<Point>, mid: int, i: nat, j: nat): (r: nat)
    requires i <= j <= |points|
    ensures i <= r <= j
    decreases j - i
  {
    if i == j then i
    else
      var h := (i + j) / 2;
      if points[h].at > mid then SearchAfter(points, mid, i, h) else SearchAfter(points, mid, h + 1, j)
  }

  method Search(points: seq<Point>, mid: int) returns (r: nat)
    ensures r == SearchAfter(points, mid, 0, |points|)
  {
    var i, j: nat := 0, |points|;
    while i < j
      invariant i <= j <= |points| && SearchAfter(points, mid, i, j) == SearchAfter(points, mid, 0, |points|)
    {
      var h := (i + j) / 2;
      if points[h].at > mid { j := h; } else { i := h + 1; }
    }
    r := i;
  }

  predicate HalfRises(half: seq<Point>, slope: real)
    requires half != []
  {
    NetRise(half) >= slope * Seconds(half[|half| - 1].at - half[0].at) * MIN_HALF_RISE
  }

  /** Both halves of the window, split by time, rise enough. */
  predicate Sustained(points: seq<Point>, slope: real)
    requires points != []
  {
    BothRise(points, SearchAfter(points, MidTime(points), 0, |points|), slope)
  }

  predicate BothRise(points: seq<Point>, split: nat, slope: real)
    requires split <= |points|
  {
    split >= 2 && |points| - split >= 2 && HalfRises(points[..split], slope) && HalfRises(points[split..], slope)
  }

  method CheckHalf(half: seq<Point>, slope: real) returns (ok: bool)
    requires half != []
    ensures ok == HalfRises(half, slope)
  {
    var span := Seconds(half[|half| - 1].at - half[0].at);
    var rise := MeasureRise(half);
    ok := !(rise < slope * span * MIN_HALF_RISE);
  }

  method CheckSustained(points: seq<Point>, slope: real) returns (ok: bool)
    requires points != []
    ensures ok == Sustained(points, slope)
  {
    var mid := points[0].at + Half(points[|points| - 1].at - points[0].at);
    assert mid == MidTime(points);
    var split := Search(points, mid);
    ok := CheckBoth(points, split, slope);
  }

  method CheckBoth(points: seq<Point>, split: nat, slope: real) returns (ok: bool)
    requires split <= |points|
    ensures ok == BothRise(points, split, slope)
  {
    if split < 2 || |points| - split < 2 { return false; }
    ok := CheckHalf(points[..split], slope);
    if ok { ok := CheckHalf(points[split..], slope); }
  }

  // ---- Forecast ----

  /** The values a quarter and three quarters of the way through the list; there is no interpolation. */
  function SlopeBand(sorted: seq<real>): (real, real) {
    if sorted == [] then (0.0, 0.0) else (sorted[|sorted| / 4], sorted[3 * |sorted| / 4])
  }

  /** Times to fill `remaining` at the high and at the low slope; 0 stands for never when a slope is not positive. */
  function FailureBand(remaining: real, low: real, high: real): (int, int) {
    var room := if remaining < 0.0 then 0.0 else remaining;
    (if high > 0.0 then ToDuration(room / high) else 0, if low > 0.0 then ToDuration(room / low) else 0)
  }

  function Room(usage: real): real {
    if usage > 1.0 then 0.0 else 1.0 - usage
  }

  /** The forecast for a median slope, the agreement of the slopes and their quartiles. */
  function Forecast(usage: real, slope: real, agree: real, band: (real, real)): Estimate
    requires slope > 0.0
  {
    var (early, late) := FailureBand(Room(usage), band.0, band.1);
    Estimate(ToDuration(Room(usage) / slope), early, late, agree, usage)
  }

  predicate LongEnough(points: seq<Point>) {
    |points| >= MIN_SAMPLES && points[|points| - 1].at - points[0].at >= MIN_SPAN
  }

  /** The window shows a significant upward trend. */
  predicate Trending(points: seq<Point>, slopes: seq<real>)
    requires points != []
  {
    Middle(slopes) > 0.0 && Agreement(slopes) >= MIN_AGREEING && Sustained(points, Middle(slopes))
  }

  /** The estimate read from a window. */
  function EstimateOf(points: seq<Point>): Option<Estimate>
    requires points != []
  {
    var slopes := PairSlopesOf(points);
    if LongEnough(points) && Trending(points, slopes)
    then Some(Forecast(points[|points| - 1].usage, Middle(slopes), Agreement(slopes), SlopeBand(slopes)))
    else None
  }

  lemma SlowerIsLater(room: real, slow: real, fast: real)
    requires room >= 0.0 && 0.0 < slow <= fast
    ensures 0 <= ToDuration(room / fast) <= ToDuration(room / slow)
  {
    var (x, y) := (room / fast, room / slow);
    assert x * fast == room == y * slow;
    assert x >= 0.0 && y >= 0.0;
    assert y * slow <= y * fast;
    assert x <= y;
  }

  /** The quartiles enclose the median, however it is averaged. */
  lemma QuartilesEnclose(s: seq<real>)
    requires Ascending(s) && s != []
    ensures SlopeBand(s).0 <= Middle(s) <= SlopeBand(s).1
  {
  }

  /** Every estimate's early failure is not after its forecast, and its late failure, when known, not before it. */
  lemma BandBrackets(points: seq<Point>)
    requires points != []
    ensures EstimateOf(points).Some? ==>
              var e := EstimateOf(points).value;
              0 <= e.early <= e.etf && (SlopeBand(PairSlopesOf(points)).0 > 0.0 ==> e.etf <= e.late)
              && (e.late != 0 ==> e.etf <= e.late) && MIN_AGREEING <= e.confidence <= 1.0
  {
    if EstimateOf(points).Some? {
      SortIsSorted(AllSlopes(points, |points|));
      ForecastBrackets(points[|points| - 1].usage, PairSlopesOf(points));
    }
  }

  /** At `d` nanoseconds usage that grows at the slope has not passed the limit, a nanosecond later it has. */
  ghost predicate FailsAfter(usage: real, slope: real, d: int) {
    && d >= 0
    && if usage > 1.0 then d == 0
       else usage + slope * (d as real / 1_000_000_000.0) <= 1.0 < usage + slope * ((d + 1) as real / 1_000_000_000.0)
  }

  lemma LastNanosecond(room: real, slope: real)
    requires room >= 0.0 && slope > 0.0
    ensures IsLast(room, slope, ToDuration(room / slope))
  {
    var x := room / slope;
    assert x * slope == room && x >= 0.0;
    ScaledBetween(ToDuration(x), x, slope);
    LastOf(room, slope, x, ToDuration(x));
  }

  ghost predicate IsLast(room: real, slope: real, d: int) {
    d >= 0 && slope * (d as real / 1_000_000_000.0) <= room < slope * ((d + 1) as real / 1_000_000_000.0)
  }

  lemma LastOf(room: real, slope: real, x: real, d: int)
    requires x * slope == room && d >= 0
    requires slope * (d as real / 1_000_000_000.0) <= x * slope < slope * ((d + 1) as real / 1_000_000_000.0)
    ensures IsLast(room, slope, d)
  {
  }

  lemma ScaledBetween(d: int, x: real, slope: real)
    requires d as real / 1_000_000_000.0 <= x < (d + 1) as real / 1_000_000_000.0 && slope > 0.0
    ensures slope * (d as real / 1_000_000_000.0) <= x * slope < slope * ((d + 1) as real / 1_000_000_000.0)
  {
    var (a, b) := (d as real / 1_000_000_000.0, (d + 1) as real / 1_000_000_000.0);
    assert slope * (x - a) >= 0.0;
    assert slope * (b - x) > 0.0;
    assert slope * b == slope * x + slope * (b - x);
  }

  lemma RoomFails(usage: real, slope: real)
    requires slope > 0.0
    ensures FailsAfter(usage, slope, ToDuration(Room(usage) / slope))
  {
    LastNanosecond(Room(usage), slope);
    assert 0.0 / slope == 0.0;
  }

  /**
   * Every estimate fails when usage growing at the median slope reaches the limit; early at the third quartile of the
   * slopes, and late at the first, unless that is not growth, when late is 0.
   */
  lemma ForecastIsLast(points: seq<Point>)
    requires points != [] && EstimateOf(points).Some?
    ensures var (usage, e) := (points[|points| - 1].usage, EstimateOf(points).value);
            var slopes := PairSlopesOf(points);
            && Middle(slopes) > 0.0 && FailsAfter(usage, Middle(slopes), e.etf)
            && slopes[3 * |slopes| / 4] > 0.0 && FailsAfter(usage, slopes[3 * |slopes| / 4], e.early)
            && (if slopes[|slopes| / 4] > 0.0 then FailsAfter(usage, slopes[|slopes| / 4], e.late) else e.late == 0)
  {
    var (usage, slopes) := (points[|points| - 1].usage, PairSlopesOf(points));
    SortIsSorted(AllSlopes(points, |points|));
    QuartilesEnclose(slopes);
    RoomFails(usage, Middle(slopes));
    RoomFails(usage, slopes[3 * |slopes| / 4]);
    if slopes[|slopes| / 4] > 0.0 { RoomFails(usage, slopes[|slopes| / 4]); }
  }

  lemma ForecastBrackets(usage: real, slopes: seq<real>)
    requires Ascending(slopes) && Middle(slopes) > 0.0 && Agreement(slopes) >= MIN_AGREEING
    ensures var e := Forecast(usage, Middle(slopes), Agreement(slopes), SlopeBand(slopes));
            0 <= e.early <= e.etf && (SlopeBand(slopes).0 > 0.0 ==> e.etf <= e.late)
            && (e.late != 0 ==> e.etf <= e.late) && e.confidence <= 1.0
  {
    var (low, high) := SlopeBand(slopes);
    QuartilesEnclose(slopes);
    SlowerIsLater(Room(usage), Middle(slopes), high);
    if low > 0.0 { SlowerIsLater(Room(usage), low, Middle(slopes)); }
    PositiveIsChanging(slopes);
    ShareAtMostOne(Count(slopes, Positive()), Count(slopes, Changing()));
  }

  lemma {:induction false} PositiveIsChanging(s: seq<real>)
    ensures Count(s, Positive()) <= Count(s, Changing())
  {
    if s != [] { PositiveIsChanging(s[1..]); }
  }

  lemma ShareAtMostOne(a: nat, b: nat)
    ensures a <= b && b > 0 ==> a as real / b as real <= 1.0
  {
  }

  // ---- Linear growth ----

  /** Reading `k` came `d` nanoseconds after the one before it and is higher by `step`. */
  ghost predicate Rises(points: seq<Point>, k: int, d: int, step: real)
    requires 0 < k < |points|
  {
    points[k].at == points[k - 1].at + d && points[k].usage == points[k - 1].usage + step
  }

  /** Readings every `d` nanoseconds, rising by `step` each time. */
  ghost predicate Linear(points: seq<Point>, d: int, step: real) {
    d > 0 && forall k {:trigger Rises(points, k, d, step)} :: 0 < k < |points| ==> Rises(points, k, d, step)
  }

  lemma LinearSlice(points: seq<Point>, d: int, step: real, a: nat, b: nat)
    requires Linear(points, d, step) && a <= b <= |points|
    ensures Linear(points[a..b], d, step)
  {
    forall k | 0 < k < b - a ensures Rises(points[a..b], k, d, step) { assert Rises(points, a + k, d, step); }
  }

  ghost predicate AllEqual(s: seq<real>, x: real) {
    forall i :: 0 <= i < |s| ==> s[i] == x
  }

  lemma {:induction false} LinearBetween(points: seq<Point>, d: int, step: real, i: nat, j: nat)
    requires Linear(points, d, step) && i <= j < |points|
    ensures points[j].at == points[i].at + (j - i) * d && points[j].usage == points[i].usage + (j - i) as real * step
    decreases j
  {
    if i < j {
      LinearBetween(points, d, step, i, j - 1);
      assert Rises(points, j, d, step);
      assert (j - i) as real == (j - 1 - i) as real + 1.0;
    }
  }

  lemma SlopeOfLinear(n: int, d: int, step: real)
    requires n > 0 && d > 0
    ensures n * d > 0 && n as real * step / Seconds(n * d) == step / Seconds(d)
  {
    assert (n * d) as real == n as real * d as real;
    var (k, m) := (n as real, Seconds(d));
    assert Seconds(n * d) == k * m;
    assert k * step / (k * m) == step / m;
  }

  lemma LinearPair(points: seq<Point>, d: int, step: real, i: nat, j: nat)
    requires Linear(points, d, step) && i < j < |points|
    ensures points[i].at < points[j].at && Slope(points[i], points[j]) == step / Seconds(d)
  {
    LinearBetween(points, d, step, i, j);
    SlopeOfLinear(j - i, d, step);
  }

  lemma {:induction false} LinearSlopesFrom(points: seq<Point>, d: int, step: real, i: nat, j: nat)
    requires Linear(points, d, step) && i < j <= |points|
    ensures |SlopesFrom(points[i], points[i + 1..j])| == j - i - 1
    ensures AllEqual(SlopesFrom(points[i], points[i + 1..j]), step / Seconds(d))
  {
    if i + 1 < j {
      LinearSlopesFrom(points, d, step, i, j - 1);
      SlopesFromNext(points[i], points, i + 1, j - 1);
      LinearPair(points, d, step, i, j - 1);
    }
  }

  lemma WholeTail<T>(s: seq<T>, i: nat)
    requires i <= |s|
    ensures s[i..|s|] == s[i..]
  {
  }

  lemma {:induction false} LinearSlopes(points: seq<Point>, d: int, step: real, i: nat)
    requires Linear(points, d, step) && i <= |points|
    ensures AllEqual(AllSlopes(points, i), step / Seconds(d))
    ensures i >= 1 && |points| >= 2 ==> AllSlopes(points, i) != []
  {
    if i > 0 {
      LinearSlopes(points, d, step, i - 1);
      LinearSlopesFrom(points, d, step, i - 1, |points|);
      WholeTail(points, i);
    }
  }

  lemma SortedEqual(s: seq<real>, x: real)
    requires AllEqual(s, x)
    ensures AllEqual(Sort(s), x) && |Sort(s)| == |s|
  {
    SortIsSorted(s);
    forall i | 0 <= i < |Sort(s)| ensures Sort(s)[i] == x {
      assert Sort(s)[i] in multiset(Sort(s));
      assert Sort(s)[i] in s;
    }
  }

  lemma {:induction false} CountAll(s: seq<real>, p: real -> bool)
    requires forall i :: 0 <= i < |s| ==> p(s[i])
    ensures Count(s, p) == |s|
  {
    if s != [] { CountAll(s[1..], p); }
  }

  lemma LinearSlopesSorted(points: seq<Point>, d: int, step: real)
    requires Linear(points, d, step) && |points| >= 2
    ensures PairSlopesOf(points) != [] && AllEqual(PairSlopesOf(points), step / Seconds(d))
  {
    LinearSlopes(points, d, step, |points|);
    SortedEqual(AllSlopes(points, |points|), step / Seconds(d));
  }

  /** All pair slopes of linear growth are the same, so are their median and quartiles, and all pairs agree. */
  lemma LinearTrend(points: seq<Point>, d: int, step: real)
    requires Linear(points, d, step) && |points| >= 2 && step > 0.0
    ensures var x := step / Seconds(d); var slopes := PairSlopesOf(points);
            x > 0.0 && Middle(slopes) == x && SlopeBand(slopes) == (x, x) && Agreement(slopes) == 1.0
  {
    LinearSlopesSorted(points, d, step);
    EqualTrend(PairSlopesOf(points), step / Seconds(d));
  }

  lemma EqualTrend(slopes: seq<real>, x: real)
    requires AllEqual(slopes, x) && slopes != [] && x > 0.0
    ensures Middle(slopes) == x && SlopeBand(slopes) == (x, x) && Agreement(slopes) == 1.0
  {
    AllAgree(slopes);
    var n := |slopes|;
    assert n / 4 < n && 3 * n / 4 < n && n / 2 < n;
  }

  lemma AllAgree(slopes: seq<real>)
    requires slopes != [] && forall i :: 0 <= i < |slopes| ==> slopes[i] > 0.0
    ensures Agreement(slopes) == 1.0
  {
    CountAll(slopes, Positive());
    CountAll(slopes, Changing());
    assert |slopes| as real / |slopes| as real == 1.0;
  }

  lemma {:induction false} SumShift(s: seq<Point>, t: seq<Point>, c: real)
    requires |s| == |t| && forall i :: 0 <= i < |s| ==> t[i].usage == s[i].usage + c
    ensures Sum(t) == Sum(s) + |s| as real * c
  {
    if s != [] {
      var n := |s| - 1;
      SumShift(s[..n], t[..n], c);
      assert |s| as real == n as real + 1.0;
    }
  }

  lemma AverageShift(s: seq<Point>, t: seq<Point>, c: real)
    requires |s| == |t| && s != [] && forall i :: 0 <= i < |s| ==> t[i].usage == s[i].usage + c
    ensures AverageOf(t) == AverageOf(s) + c
  {
    SumShift(s, t, c);
    var m := |s| as real;
    assert (Sum(s) + m * c) / m == Sum(s) / m + c;
  }

  lemma LinearShift(half: seq<Point>, d: int, step: real, k: nat, c: real)
    requires Linear(half, d, step) && k <= |half| && c == k as real * step
    ensures forall i :: 0 <= i < |half| - k ==> half[k..][i].usage == half[i].usage + c
  {
    forall i | 0 <= i < |half| - k ensures half[k..][i].usage == half[i].usage + c {
      LinearBetween(half, d, step, i, i + k);
    }
  }

  /** Linear growth rises by a full step per sample between the edges. */
  lemma LinearRise(half: seq<Point>, d: int, step: real, k: nat)
    requires Linear(half, d, step) && half != [] && k == |half| - EdgeSize(|half|)
    ensures NetRise(half) == k as real * step
  {
    var c := k as real * step;
    LinearShift(half, d, step, k, c);
    AverageShift(half[..|half| - k], half[k..], c);
  }

  lemma EnoughRise(k: int, n: int, step: real)
    requires 5 * k >= n && step > 0.0
    ensures k as real * step >= n as real * step * MIN_HALF_RISE
  {
    assert (5.0 * k as real - n as real) * step >= 0.0;
  }

  lemma LinearSpan(points: seq<Point>, d: int, step: real)
    requires Linear(points, d, step) && points != []
    ensures points[|points| - 1].at - points[0].at == (|points| - 1) * d
  {
    LinearBetween(points, d, step, 0, |points| - 1);
  }

  lemma LinearRiseIsEnough(half: seq<Point>, d: int, step: real)
    requires Linear(half, d, step) && |half| >= 2 && step > 0.0
    ensures NetRise(half) >= (|half| - 1) as real * step * MIN_HALF_RISE
  {
    var k := |half| - EdgeSize(|half|);
    LinearRise(half, d, step, k);
    EnoughRise(k, |half| - 1, step);
  }

  lemma LinearExpectation(half: seq<Point>, d: int, step: real)
    requires Linear(half, d, step) && |half| >= 2
    ensures step / Seconds(d) * Seconds(half[|half| - 1].at - half[0].at) == (|half| - 1) as real * step
  {
    LinearSpan(half, d, step);
    ExpectedRise(|half| - 1, d, step);
  }

  lemma LinearHalfRises(half: seq<Point>, d: int, step: real)
    requires Linear(half, d, step) && |half| >= 2 && step > 0.0
    ensures HalfRises(half, step / Seconds(d))
  {
    LinearRiseIsEnough(half, d, step);
    LinearExpectation(half, d, step);
    RisesBy(half, step / Seconds(d), (|half| - 1) as real * step);
  }

  lemma RisesBy(half: seq<Point>, slope: real, expected: real)
    requires half != [] && NetRise(half) >= expected * MIN_HALF_RISE
    requires slope * Seconds(half[|half| - 1].at - half[0].at) == expected
    ensures HalfRises(half, slope)
  {
  }

  lemma ExpectedRise(n: int, d: int, step: real)
    requires n > 0 && d > 0
    ensures step / Seconds(d) * Seconds(n * d) == n as real * step
  {
    SlopeOfLinear(n, d, step);
    var (x, m) := (step / Seconds(d), Seconds(n * d));
    assert n as real * step / m * m == n as real * step;
  }

  /** The split by time falls just past the middle sample. */
  lemma {:induction false} LinearSearch(points: seq<Point>, d: int, step: real, i: nat, j: nat)
    requires Linear(points, d, step) && points != [] && i <= (|points| + 1) / 2 <= j <= |points|
    ensures SearchAfter(points, MidTime(points), i, j) == (|points| + 1) / 2
    decreases j - i
  {
    if i < j {
      var h := (i + j) / 2;
      LinearBetween(points, d, step, 0, h);
      LinearSpan(points, d, step);
      AfterMiddle(d, h, |points|);
      if points[h].at > MidTime(points) {
        LinearSearch(points, d, step, i, h);
      } else {
        LinearSearch(points, d, step, h + 1, j);
      }
    }
  }

  lemma ScaleOrder(a: int, b: int, d: int)
    requires a <= b && d > 0
    ensures a * d <= b * d
  {
    assert (b - a) * d >= 0;
  }

  lemma AfterMiddle(d: int, h: nat, n: nat)
    requires d > 0 && h < n
    ensures h * d > Half((n - 1) * d) <==> h >= (n + 1) / 2
  {
    var m := (n - 1) * d;
    ScaleOrder(0, n - 1, d);
    assert 2 * h * d == 2 * (h * d);
    if h >= (n + 1) / 2 {
      ScaleOrder(n, 2 * h, d);
      assert n * d == m + d;
    } else {
      ScaleOrder(2 * h, n - 1, d);
    }
  }

  lemma LinearSustained(points: seq<Point>, d: int, step: real)
    requires Linear(points, d, step) && |points| >= 4 && step > 0.0
    ensures Sustained(points, step / Seconds(d))
  {
    var split := (|points| + 1) / 2;
    LinearSearch(points, d, step, 0, |points|);
    LinearSlice(points, d, step, 0, split);
    LinearSlice(points, d, step, split, |points|);
    assert points[0..split] == points[..split] && points[split..|points|] == points[split..];
    LinearHalfRises(points[..split], d, step);
    LinearHalfRises(points[split..], d, step);
  }

  /**
   * Evenly spaced, exactly linear growth over a long enough window is always forecast, with full confidence and no
   * spread.
   */
  lemma LinearForecast(points: seq<Point>, d: int, step: real)
    requires Linear(points, d, step) && step > 0.0 && LongEnough(points)
    ensures step / Seconds(d) > 0.0
    ensures var usage := points[|points| - 1].usage; var etf := ToDuration(Room(usage) / (step / Seconds(d)));
            EstimateOf(points) == Some(Estimate(etf, etf, etf, 1.0, usage))
  {
    var x := step / Seconds(d);
    LinearTrend(points, d, step);
    LinearSustained(points, d, step);
    assert Trending(points, PairSlopesOf(points));
    SingleForecast(points[|points| - 1].usage, x);
  }

  /** And the forecast is the last nanosecond at which the line, continued from the last reading, has not passed 1. */
  lemma LinearFailure(points: seq<Point>, d: int, step: real)
    requires Linear(points, d, step) && step > 0.0 && LongEnough(points)
    ensures EstimateOf(points).Some? && IsLineForecast(EstimateOf(points).value, points[|points| - 1].usage, step, d)
  {
    LinearForecast(points, d, step);
    LineForecast(points[|points| - 1].usage, step, d);
  }

  ghost predicate IsLineForecast(e: Estimate, usage: real, step: real, d: int) {
    && d > 0 && e.early == e.late == e.etf && e.confidence == 1.0 && e.usage == usage && e.etf >= 0
    && if usage > 1.0 then e.etf == 0
       else usage + step * (e.etf as real / d as real) <= 1.0 < usage + step * ((e.etf + 1) as real / d as real)
  }

  lemma LineForecast(usage: real, step: real, d: int)
    requires d > 0 && step / Seconds(d) > 0.0
    ensures var etf := ToDuration(Room(usage) / (step / Seconds(d)));
            IsLineForecast(Estimate(etf, etf, etf, 1.0, usage), usage, step, d)
  {
    var x := step / Seconds(d);
    var etf := ToDuration(Room(usage) / x);
    RoomFails(usage, x);
    PerNanosecond(step, d, etf);
    PerNanosecond(step, d, etf + 1);
  }

  lemma PerNanosecond(step: real, d: int, t: int)
    requires d > 0
    ensures step / Seconds(d) * (t as real / 1_000_000_000.0) == step * (t as real / d as real)
  {
    var (n, x, y) := (1_000_000_000.0, d as real, t as real);
    assert step / (x / n) == step * n / x;
    assert step * n / x * (y / n) == step * (y / x);
  }

  lemma SingleForecast(usage: real, x: real)
    requires x > 0.0
    ensures var etf := ToDuration(Room(usage) / x);
            Forecast(usage, x, 1.0, (x, x)) == Estimate(etf, etf, etf, 1.0, usage)
  {
  }

  // ---- The window ----

  datatype Reading = Reading(at: int, usageBytes: real, limitBytes: real, restarts: int)

  /** The reading at which the restart count last grew, or the first. */
  function LastGrowth(hist: seq<Reading>): (g: nat)
    requires hist != []
    ensures g < |hist|
  {
    var n := |hist| - 1;
    if n == 0 || hist[n].restarts > hist[n - 1].restarts then n else LastGrowth(hist[..n])
  }

  /** The readings with a known limit, as points. */
  function Readable(hist: seq<Reading>): seq<Point> {
    if hist == [] then []
    else
      var (init, r) := (hist[..|hist| - 1], hist[|hist| - 1]);
      Readable(init) + if r.limitBytes > 0.0 then [Point(r.at, r.usageBytes / r.limitBytes)] else []
  }

  /** What may be used of a whole history: readings with a known limit since restarts last grew. */
  function Eligible(hist: seq<Reading>): seq<Point> {
    if hist == [] then [] else Readable(hist[LastGrowth(hist)..])
  }

  /** `w` is the part of `e` that is among the last samples and not older than the window. */
  ghost predicate IsWindow(e: seq<Point>, w: seq<Point>) {
    exists c: nat :: WindowStart(e, c) && w == e[c..]
  }

  ghost predicate WindowStart(e: seq<Point>, c: nat) {
    c <= |e| && forall i :: 0 <= i < |e| ==> (c <= i <==> |e| - MAX_SAMPLES <= i && e[|e| - 1].at - e[i].at <= WINDOW)
  }

  ghost predicate TimeOrdered(e: seq<Point>) {
    forall i, j :: 0 <= i <= j < |e| ==> e[i].at <= e[j].at
  }

  ghost predicate NonDecreasing(hist: seq<Reading>) {
    forall i, j :: 0 <= i <= j < |hist| ==> hist[i].at <= hist[j].at
  }

  /** On readings in time order, the search finds where the second half of the window begins. */
  lemma {:induction false} SearchFindsSplit(points: seq<Point>, mid: int, i: nat, j: nat)
    requires TimeOrdered(points) && i <= j <= |points|
    ensures forall k :: i <= k < SearchAfter(points, mid, i, j) ==> points[k].at <= mid
    ensures forall k :: SearchAfter(points, mid, i, j) <= k < j ==> points[k].at > mid
    decreases j - i
  {
    if i < j {
      var h := (i + j) / 2;
      if points[h].at > mid { SearchFindsSplit(points, mid, i, h); } else { SearchFindsSplit(points, mid, h + 1, j); }
    }
  }

  lemma OrderedAppend(e: seq<Point>, p: Point)
    requires TimeOrdered(e) && forall q :: q in e ==> q.at <= p.at
    ensures TimeOrdered(e + [p])
  {
  }

  lemma {:induction false} ReadableOrdered(hist: seq<Reading>)
    requires NonDecreasing(hist)
    ensures TimeOrdered(Readable(hist)) && forall p :: p in Readable(hist) ==> p.at <= hist[|hist| - 1].at
  {
    if hist != [] {
      var (init, r) := (hist[..|hist| - 1], hist[|hist| - 1]);
      ReadableOrdered(init);
      assert init != [] ==> init[|init| - 1].at <= r.at;
      OrderedAppend(Readable(init), Point(r.at, if r.limitBytes > 0.0 then r.usageBytes / r.limitBytes else 0.0));
    }
  }

  lemma EligibleNext(hist: seq<Reading>, r: Reading)
    ensures Eligible(hist + [r]) ==
            (if hist != [] && r.restarts > hist[|hist| - 1].restarts then [] else Eligible(hist))
            + if r.limitBytes > 0.0 then [Point(r.at, r.usageBytes / r.limitBytes)] else []
  {
    var all := hist + [r];
    var tail := all[LastGrowth(all)..];
    assert all[..|hist|] == hist;
    assert tail[|tail| - 1] == r;
    if hist == [] || r.restarts > hist[|hist| - 1].restarts {
      assert tail == [r] && tail[..0] == [];
      assert Readable([]) == [];
    } else {
      assert tail[..|tail| - 1] == hist[LastGrowth(hist)..];
    }
  }

  lemma WindowGrows(e: seq<Point>, c: nat, p: Point, c': nat)
    requires WindowStart(e, c) && TimeOrdered(e + [p]) && c <= c' <= |e|
    requires forall i :: c <= i < c' ==> p.at - e[i].at > WINDOW || i < |e| + 1 - MAX_SAMPLES
    requires p.at - (e + [p])[c'].at <= WINDOW && c' >= |e| + 1 - MAX_SAMPLES
    ensures WindowStart(e + [p], c')
  {
    var e' := e + [p];
    var n := |e|;
    forall i | 0 <= i < n + 1 ensures c' <= i <==> n + 1 - MAX_SAMPLES <= i && p.at - e'[i].at <= WINDOW {
      if c' <= i {
        assert e'[c'].at <= e'[i].at;
      } else if i < c {
        assert e'[i] == e[i] && e'[n - 1] == e[n - 1] && e'[n - 1].at <= e'[n].at;
      }
    }
  }

  /** The points from `cut` on are among the last samples and fresh; those before it are not. */
  ghost predicate CutsStale(pts: seq<Point>, at: int, cut: nat) {
    && cut < |pts| && |pts| - MAX_SAMPLES <= cut && at - pts[cut].at <= WINDOW
    && forall i :: 0 <= i < cut ==> at - pts[i].at > WINDOW || i < |pts| - MAX_SAMPLES
  }

  lemma TrimmedIsWindow(e: seq<Point>, w: seq<Point>, p: Point, cut: nat)
    requires IsWindow(e, w) && TimeOrdered(e + [p]) && CutsStale(w + [p], p.at, cut)
    ensures IsWindow(e + [p], (w + [p])[cut..])
  {
    var c: nat :| WindowStart(e, c) && w == e[c..];
    var (e', w') := (e + [p], w + [p]);
    assert w' == e'[c..];
    assert forall i :: 0 <= i < |w'| ==> w'[i] == e'[c + i];
    forall i | c <= i < c + cut ensures p.at - e[i].at > WINDOW || i < |e| + 1 - MAX_SAMPLES {
      assert w'[i - c] == e'[i] == e[i];
    }
    WindowGrows(e, c, p, c + cut);
    assert w'[cut..] == e'[c + cut..];
  }

  lemma WindowOrdered(e: seq<Point>, w: seq<Point>, p: Point)
    requires IsWindow(e, w) && TimeOrdered(e + [p])
    ensures TimeOrdered(w + [p])
  {
    var c: nat :| WindowStart(e, c) && w == e[c..];
    assert w + [p] == (e + [p])[c..];
  }

  lemma EligibleOrdered(hist: seq<Reading>)
    requires NonDecreasing(hist)
    ensures TimeOrdered(Eligible(hist))
  {
    if hist != [] { ReadableOrdered(hist[LastGrowth(hist)..]); }
  }

  lemma OneMoreReading(hist: seq<Reading>, r: Reading)
    requires NonDecreasing(hist) && (hist != [] ==> hist[|hist| - 1].at <= r.at)
    ensures NonDecreasing(hist + [r])
  {
  }

  lemma EmptyWindow()
    ensures IsWindow([], [])
  {
    var e: seq<Point> := [];
    assert WindowStart(e, 0) && e == e[0..];
  }

  method EstimateFor(usage: real, slope: real, agree: real, slopes: seq<real>) returns (e: Estimate)
    requires slope > 0.0
    ensures e == Forecast(usage, slope, agree, SlopeBand(slopes))
  {
    var remaining := 1.0 - usage;
    if remaining < 0.0 { remaining := 0.0; }
    var etf := ToDuration(remaining / slope);
    var (low, high) := SlopeBand(slopes);
    var (early, late) := FailureBand(remaining, low, high);
    e := Estimate(etf, early, late, agree, usage);
  }

  class Detector {
    var points: seq<Point>
    var restarts: int
    var seen: bool
    ghost var hist: seq<Reading>

    ghost predicate Valid()
      reads this
    {
      && NonDecreasing(hist) && seen == (hist != []) && (seen ==> restarts == hist[|hist| - 1].restarts)
      && IsWindow(Eligible(hist), points)
    }

    constructor ()
      ensures Valid() && hist == []
    {
      EmptyWindow();
      points, restarts, seen, hist := [], 0, false, [];
    }

    /** Keeps the window in step with the whole history and reads the estimate from it. */
    method Observe(at: int, usageBytes: real, limitBytes: real, count: int) returns (est: Option<Estimate>)
      requires Valid() && (hist != [] ==> hist[|hist| - 1].at <= at)
      modifies this
      ensures Valid() && hist == old(hist) + [Reading(at, usageBytes, limitBytes, count)]
      ensures limitBytes > 0.0 ==> points != []
      ensures est == if limitBytes <= 0.0 then None else EstimateOf(points)
    {
      Record(at, usageBytes, limitBytes, count);
      if limitBytes <= 0.0 { return None; }
      est := EstimateFrom(usageBytes / limitBytes);
    }

    method Record(at: int, usageBytes: real, limitBytes: real, count: int)
      requires Valid() && (hist != [] ==> hist[|hist| - 1].at <= at)
      modifies this
      ensures Valid() && hist == old(hist) + [Reading(at, usageBytes, limitBytes, count)]
      ensures limitBytes > 0.0 ==> points != [] && points[|points| - 1] == Point(at, usageBytes / limitBytes)
    {
      ghost var r := Reading(at, usageBytes, limitBytes, count);
      ghost var e := Eligible(hist);
      EligibleNext(hist, r);
      OneMoreReading(hist, r);
      EligibleOrdered(hist + [r]);
      if seen && count > restarts {
        points, e := [], [];
        EmptyWindow();
      }
      if limitBytes > 0.0 {
        ghost var p := Point(at, usageBytes / limitBytes);
        var pts := points + [Point(at, usageBytes / limitBytes)];
        WindowOrdered(e, points, p);
        var cut := CutAt(pts, at);
        TrimmedIsWindow(e, points, p, cut);
        points := pts[cut..];
      } else {
        assert e + [] == e;
      }
      restarts, seen := count, true;
      hist := hist + [r];
    }

    /** How many leading points are too old, or too many. */
    method CutAt(pts: seq<Point>, at: int) returns (cut: nat)
      requires pts != [] && TimeOrdered(pts) && pts[|pts| - 1].at == at
      ensures CutsStale(pts, at, cut)
    {
      cut := 0;
      while cut < |pts| - 1 && at - pts[cut].at > WINDOW
        invariant cut <= |pts| - 1
        invariant forall i :: 0 <= i < cut ==> at - pts[i].at > WINDOW
      {
        cut := cut + 1;
      }
      var over := |pts| - cut - MAX_SAMPLES;
      if over > 0 { cut := cut + over; }
    }

    method EstimateFrom(usage: real) returns (est: Option<Estimate>)
      requires points != [] && points[|points| - 1].usage == usage
      ensures est == EstimateOf(points)
    {
      var last := points[|points| - 1];
      if |points| < MIN_SAMPLES || last.at - points[0].at < MIN_SPAN { return None; }
      var slopes := PairSlopes(points);
      var slope, agree := TheilSen(slopes);
      if slope <= 0.0 || agree < MIN_AGREEING { return None; }
      var ok := CheckSustained(points, slope);
      if !ok { return None; }
      assert LongEnough(points) && Trending(points, slopes);
      var e := EstimateFor(usage, slope, agree, slopes);
      est := Some(e);
    }
  }
}
