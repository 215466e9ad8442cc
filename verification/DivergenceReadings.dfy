/** What a run of readings makes of a pod, its rate and its group. */
module DivergenceReadings {
  import opened Divergence
  import opened DivergenceRuns
  import opened Options
  import opened OrderStats
  import opened Rings
  import opened Saturation
  import opened SaturationTrends

  // ---- A pod's readings ----

  /** The event is a reading of the pod that names a version. */
  ghost predicate Reads(e: Event, pod: string) {
    e.Read? && e.pod == pod && e.version != ""
  }

  ghost predicate ReadsAt(events: seq<Event>, pod: string, k: nat) {
    k < |events| && Reads(events[k], pod)
  }

  /** `k` is the pod's last reading before event `r`. */
  ghost predicate IsBefore(events: seq<Event>, pod: string, k: nat, r: nat) {
    && k < r && ReadsAt(events, pod, k)
    && forall j: nat {:trigger ReadsAt(events, pod, j)} :: k < j < r ==> !ReadsAt(events, pod, j)
  }

  /** The pod's first reading under its version: every later one has that version, and the one before it has another. */
  ghost predicate StartsAt(events: seq<Event>, pod: string, r: nat) {
    && ReadsAt(events, pod, r)
    && (forall k: nat {:trigger ReadsAt(events, pod, k)} ::
          r < k && ReadsAt(events, pod, k) ==> events[k].version == events[r].version)
    && forall k: nat {:trigger IsBefore(events, pod, k, r)} ::
         IsBefore(events, pod, k, r) ==> events[k].version != events[r].version
  }

  lemma ReadsNext(init: seq<Event>, e: Event, pod: string)
    ensures forall k: nat {:trigger ReadsAt(init + [e], pod, k)} {:trigger ReadsAt(init, pod, k)} ::
              ReadsAt(init + [e], pod, k) <==> ReadsAt(init, pod, k) || (k == |init| && Reads(e, pod))
  {
    assert forall k :: 0 <= k < |init| ==> (init + [e])[k] == init[k];
  }

  lemma BeforeNext(init: seq<Event>, e: Event, pod: string, k: nat, r: nat)
    requires r <= |init|
    ensures IsBefore(init + [e], pod, k, r) <==> IsBefore(init, pod, k, r)
  {
    ReadsNext(init, e, pod);
  }

  lemma StartsNext(init: seq<Event>, e: Event, pod: string, r: nat)
    requires StartsAt(init, pod, r) && (Reads(e, pod) ==> e.version == init[r].version)
    ensures StartsAt(init + [e], pod, r)
  {
    ReadsNext(init, e, pod);
    forall k: nat | IsBefore(init + [e], pod, k, r) ensures init[k].version != init[r].version {
      BeforeNext(init, e, pod, k, r);
    }
  }

  lemma StartsHere(init: seq<Event>, e: Event, pod: string)
    requires Reads(e, pod)
    requires forall k: nat :: IsBefore(init, pod, k, |init|) ==> init[k].version != e.version
    ensures StartsAt(init + [e], pod, |init|)
  {
    ReadsNext(init, e, pod);
    forall k: nat | IsBefore(init + [e], pod, k, |init|) ensures init[k].version != e.version {
      BeforeNext(init, e, pod, k, |init|);
    }
  }

  /** The readings of a pod, as points. */
  ghost function PointsOf(events: seq<Event>, pod: string): seq<Point> {
    if events == [] then []
    else
      var (init, e) := (events[..|events| - 1], events[|events| - 1]);
      PointsOf(init, pod) + if Reads(e, pod) then [Point(e.at, e.usage)] else []
  }

  /** The pod's last reading. */
  ghost predicate IsLatest(events: seq<Event>, pod: string, l: nat) {
    && ReadsAt(events, pod, l)
    && forall k: nat {:trigger ReadsAt(events, pod, k)} :: l < k ==> !ReadsAt(events, pod, k)
  }

  /** What the readings say of a pod. */
  ghost predicate Describes(events: seq<Event>, pod: string, p: Pod, r: nat, l: nat) {
    && StartsAt(events, pod, r) && IsLatest(events, pod, l)
    && p.version == events[r].version && p.first == events[r].at && p.capacity == events[l].capacity
    && p.samples == Last(PointsOf(events[r..], pod), 240) && p.samples != [] && p.divergentSince == None
  }

  ghost predicate IsDescribed(events: seq<Event>, pod: string, p: Pod) {
    exists r, l :: Describes(events, pod, p, r, l)
  }

  lemma PointsNext(init: seq<Event>, e: Event, pod: string, r: nat)
    requires r <= |init|
    ensures PointsOf((init + [e])[r..], pod) ==
            PointsOf(init[r..], pod) + if Reads(e, pod) then [Point(e.at, e.usage)] else []
  {
    var tail := (init + [e])[r..];
    assert tail == init[r..] + [e];
    assert tail[..|tail| - 1] == init[r..];
  }

  lemma LastAgain(s: seq<Point>, x: Point)
    ensures Last(Last(s, 240) + [x], 240) == Last(s + [x], 240)
  {
  }

  lemma DescribesNext(init: seq<Event>, e: Event, pod: string, p: Pod, r: nat, l: nat)
    requires Describes(init, pod, p, r, l) && !Reads(e, pod)
    ensures Describes(init + [e], pod, p, r, l)
  {
    StartsNext(init, e, pod, r);
    ReadsNext(init, e, pod);
    PointsNext(init, e, pod, r);
  }

  lemma DescribesMore(init: seq<Event>, e: Event, pod: string, p: Pod, r: nat, l: nat)
    requires Describes(init, pod, p, r, l) && Reads(e, pod) && e.version == p.version
    ensures var samples := Last(p.samples + [Point(e.at, e.usage)], 240);
            Describes(init + [e], pod, p.(samples := samples, capacity := e.capacity), r, |init|)
  {
    StartsNext(init, e, pod, r);
    ReadsNext(init, e, pod);
    PointsNext(init, e, pod, r);
    LastAgain(PointsOf(init[r..], pod), Point(e.at, e.usage));
  }

  /** The first reading, or one of another version than the reading before it. */
  lemma DescribesFirst(init: seq<Event>, e: Event, pod: string, p: Pod)
    requires Reads(e, pod) && p == Pod(e.version, e.at, [Point(e.at, e.usage)], e.capacity, None)
    requires forall k: nat :: IsBefore(init, pod, k, |init|) ==> init[k].version != e.version
    ensures Describes(init + [e], pod, p, |init|, |init|)
  {
    StartsHere(init, e, pod);
    ReadsNext(init, e, pod);
    assert init[|init|..] == [];
    PointsNext(init, e, pod, |init|);
  }

  lemma VersionBefore(init: seq<Event>, pod: string, p: Pod, k: nat)
    requires IsDescribed(init, pod, p) && IsBefore(init, pod, k, |init|)
    ensures init[k].version == p.version
  {
    var r, l :| Describes(init, pod, p, r, l);
    assert ReadsAt(init, pod, r) && ReadsAt(init, pod, l);
  }

  ghost predicate IsRead(events: seq<Event>, pod: string) {
    exists k: nat :: ReadsAt(events, pod, k)
  }

  /** A pod is known exactly when it was read, and then by its readings since it last changed version. */
  lemma {:induction false} KnownMeans(events: seq<Event>, pod: string)
    ensures pod in Known(events) <==> IsRead(events, pod)
    ensures pod in Known(events) ==> IsDescribed(events, pod, Known(events)[pod])
  {
    if events != [] {
      var n := |events| - 1;
      var (init, e) := (events[..n], events[n]);
      KnownMeans(init, pod);
      assert init + [e] == events;
      ReadNext(init, e, pod);
      if !Reads(e, pod) {
        OthersRead(init, e, pod, Known(init), Known(events));
      } else {
        PodRead(init, e, pod, Known(init));
      }
    }
  }

  lemma ReadNext(init: seq<Event>, e: Event, pod: string)
    ensures IsRead(init + [e], pod) <==> IsRead(init, pod) || Reads(e, pod)
  {
    ReadsNext(init, e, pod);
    if Reads(e, pod) { assert ReadsAt(init + [e], pod, |init|); }
    if k: nat :| ReadsAt(init, pod, k) { assert ReadsAt(init + [e], pod, k); }
  }

  lemma OthersRead(init: seq<Event>, e: Event, pod: string, known: Pods, after: Pods)
    requires !Reads(e, pod) && after == if e.Read? then Step(known, e) else known
    requires pod in known ==> IsDescribed(init, pod, known[pod])
    ensures pod in after <==> pod in known
    ensures pod in after ==> IsDescribed(init + [e], pod, after[pod])
  {
    if e.Read? { StepKeeps(known, e, pod); }
    if pod in known { StaysDescribed(init, e, pod, known[pod]); }
  }

  lemma StepKeeps(known: Pods, e: Event, pod: string)
    requires !Reads(e, pod) && e.Read?
    ensures pod in Step(known, e) <==> pod in known
    ensures pod in known ==> Step(known, e)[pod] == known[pod]
  {
  }

  lemma StaysDescribed(init: seq<Event>, e: Event, pod: string, p: Pod)
    requires !Reads(e, pod) && IsDescribed(init, pod, p)
    ensures IsDescribed(init + [e], pod, p)
  {
    var r, l :| Describes(init, pod, p, r, l);
    DescribesNext(init, e, pod, p, r, l);
  }

  lemma PodRead(init: seq<Event>, e: Event, pod: string, known: Pods)
    requires Reads(e, pod) && (pod in known <==> IsRead(init, pod))
    requires pod in known ==> IsDescribed(init, pod, known[pod])
    ensures pod in Step(known, e) && IsDescribed(init + [e], pod, Step(known, e)[pod])
  {
    if pod in known && known[pod].version == e.version {
      ReadAgain(init, e, pod, known);
    } else {
      forall k: nat | IsBefore(init, pod, k, |init|) ensures init[k].version != e.version {
        assert ReadsAt(init, pod, k);
        VersionBefore(init, pod, known[pod], k);
      }
      DescribesFirst(init, e, pod, Step(known, e)[pod]);
    }
  }

  lemma ReadAgain(init: seq<Event>, e: Event, pod: string, known: Pods)
    requires Reads(e, pod) && pod in known && known[pod].version == e.version && IsDescribed(init, pod, known[pod])
    ensures pod in Step(known, e) && IsDescribed(init + [e], pod, Step(known, e)[pod])
  {
    var r, l :| Describes(init, pod, known[pod], r, l);
    DescribesMore(init, e, pod, known[pod], r, l);
  }

  lemma {:induction false} LatestBefore(events: seq<Event>, pod: string, a: nat, b: nat) returns (k: nat)
    requires a < b && ReadsAt(events, pod, a)
    ensures a <= k && IsBefore(events, pod, k, b)
  {
    if ReadsAt(events, pod, b - 1) { k := b - 1; } else { k := LatestBefore(events, pod, a, b - 1); }
  }

  lemma StartsOnce(events: seq<Event>, pod: string, a: nat, b: nat)
    requires StartsAt(events, pod, a) && StartsAt(events, pod, b)
    ensures a <= b
  {
    if b < a {
      var k := LatestBefore(events, pod, b, a);
      assert false;
    }
  }

  lemma LatestOnce(events: seq<Event>, pod: string, a: nat, b: nat)
    requires IsLatest(events, pod, a) && IsLatest(events, pod, b)
    ensures a == b
  {
    assert ReadsAt(events, pod, a) && ReadsAt(events, pod, b);
  }

  lemma DescribesOnce(events: seq<Event>, pod: string, p: Pod, r: nat, l: nat)
    requires IsDescribed(events, pod, p) && StartsAt(events, pod, r) && IsLatest(events, pod, l)
    ensures Describes(events, pod, p, r, l)
  {
    var r0, l0 :| Describes(events, pod, p, r0, l0);
    StartsOnce(events, pod, r, r0);
    StartsOnce(events, pod, r0, r);
    LatestOnce(events, pod, l, l0);
  }

  // ---- Who is compared with whom ----

  /** The pod was first read under this version at least six minutes ago, and last with a known capacity. */
  ghost predicate Compared(events: seq<Event>, pod: string, version: string, now: int) {
    exists r: nat, l: nat :: IsCompared(events, pod, version, now, r, l)
  }

  ghost predicate IsCompared(events: seq<Event>, pod: string, version: string, now: int, r: nat, l: nat) {
    && StartsAt(events, pod, r) && IsLatest(events, pod, l)
    && events[r].version == version && now - events[r].at >= 360_000_000_000 && events[l].capacity > 0.0
  }

  ghost function Peers(events: seq<Event>, version: string, now: int): set<string> {
    set n | n in Known(events) && Compared(events, n, version, now)
  }

  lemma ComparedMeans(events: seq<Event>, pod: string, version: string, now: int)
    ensures Compared(events, pod, version, now) <==>
            var known := Known(events);
            pod in known && Comparable(known[pod], now) && known[pod].version == version
  {
    KnownMeans(events, pod);
    var known := Known(events);
    if Compared(events, pod, version, now) {
      var r: nat, l: nat :| IsCompared(events, pod, version, now, r, l);
      assert Reads(events[r], pod);
      DescribesOnce(events, pod, known[pod], r, l);
    }
    if pod in known {
      var r, l :| Describes(events, pod, known[pod], r, l);
      assert IsCompared(events, pod, version, now, r, l)
             <==> Comparable(known[pod], now) && known[pod].version == version;
    }
  }

  /** A call judges a pod exactly when at least three pods of its version, itself among them, can be compared. */
  lemma JudgedMeans(events: seq<Event>, pod: string, now: int)
    ensures Judged(Known(events), pod, now) <==>
            exists version :: pod in Peers(events, version, now) && |Peers(events, version, now)| >= 3
  {
    var known := Known(events);
    forall version ensures Peers(events, version, now) == Group(known, version, now) {
      forall n ensures n in Peers(events, version, now) <==> n in Group(known, version, now) {
        ComparedMeans(events, n, version, now);
      }
    }
    if pod in known {
      assert pod in Group(known, known[pod].version, now) <==> Comparable(known[pod], now);
      assert pod in Peers(events, known[pod].version, now) <==> Comparable(known[pod], now);
    }
  }

  // ---- How fast a pod grows ----

  ghost predicate Positions(idx: seq<nat>, n: nat) {
    && (forall k :: 0 <= k < |idx| ==> idx[k] < n)
    && forall j, k :: 0 <= j < k < |idx| ==> idx[j] < idx[k]
  }

  /** `idx` lists the positions of the samples that are not older than `from`, in order. */
  ghost predicate Lists(samples: seq<Point>, from: int, idx: seq<nat>) {
    && Positions(idx, |samples|)
    && forall i: nat {:trigger samples[i]} :: i < |samples| ==> (samples[i].at >= from <==> i in idx)
  }

  ghost function Picked(samples: seq<Point>, idx: seq<nat>): seq<Point>
    requires forall k :: 0 <= k < |idx| ==> idx[k] < |samples|
  {
    seq(|idx|, k requires 0 <= k < |idx| => samples[idx[k]])
  }

  lemma {:induction false} RecentLists(samples: seq<Point>, from: int) returns (idx: seq<nat>)
    ensures Lists(samples, from, idx) && Recent(samples, from) == Picked(samples, idx)
  {
    idx := [];
    if samples != [] {
      var (init, p) := (samples[..|samples| - 1], samples[|samples| - 1]);
      idx := RecentLists(init, from);
      assert init + [p] == samples;
      ListsNext(init, p, from, idx);
      if p.at >= from { idx := idx + [|init|]; }
    }
  }

  lemma ListsNext(init: seq<Point>, p: Point, from: int, before: seq<nat>)
    requires Lists(init, from, before)
    ensures var (samples, idx) := (init + [p], before + if p.at >= from then [|init|] else []);
            Lists(samples, from, idx) && Picked(samples, idx) == Picked(init, before) + if p.at < from then [] else [p]
  {
    var (samples, idx) := (init + [p], before + if p.at >= from then [|init|] else []);
    assert Positions(idx, |samples|);
    assert forall i :: 0 <= i < |init| ==> samples[i] == init[i] && (i in idx <==> i in before);
  }

  ghost function Always(): real -> bool {
    x => true
  }

  /** Of the slopes of all pairs, at most `k` are below `x`, and more than `k` are not above it. */
  ghost predicate IsRank(pts: seq<Point>, x: real, k: nat) {
    |PairsWhere(pts, Below(x))| <= k < |PairsWhere(pts, UpTo(x))|
  }

  lemma SlopeRank(pts: seq<Point>, k: nat)
    requires k < |PairSlopesOf(pts)|
    ensures IsRank(pts, PairSlopesOf(pts)[k], k)
  {
    var x := PairSlopesOf(pts)[k];
    SlopesArePairs(pts, Below(x));
    SlopesArePairs(pts, UpTo(x));
    RankOf(PairSlopesOf(pts), k);
  }

  lemma PairCount(pts: seq<Point>)
    ensures |PairSlopesOf(pts)| == |PairsWhere(pts, Always())|
  {
    SlopesArePairs(pts, Always());
    CountAll(PairSlopesOf(pts), Always());
  }

  /** The rate of these samples, and its quartiles, by their ranks among the slopes of all pairs. */
  ghost predicate IsRate(pts: seq<Point>, r: Option<Rate>) {
    var n := |PairsWhere(pts, Always())|;
    match r
    case None => |pts| < 5 || n == 0
    case Some(r) =>
      |pts| >= 5 && IsRank(pts, r.median, n / 2) && IsRank(pts, r.low, n / 4) && IsRank(pts, r.high, 3 * n / 4)
  }

  /** A pod's rate is read from its samples since `from`: none without five of them, or two of different times. */
  lemma RateMeans(samples: seq<Point>, from: int)
    ensures exists idx :: Lists(samples, from, idx) && IsRate(Picked(samples, idx), RateBand(samples, from))
  {
    var idx := RecentLists(samples, from);
    var pts := Picked(samples, idx);
    PairCount(pts);
    var n := |PairSlopesOf(pts)|;
    if n > 0 {
      SlopeRank(pts, n / 2);
      SlopeRank(pts, n / 4);
      SlopeRank(pts, 3 * n / 4);
    }
  }

  // ---- Standing out ----

  /** The rate of a pod over the last five minutes. */
  ghost function RateAt(pods: Pods, n: string, now: int): Option<Rate>
    requires n in pods
  {
    RateBand(pods[n].samples, now - 300_000_000_000)
  }

  /** The pods of its version that can be compared and are rated. */
  ghost function Rated(pods: Pods, name: string, now: int): set<string>
    requires name in pods
  {
    set n | n in Group(pods, pods[name].version, now) && RateAt(pods, n, now).Some?
  }

  /** Those, but for the pod itself, that grow less than a third as fast. */
  ghost function Behind(pods: Pods, name: string, now: int): set<string>
    requires name in pods && RateAt(pods, name, now).Some?
  {
    set n | n in Rated(pods, name, now) && n != name
            && 3.0 * RateAt(pods, n, now).value.median < RateAt(pods, name, now).value.median
  }

  /**
   * A pod that can be compared stands out exactly when at least three pods of its group are rated, it grows by more
   * than 0.75 MiB a minute, more than half of the others grow less than a third as fast, and it has room left.
   */
  lemma StandsOutMeans(pods: Pods, name: string, now: int)
    requires name in pods && Comparable(pods[name], now)
    ensures StandsOutIn(pods, name, now) <==>
            && RateAt(pods, name, now).Some? && |Rated(pods, name, now)| >= 3
            && RateAt(pods, name, now).value.median > 0.75 * 1048576.0 / 60.0
            && 2 * |Behind(pods, name, now)| > |Rated(pods, name, now)| - 1
            && pods[name].samples[|pods[name].samples| - 1].usage < pods[name].capacity
  {
    var rates := GroupRates(pods, Group(pods, pods[name].version, now), now);
    assert rates.Keys == Rated(pods, name, now);
    assert |rates| == |rates.Keys|;
    if name in rates {
      OutgrowsMeans(rates, name);
      assert Slower(rates, name) == Behind(pods, name, now);
    }
  }
}
