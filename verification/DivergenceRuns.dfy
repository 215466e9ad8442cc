/** When a pod is reported, over whole runs of readings and calls. */
module DivergenceRuns {
  import opened Divergence
  import opened Options
  import opened OrderStats
  import opened Saturation

  /** The pods as the readings alone leave them. */
  ghost function Known(events: seq<Event>): Pods {
    if events == [] then map[] else
      var (before, e) := (Known(events[..|events| - 1]), events[|events| - 1]);
      if e.Read? then Step(before, e) else before
  }

  // ---- A pod over a run ----

  ghost predicate JudgedBy(known: Pods, e: Event, pod: string) {
    e.Called? && Judged(known, pod, e.now)
  }

  /** In this call the pod outgrew its siblings and had room left. */
  ghost predicate StandsBy(known: Pods, e: Event, pod: string) {
    JudgedBy(known, e, pod) && StandsOutIn(known, pod, e.now)
  }

  /** With this event the pod was first read under its version. */
  ghost predicate RestartsBy(known: Pods, e: Event, pod: string) {
    e.Read? && e.pod == pod && e.version != "" && !(pod in known && known[pod].version == e.version)
  }

  ghost predicate BreaksBy(known: Pods, e: Event, pod: string) {
    RestartsBy(known, e, pod) || (JudgedBy(known, e, pod) && !StandsBy(known, e, pod))
  }

  /** The events with a property that depends on what was known before. */
  ghost function At(events: seq<Event>, test: (Pods, Event) -> bool): nat -> bool {
    (i: nat) => i < |events| && test(Known(events[..i]), events[i])
  }

  ghost function StandsTest(pod: string): (Pods, Event) -> bool {
    (known, e) => StandsBy(known, e, pod)
  }

  ghost function BreaksTest(pod: string): (Pods, Event) -> bool {
    (known, e) => BreaksBy(known, e, pod)
  }

  /** The calls in which the pod stood out. */
  ghost function Stands(events: seq<Event>, pod: string): nat -> bool {
    At(events, StandsTest(pod))
  }

  /** The events that end its standing out. */
  ghost function Breaking(events: seq<Event>, pod: string): nat -> bool {
    At(events, BreaksTest(pod))
  }

  lemma AtNext(init: seq<Event>, e: Event, test: (Pods, Event) -> bool)
    ensures forall k: nat :: k < |init| ==> At(init + [e], test)(k) == At(init, test)(k)
    ensures At(init + [e], test)(|init|) == test(Known(init), e)
  {
    var events := init + [e];
    forall k: nat | k <= |init| ensures events[..k] == init[..k] {}
    assert init[..|init|] == init;
  }

  /** It stood at `i`, and nothing from there to `n` broke it. */
  ghost predicate Since(n: nat, stands: nat -> bool, breaks: nat -> bool, i: nat) {
    i < n && stands(i) && forall k: nat :: i < k < n ==> !breaks(k)
  }

  /** And not from any earlier on. */
  ghost predicate Began(n: nat, stands: nat -> bool, breaks: nat -> bool, i: nat) {
    Since(n, stands, breaks, i) && forall j: nat :: j < i ==> !Since(n, stands, breaks, j)
  }

  /** A mark is the time at which the unbroken stretch that reaches `n` began; without one there is no mark. */
  ghost predicate Tells(n: nat, stands: nat -> bool, breaks: nat -> bool, time: nat -> int, mark: Option<int>) {
    match mark
    case None => forall i: nat :: !Since(n, stands, breaks, i)
    case Some(t) => exists i: nat :: Began(n, stands, breaks, i) && time(i) == t
  }

  ghost function Time(events: seq<Event>): nat -> int {
    (i: nat) => if i < |events| && events[i].Called? then events[i].now else 0
  }

  /** The pod stood out at call `i` and in every call since that judged it, and did not start over. */
  ghost predicate StandsSince(events: seq<Event>, i: nat, pod: string) {
    Since(|events|, Stands(events, pod), Breaking(events, pod), i)
  }

  ghost predicate CallsInOrder(events: seq<Event>) {
    forall i, j :: 0 <= i < j < |events| && events[i].Called? && events[j].Called? ==> events[i].now <= events[j].now
  }

  // ---- The marks ----

  /** The same pods, but for their marks. */
  ghost predicate Alike(a: Pods, b: Pods) {
    a.Keys == b.Keys && forall n :: n in a ==> a[n].(divergentSince := None) == b[n].(divergentSince := None)
  }

  lemma AlikeJudged(a: Pods, b: Pods, pod: string, now: int)
    requires Alike(a, b)
    ensures Judged(a, pod, now) <==> Judged(b, pod, now)
    ensures pod in a ==> (StandsOutIn(a, pod, now) <==> StandsOutIn(b, pod, now))
  {
    if pod in a {
      var version := a[pod].version;
      assert a[pod].(divergentSince := None) == b[pod].(divergentSince := None);
      assert Group(a, version, now) == Group(b, version, now);
      assert GroupRates(a, Group(a, version, now), now) == GroupRates(b, Group(b, version, now), now);
    }
  }

  lemma {:induction false} KnownIsAlike(events: seq<Event>)
    ensures Alike(After(events), Known(events))
  {
    if events != [] { KnownIsAlike(events[..|events| - 1]); }
  }

  lemma SinceNext(n: nat, stands: nat -> bool, breaks: nat -> bool, stands0: nat -> bool, breaks0: nat -> bool, i: nat)
    requires i < n && forall k: nat :: k < n ==> stands(k) == stands0(k) && breaks(k) == breaks0(k)
    ensures Since(n + 1, stands, breaks, i) <==> Since(n, stands0, breaks0, i) && !breaks(n)
  {
    if Since(n + 1, stands, breaks, i) { assert !breaks(n); }
  }

  /** How the mark changes with one more event. */
  lemma TellsNext(n: nat, stands: nat -> bool, breaks: nat -> bool, time: nat -> int,
                  stands0: nat -> bool, breaks0: nat -> bool, time0: nat -> int, before: Option<int>)
    requires forall k: nat :: k < n ==> stands(k) == stands0(k) && breaks(k) == breaks0(k) && time(k) == time0(k)
    requires breaks(n) || Tells(n, stands0, breaks0, time0, before)
    requires stands(n) ==> !breaks(n)
    ensures Tells(n + 1, stands, breaks, time,
                  if breaks(n) then None else if stands(n) && before.None? then Some(time(n)) else before)
  {
    forall i: nat {:trigger Since(n + 1, stands, breaks, i)} | i < n
      ensures Since(n + 1, stands, breaks, i) <==> Since(n, stands0, breaks0, i) && !breaks(n)
    {
      SinceNext(n, stands, breaks, stands0, breaks0, i);
    }
    if !breaks(n) && stands(n) && before.None? {
      assert Began(n + 1, stands, breaks, n);
    } else if !breaks(n) && before.Some? {
      var i: nat :| Began(n, stands0, breaks0, i) && time0(i) == before.value;
      SinceNext(n, stands, breaks, stands0, breaks0, i);
      assert Began(n + 1, stands, breaks, i);
    }
  }

  ghost predicate MarkTells(events: seq<Event>, pod: string, mark: Option<int>) {
    Tells(|events|, Stands(events, pod), Breaking(events, pod), Time(events), mark)
  }

  lemma MarkNext(init: seq<Event>, e: Event, stands: (Pods, Event) -> bool, breaks: (Pods, Event) -> bool,
                 before: Option<int>)
    requires breaks(Known(init), e) || Tells(|init|, At(init, stands), At(init, breaks), Time(init), before)
    requires stands(Known(init), e) ==> !breaks(Known(init), e)
    ensures Tells(|init| + 1, At(init + [e], stands), At(init + [e], breaks), Time(init + [e]),
                  NextMark(stands(Known(init), e), breaks(Known(init), e), e, before))
  {
    var events := init + [e];
    AtNext(init, e, stands);
    AtNext(init, e, breaks);
    TimeNext(init, e);
    TellsNext(|init|, At(events, stands), At(events, breaks), Time(events), At(init, stands), At(init, breaks),
              Time(init), before);
  }

  lemma TimeNext(init: seq<Event>, e: Event)
    ensures forall k: nat :: k < |init| ==> Time(init + [e])(k) == Time(init)(k)
    ensures Time(init + [e])(|init|) == if e.Called? then e.now else 0
  {
  }

  /** The mark after an event, given whether the pod stood out in it and whether it ended that. */
  function NextMark(stands: bool, breaks: bool, e: Event, before: Option<int>): Option<int> {
    if breaks then None else if stands && before.None? then Some(if e.Called? then e.now else 0) else before
  }

  ghost function MarkIn(pods: Pods, pod: string): Option<int> {
    if pod in pods then pods[pod].divergentSince else None
  }

  /** The mark of a pod is the time of the call that began the stretch in which it has stood out ever since. */
  lemma {:induction false} MarkMeans(events: seq<Event>, pod: string)
    requires pod in After(events)
    ensures MarkTells(events, pod, MarkIn(After(events), pod))
  {
    var n := |events| - 1;
    var (init, e) := (events[..n], events[n]);
    assert init + [e] == events;
    LastMark(init, e, pod);
    if !BreaksTest(pod)(Known(init), e) { MarkMeans(init, pod); }
    MarkNext(init, e, StandsTest(pod), BreaksTest(pod), MarkIn(After(init), pod));
  }

  lemma LastMark(init: seq<Event>, e: Event, pod: string)
    requires pod in Step(After(init), e)
    ensures pod in After(init) || BreaksTest(pod)(Known(init), e)
    ensures StandsTest(pod)(Known(init), e) ==> !BreaksTest(pod)(Known(init), e)
    ensures MarkIn(Step(After(init), e), pod) ==
            NextMark(StandsTest(pod)(Known(init), e), BreaksTest(pod)(Known(init), e), e, MarkIn(After(init), pod))
  {
    KnownIsAlike(init);
    if e.Called? {
      CallMarks(After(init), Known(init), pod, e.now);
    } else {
      ReadingMarks(After(init), Known(init), e, pod);
    }
  }

  lemma CallMarks(pods: Pods, known: Pods, pod: string, now: int)
    requires Alike(pods, known) && pod in pods
    ensures Marked(pods, now)[pod].divergentSince ==
            if !Judged(known, pod, now) then pods[pod].divergentSince
            else if !StandsOutIn(known, pod, now) then None
            else if pods[pod].divergentSince.None? then Some(now) else pods[pod].divergentSince
  {
    AlikeJudged(pods, known, pod, now);
  }

  lemma ReadingMarks(pods: Pods, known: Pods, e: Event, pod: string)
    requires Alike(pods, known) && e.Read? && pod in Step(pods, e)
    ensures var starts := e.pod == pod && e.version != "" && !(pod in known && known[pod].version == e.version);
            && (!starts ==> pod in pods)
            && Step(pods, e)[pod].divergentSince == if starts then None else pods[pod].divergentSince
  {
    if pod in pods { assert pods[pod].(divergentSince := None) == known[pod].(divergentSince := None); }
  }

  // ---- The reports ----

  /** Growing at the rate of its last five minutes, the pod's last usage passes its capacity within two hours. */
  ghost predicate FailsSoon(pods: Pods, pod: string, now: int) {
    && pod in pods && pods[pod].samples != []
    && var (p, band) := (pods[pod], RateBand(pods[pod].samples, now - 300_000_000_000));
       band.Some? && p.samples[|p.samples| - 1].usage + band.value.median * 7200.000000001 > p.capacity
  }

  /** A call has a report about the pod. */
  ghost predicate ReportedAt(events: seq<Event>, pod: string, now: int) {
    pod in After(events) && VerdictOf(After(events), pod, now).report.Some?
  }

  lemma HorizonMeans(room: real, rate: real)
    requires room >= 0.0 && rate > 0.0
    ensures ToDuration(room / rate) <= HORIZON <==> rate * 7200.000000001 > room
  {
    var d := ToDuration(room / rate);
    LastNanosecond(room, rate);
    if d <= HORIZON {
      Further(rate, (d + 1) as real / 1_000_000_000.0, 7200.000000001);
    } else {
      Further(rate, 7200.000000001, d as real / 1_000_000_000.0);
    }
  }

  lemma Further(rate: real, a: real, b: real)
    requires rate > 0.0 && a <= b
    ensures rate * a <= rate * b
  {
    assert rate * (b - a) >= 0.0;
  }

  lemma ReportMeans(p: Pod, name: string, rates: Rates, now: int)
    requires p.samples != [] && p.capacity > 0.0 && StandsOut(p, name, rates)
    ensures var v := VerdictIn(p, name, rates, now);
            && v.since.Some?
            && (v.report.Some? <==>
                  && now - v.since.value >= 300_000_000_000
                  && p.samples[|p.samples| - 1].usage + rates[name].median * 7200.000000001 > p.capacity)
  {
    HorizonMeans(p.capacity - p.samples[|p.samples| - 1].usage, rates[name].median);
  }

  /** The verdict of a call that finds the pod standing out. */
  lemma VerdictMeans(pods: Pods, pod: string, now: int)
    requires pod in pods
    ensures var (v, stands) := (VerdictOf(pods, pod, now), Judged(pods, pod, now) && StandsOutIn(pods, pod, now));
            && (v.report.Some? ==> stands)
            && (stands ==> v.since.Some?)
            && (stands ==> (v.report.Some? <==> now - v.since.value >= 300_000_000_000 && FailsSoon(pods, pod, now)))
  {
    if Judged(pods, pod, now) && StandsOutIn(pods, pod, now) {
      var rates := GroupRates(pods, Group(pods, pods[pod].version, now), now);
      assert rates[pod] == RateBand(pods[pod].samples, now - 300_000_000_000).value;
      ReportMeans(pods[pod], pod, rates, now);
    }
  }

  lemma AlikeSoon(a: Pods, b: Pods, pod: string, now: int)
    requires Alike(a, b)
    ensures FailsSoon(a, pod, now) <==> FailsSoon(b, pod, now)
  {
    if pod in a { assert a[pod].(divergentSince := None) == b[pod].(divergentSince := None); }
  }

  /** Some call that is part of the stretch is at least `span` old. */
  ghost predicate StoodFor(events: seq<Event>, pod: string, now: int, span: int) {
    exists i: nat {:trigger StandsSince(events, i, pod)} :: StandsSince(events, i, pod) && now - Time(events)(i) >= span
  }

  /** Of calls in order, some in the stretch is old enough exactly when the first one is. */
  lemma OldEnough(n: nat, stands: nat -> bool, breaks: nat -> bool, time: nat -> int, t: int, limit: int)
    requires Tells(n, stands, breaks, time, Some(t))
    requires forall i: nat, j: nat :: i <= j < n && stands(i) && stands(j) ==> time(i) <= time(j)
    ensures t <= limit <==> exists i: nat :: Since(n, stands, breaks, i) && time(i) <= limit
  {
    var f: nat :| Began(n, stands, breaks, f) && time(f) == t;
    assert Since(n, stands, breaks, f);
    forall i: nat | Since(n, stands, breaks, i) ensures t <= time(i) {
      assert f <= i;
    }
  }

  lemma IsCall(events: seq<Event>, pod: string, i: nat)
    requires Stands(events, pod)(i)
    ensures i < |events| && events[i].Called?
  {
    assert StandsTest(pod)(Known(events[..i]), events[i]);
  }

  lemma StoodForMeans(events: seq<Event>, pod: string, t: int, now: int, span: int)
    requires CallsInOrder(events) && MarkTells(events, pod, Some(t))
    ensures now - t >= span <==> StoodFor(events, pod, now, span)
  {
    var (n, stands, breaks, time) := (|events|, Stands(events, pod), Breaking(events, pod), Time(events));
    forall i: nat, j: nat | i <= j < n && stands(i) && stands(j) ensures time(i) <= time(j) {
      IsCall(events, pod, i);
      IsCall(events, pod, j);
    }
    OldEnough(n, stands, breaks, time, t, now - span);
    forall i: nat ensures StandsSince(events, i, pod) <==> Since(n, stands, breaks, i) {}
  }

  /**
   * A pod is reported exactly by a call in which it stands out and fails within two hours, when an unbroken stretch of
   * standing out began at least five minutes earlier.
   */
  lemma ReportedIff(events: seq<Event>, pod: string, now: int)
    requires CallsInOrder(events + [Called(now)])
    ensures var all := events + [Called(now)];
            ReportedAt(events, pod, now) <==>
              && Stands(all, pod)(|events|) && FailsSoon(Known(events), pod, now)
              && StoodFor(all, pod, now, 300_000_000_000)
  {
    var all := events + [Called(now)];
    CallState(events, now);
    KnownIsAlike(events);
    var stands := Judged(Known(events), pod, now) && StandsOutIn(Known(events), pod, now);
    assert Stands(all, pod)(|events|) <==> stands;
    if pod in After(events) {
      VerdictMeans(After(events), pod, now);
      AlikeJudged(After(events), Known(events), pod, now);
      AlikeSoon(After(events), Known(events), pod, now);
      if stands {
        MarkMeans(all, pod);
        assert MarkIn(After(all), pod) == VerdictOf(After(events), pod, now).since;
        StoodForMeans(all, pod, VerdictOf(After(events), pod, now).since.value, now, 300_000_000_000);
      }
    }
  }

  lemma CallState(events: seq<Event>, now: int)
    ensures var all := events + [Called(now)];
            all[..|events|] == events && all[|events|] == Called(now) && After(all) == Marked(After(events), now)
  {
    assert (events + [Called(now)])[..|events|] == events;
  }

  /**
   * What a report says of a pod: its version and rate, the share of its capacity in use, the last nanosecond before it
   * is full at that rate and, for early and late, at the quartiles, how many rated siblings it has, and their median.
   */
  ghost predicate TellsTruth(pods: Pods, pod: string, now: int, d: Divergent) {
    pod in pods && exists rates {:trigger IsReport(pods[pod], pod, rates, d)} ::
      rates == GroupRates(pods, Group(pods, pods[pod].version, now), now) && IsReport(pods[pod], pod, rates, d)
  }

  lemma ReportTells(pods: Pods, pod: string, now: int, d: Divergent)
    requires pod in pods && VerdictOf(pods, pod, now).report == Some(d)
    ensures TellsTruth(pods, pod, now, d)
  {
    InGroup(pods, pod, now);
    ReportIs(pods[pod], pod, GroupRates(pods, Group(pods, pods[pod].version, now), now), now, d);
  }

  lemma InGroup(pods: Pods, pod: string, now: int)
    requires pod in pods && VerdictOf(pods, pod, now).report.Some?
    ensures var (p, rates) := (pods[pod], GroupRates(pods, Group(pods, pods[pod].version, now), now));
            && p.samples != [] && p.capacity > 0.0 && pod in rates
            && rates[pod].low <= rates[pod].median <= rates[pod].high
            && VerdictIn(p, pod, rates, now) == VerdictOf(pods, pod, now)
  {
    RateEnclosed(pods[pod].samples, now - RATE_WINDOW);
  }

  ghost predicate IsReport(p: Pod, name: string, rates: Rates, d: Divergent) {
    && name in rates && p.samples != []
    && var room := p.capacity - p.samples[|p.samples| - 1].usage;
       && d.pod == name && d.version == p.version && d.rate == rates[name].median && d.siblings == |rates| - 1
       && IsShare(d.usage, p.capacity, room) && AreLast(room, rates[name], d.etf, d.early, d.late)
       && IsMiddle(d.previousRate, rates, name)
  }

  /** The share of the capacity that leaves this room. */
  ghost predicate IsShare(usage: real, capacity: real, room: real) {
    usage * capacity + room == capacity
  }

  /** At most half of the siblings grow slower, and more than half not faster. */
  ghost predicate IsMiddle(m: real, rates: Rates, name: string) {
    var others := rates.Keys - {name};
    2 * |Having(rates, others, Below(m))| <= |rates| - 1 < 2 * |Having(rates, others, UpTo(m))|
  }

  ghost predicate AreLast(room: real, r: Rate, etf: int, early: int, late: int) {
    && IsLast(room, r.median, etf) && IsLast(room, r.high, early)
    && if r.low > 0.0 then IsLast(room, r.low, late) else late == 0
  }

  lemma BandIsLast(room: real, r: Rate)
    requires room >= 0.0 && 0.0 < r.median <= r.high
    ensures var (early, late) := FailureBand(room, r.low, r.high);
            AreLast(room, r, ToDuration(room / r.median), early, late)
  {
    LastNanosecond(room, r.median);
    LastNanosecond(room, r.high);
    if r.low > 0.0 { LastNanosecond(room, r.low); }
  }

  lemma ReportIs(p: Pod, name: string, rates: Rates, now: int, d: Divergent)
    requires p.samples != [] && p.capacity > 0.0 && VerdictIn(p, name, rates, now).report == Some(d)
    requires rates[name].low <= rates[name].median <= rates[name].high
    ensures IsReport(p, name, rates, d)
  {
    var s := Siblings(rates, name);
    assert d == Report(p, name, rates[name], s);
    ReportOf(p, name, rates, s);
  }

  lemma ReportOf(p: Pod, name: string, rates: Rates, s: seq<real>)
    requires p.samples != [] && p.capacity > p.samples[|p.samples| - 1].usage && p.capacity > 0.0 && name in rates
    requires s == Siblings(rates, name) && s != []
    requires 0.0 < rates[name].median && rates[name].low <= rates[name].median <= rates[name].high
    ensures IsReport(p, name, rates, Report(p, name, rates[name], s))
  {
    var last := p.samples[|p.samples| - 1].usage;
    BandIsLast(p.capacity - last, rates[name]);
    MedianRate(rates, name, s[|s| / 2]);
    ShareLeft(last, p.capacity);
  }

  lemma ShareLeft(last: real, capacity: real)
    requires capacity > 0.0
    ensures IsShare(last / capacity, capacity, capacity - last)
  {
    assert last / capacity * capacity == last;
  }

  lemma MedianRate(rates: Rates, name: string, m: real)
    requires name in rates && Siblings(rates, name) != [] && m == Siblings(rates, name)[|Siblings(rates, name)| / 2]
    ensures |Siblings(rates, name)| == |rates| - 1
    ensures IsMiddle(m, rates, name)
  {
    var s := Siblings(rates, name);
    SiblingsAreSorted(rates, name);
    RankOf(s, |s| / 2);
    CountSiblings(rates, name, Below(m));
    CountSiblings(rates, name, UpTo(m));
  }

  /** The call in which a pod begins to stand out never reports it. */
  lemma FirstCallIsSilent(events: seq<Event>, pod: string, now: int)
    requires pod in After(events) && After(events)[pod].divergentSince.None?
    ensures !ReportedAt(events, pod, now)
  {
  }
}
