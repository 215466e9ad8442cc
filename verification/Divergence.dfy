/** One pod that grows far faster than the other pods of its version. */
module Divergence {
  import opened Options
  import opened OrderStats
  import opened Rings
  import opened Saturation

  const MIN_AGE := 6 * MINUTE
  const MIN_REPLICAS := 3
  const RATE_WINDOW := 5 * MINUTE
  const SUSTAIN := 5 * MINUTE
  const FACTOR := 3.0
  const FLOOR := 0.25 * 1024.0 * 1024.0 / 60.0
  const HORIZON := 120 * MINUTE
  const MAX_POD_SAMPLES := 240

  datatype Pod = Pod(version: string, first: int, samples: seq<Point>, capacity: real, divergentSince: Option<int>)

  type Pods = map<string, Pod>

  /** A pod's growth rate with the quartiles of its pairwise slopes. */
  datatype Rate = Rate(median: real, low: real, high: real)

  // ---- Rates ----

  function Recent(samples: seq<Point>, from: int): seq<Point> {
    if samples == [] then []
    else
      var (init, p) := (samples[..|samples| - 1], samples[|samples| - 1]);
      Recent(init, from) + if p.at < from then [] else [p]
  }

  function RateOf(slopes: seq<real>): Option<Rate> {
    if slopes == [] then None
    else Some(Rate(slopes[|slopes| / 2], SlopeBand(slopes).0, SlopeBand(slopes).1))
  }

  function RateBand(samples: seq<Point>, from: int): Option<Rate> {
    if |Recent(samples, from)| < MIN_SAMPLES then None else RateOf(PairSlopesOf(Recent(samples, from)))
  }

  method MeasureRate(samples: seq<Point>, from: int) returns (r: Option<Rate>)
    ensures r == RateBand(samples, from)
  {
    var pts := [];
    for i := 0 to |samples|
      invariant pts == Recent(samples[..i], from)
    {
      assert samples[..i + 1][..i] == samples[..i];
      if !(samples[i].at < from) { pts := pts + [samples[i]]; }
    }
    assert samples[..|samples|] == samples;
    if |pts| < MIN_SAMPLES { return None; }
    var slopes := PairSlopes(pts);
    r := RateOf(slopes);
  }

  // ---- A pod among its siblings ----

  type Rates = map<string, Rate>

  /** The median rates of some pods, in some order. */
  ghost function Listing(rates: Rates, names: set<string>): (s: seq<real>)
    requires names <= rates.Keys
    ensures |s| == |names|
  {
    if names == {} then []
    else
      var n :| n in names;
      Listing(rates, names - {n}) + [rates[n].median]
  }

  lemma {:induction false} ListingWithout(rates: Rates, names: set<string>, n: string)
    requires names <= rates.Keys && n in names
    ensures multiset(Listing(rates, names)) == multiset(Listing(rates, names - {n})) + multiset{rates[n].median}
  {
    var m :| m in names && Listing(rates, names) == Listing(rates, names - {m}) + [rates[m].median];
    if m != n {
      ListingWithout(rates, names - {m}, n);
      ListingWithout(rates, names - {n}, m);
      assert names - {m} - {n} == names - {n} - {m};
    }
  }

  /** The siblings' rates in ascending order. */
  ghost function Siblings(rates: Rates, name: string): seq<real>
    requires name in rates
  {
    Sort(Listing(rates, rates.Keys - {name}))
  }

  lemma SiblingsAreSorted(rates: Rates, name: string)
    requires name in rates
    ensures Ascending(Siblings(rates, name)) && |Siblings(rates, name)| == |rates| - 1
    ensures multiset(Siblings(rates, name)) == multiset(Listing(rates, rates.Keys - {name}))
  {
    SortIsSorted(Listing(rates, rates.Keys - {name}));
    assert |rates.Keys - {name}| == |rates| - 1;
  }

  lemma SameListing(rates: Rates, name: string, others: seq<real>)
    requires name in rates && multiset(others) == multiset(Listing(rates, rates.Keys - {name}))
    ensures Sort(others) == Siblings(rates, name) && |Sort(others)| == |rates| - 1
  {
    SortIsSorted(others);
    SiblingsAreSorted(rates, name);
    AscendingUnique(Sort(others), Siblings(rates, name));
  }

  /** The rate a pod is compared with: the upper median of its siblings, or the floor. */
  function Reference(others: seq<real>): (r: real)
    requires others != []
    ensures r >= FLOOR && r >= others[|others| / 2]
  {
    var m := others[|others| / 2];
    if m < FLOOR then FLOOR else m
  }

  /** The pod is rated, has enough rated siblings and grows far faster than they do. */
  ghost predicate Outgrows(rates: Rates, name: string) {
    && name in rates && |rates| - 1 >= MIN_REPLICAS - 1
    && Siblings(rates, name) != [] && rates[name].median > FACTOR * Reference(Siblings(rates, name))
  }

  ghost function AtLeast(x: real): real -> bool {
    y => y >= x
  }

  lemma {:induction false} CountListing(rates: Rates, names: set<string>, fast: set<string>, x: real)
    requires names <= rates.Keys && fast <= names && forall n :: n in fast ==> rates[n].median >= x
    ensures Count(Listing(rates, names), AtLeast(x)) >= |fast|
  {
    if names != {} {
      var n :| n in names && Listing(rates, names) == Listing(rates, names - {n}) + [rates[n].median];
      CountListing(rates, names - {n}, fast - {n}, x);
      CountAppend(Listing(rates, names - {n}), [rates[n].median], AtLeast(x));
      if n in fast { assert |fast - {n}| == |fast| - 1; } else { assert fast - {n} == fast; }
    } else {
      assert fast == {};
    }
  }

  lemma {:induction false} Slowest(rates: Rates, names: set<string>) returns (m: string)
    requires names <= rates.Keys && names != {}
    ensures m in names && forall n :: n in names ==> rates[m].median <= rates[n].median
  {
    var n :| n in names;
    if names == {n} {
      m := n;
    } else {
      m := Slowest(rates, names - {n});
      if rates[n].median < rates[m].median { m := n; }
    }
  }

  lemma {:induction false} CountBelow(s: seq<real>, k: nat, x: real)
    requires Ascending(s) && k <= |s| && forall i :: 0 <= i < k ==> s[i] < x
    ensures Count(s, AtLeast(x)) <= |s| - k
  {
    if k > 0 { CountBelow(s[1..], k - 1, x); }
  }

  /** Whatever the rates, no more than half of the rated pods of a version outgrow their siblings. */
  lemma MinorityOutgrows(rates: Rates, fast: set<string>)
    requires forall n :: n in fast ==> Outgrows(rates, n)
    ensures 2 * |fast| <= |rates|
  {
    if fast != {} {
      var m := Slowest(rates, fast);
      var x := rates[m].median;
      var (names, s) := (rates.Keys - {m}, Siblings(rates, m));
      SiblingsAreSorted(rates, m);
      assert |names| == |rates| - 1 && |fast - {m}| == |fast| - 1;
      CountListing(rates, names, fast - {m}, x);
      CountPermutation(Listing(rates, names), s, AtLeast(x));
      var mid := |s| / 2;
      assert s[mid] < x;
      CountBelow(s, mid + 1, x);
    }
  }

  /** The siblings that grow less than a third as fast. */
  function Slower(rates: Rates, name: string): set<string>
    requires name in rates
  {
    set n | n in rates && n != name && 3.0 * rates[n].median < rates[name].median
  }

  function Having(rates: Rates, names: set<string>, p: real -> bool): set<string>
    requires names <= rates.Keys
  {
    set n | n in names && p(rates[n].median)
  }

  lemma HavingWithout(rates: Rates, names: set<string>, n: string, p: real -> bool)
    requires names <= rates.Keys && n in names
    ensures |Having(rates, names, p)| == |Having(rates, names - {n}, p)| + if p(rates[n].median) then 1 else 0
  {
    var rest := Having(rates, names - {n}, p);
    assert Having(rates, names, p) == if p(rates[n].median) then rest + {n} else rest;
  }

  lemma {:induction false} CountMatches(rates: Rates, names: set<string>, p: real -> bool)
    requires names <= rates.Keys
    ensures Count(Listing(rates, names), p) == |Having(rates, names, p)|
  {
    if names != {} {
      var n :| n in names && Listing(rates, names) == Listing(rates, names - {n}) + [rates[n].median];
      CountMatches(rates, names - {n}, p);
      CountAppend(Listing(rates, names - {n}), [rates[n].median], p);
      HavingWithout(rates, names, n, p);
    }
  }

  lemma CountSiblings(rates: Rates, name: string, p: real -> bool)
    requires name in rates
    ensures Count(Siblings(rates, name), p) == |Having(rates, rates.Keys - {name}, p)|
  {
    var names := rates.Keys - {name};
    SiblingsAreSorted(rates, name);
    CountPermutation(Siblings(rates, name), Listing(rates, names), p);
    CountMatches(rates, names, p);
  }

  /**
   * A pod outgrows its siblings exactly when there are at least two, it grows by more than 0.75 MiB a minute, and more
   * than half of them grow less than a third as fast.
   */
  lemma OutgrowsMeans(rates: Rates, name: string)
    requires name in rates
    ensures Outgrows(rates, name) <==>
            && |rates| >= 3 && rates[name].median > 0.75 * 1048576.0 / 60.0
            && 2 * |Slower(rates, name)| > |rates| - 1
  {
    SlowerSiblings(rates, name);
    var s := Siblings(rates, name);
    if s != [] { FarAbove(s, s[|s| / 2], rates[name].median, |Slower(rates, name)|); }
  }

  lemma SlowerSiblings(rates: Rates, name: string)
    requires name in rates
    ensures Ascending(Siblings(rates, name)) && |Siblings(rates, name)| == |rates| - 1
    ensures Count(Siblings(rates, name), Below(rates[name].median / 3.0)) == |Slower(rates, name)|
  {
    var x := rates[name].median / 3.0;
    SiblingsAreSorted(rates, name);
    CountSiblings(rates, name, Below(x));
    SlowerHave(rates, name);
  }

  lemma SlowerHave(rates: Rates, name: string)
    requires name in rates
    ensures Having(rates, rates.Keys - {name}, Below(rates[name].median / 3.0)) == Slower(rates, name)
  {
  }

  lemma FarAbove(s: seq<real>, m: real, rate: real, slower: nat)
    requires Ascending(s) && s != [] && m == s[|s| / 2] && slower == Count(s, Below(rate / 3.0))
    ensures rate > FACTOR * Reference(s) <==> rate > 0.75 * 1048576.0 / 60.0 && 2 * slower > |s|
  {
    UpperMedianBelow(s, rate / 3.0);
    AboveThird(m, rate);
  }

  lemma AboveThird(m: real, rate: real)
    ensures rate > FACTOR * (if m < FLOOR then FLOOR else m) <==> rate > 0.75 * 1048576.0 / 60.0 && m < rate / 3.0
  {
  }

  lemma UpperMedianBelow(s: seq<real>, x: real)
    requires Ascending(s) && s != []
    ensures s[|s| / 2] < x <==> 2 * Count(s, Below(x)) > |s|
  {
    var mid := |s| / 2;
    if s[mid] < x { CountRange(s, 0, mid + 1, Below(x)); } else { CountFront(s, mid, Below(x)); }
  }

  // ---- One call ----

  predicate Comparable(p: Pod, now: int) {
    now - p.first >= MIN_AGE && p.capacity > 0.0 && p.samples != []
  }

  function Group(pods: Pods, version: string, now: int): set<string> {
    set n | n in pods && Comparable(pods[n], now) && pods[n].version == version
  }

  function GroupRates(pods: Pods, names: set<string>, now: int): Rates
    requires names <= pods.Keys
  {
    map n | n in names && RateBand(pods[n].samples, now - RATE_WINDOW).Some? ::
      RateBand(pods[n].samples, now - RATE_WINDOW).value
  }

  /** The pod outgrows the group with these rates and still has room. */
  ghost predicate StandsOut(p: Pod, name: string, rates: Rates)
    requires p.samples != []
  {
    Outgrows(rates, name) && p.samples[|p.samples| - 1].usage < p.capacity
  }

  datatype Divergent =
    Divergent(pod: string, etf: int, early: int, late: int, usage: real, version: string, rate: real,
      previousRate: real, siblings: nat)

  /** The report for a pod that stands out among siblings with these sorted rates. */
  function Report(p: Pod, name: string, r: Rate, others: seq<real>): Divergent
    requires p.samples != [] && p.capacity > 0.0 && r.median > 0.0 && others != []
  {
    var last := p.samples[|p.samples| - 1].usage;
    var (early, late) := FailureBand(p.capacity - last, r.low, r.high);
    Divergent(name, ToDuration((p.capacity - last) / r.median), early, late, last / p.capacity, p.version, r.median,
      others[|others| / 2], |others|)
  }

  /** Since when a pod stands out, and what is reported about it. */
  datatype Verdict = Verdict(since: Option<int>, report: Option<Divergent>)

  /** A pod is reported once it has stood out for long enough, if it fails within the horizon. */
  ghost function VerdictIn(p: Pod, name: string, rates: Rates, now: int): Verdict
    requires p.samples != [] && p.capacity > 0.0
  {
    if !StandsOut(p, name, rates) then Verdict(None, None)
    else
      var since := if p.divergentSince.None? then now else p.divergentSince.value;
      var d := Report(p, name, rates[name], Siblings(rates, name));
      Verdict(Some(since), if now - since >= SUSTAIN && d.etf <= HORIZON then Some(d) else None)
  }

  /** The pod has run for long enough, in a large enough group. */
  ghost predicate Judged(pods: Pods, name: string, now: int) {
    name in pods && Comparable(pods[name], now) && |Group(pods, pods[name].version, now)| >= MIN_REPLICAS
  }

  /** The verdict on a pod; one that is not judged keeps the mark it had. */
  ghost function VerdictOf(pods: Pods, name: string, now: int): Verdict
    requires name in pods
  {
    if Judged(pods, name, now)
    then VerdictIn(pods[name], name, GroupRates(pods, Group(pods, pods[name].version, now), now), now)
    else Verdict(pods[name].divergentSince, None)
  }

  /** The pod stands out in its group. */
  ghost predicate StandsOutIn(pods: Pods, name: string, now: int)
    requires name in pods
  {
    && pods[name].samples != []
    && StandsOut(pods[name], name, GroupRates(pods, Group(pods, pods[name].version, now), now))
  }

  /** The pods after a call, each with the mark of its verdict. */
  ghost function Marked(pods: Pods, now: int): Pods {
    map n | n in pods :: pods[n].(divergentSince := VerdictOf(pods, n, now).since)
  }

  /** The pods after a reading; a pod that is new or changed version starts over. */
  function WithReading(pods: Pods, pod: string, version: string, at: int, usage: real, capacity: real): Pods {
    if version == "" then pods
    else
      var kept := if pod in pods && pods[pod].version == version then pods[pod] else Pod(version, at, [], 0.0, None);
      pods[pod := kept.(samples := Last(kept.samples + [Point(at, usage)], MAX_POD_SAMPLES), capacity := capacity)]
  }

  /** A report of this call, and none of its reports fails sooner; nothing when there is no report. */
  ghost predicate IsMostUrgent(pods: Pods, now: int, best: Option<Divergent>) {
    && (best.Some? ==> best.value.pod in pods && VerdictOf(pods, best.value.pod, now).report == best)
    && forall n :: n in pods && VerdictOf(pods, n, now).report.Some? ==>
         best.Some? && best.value.etf <= VerdictOf(pods, n, now).report.value.etf
  }

  // ---- Whole runs ----

  datatype Event =
    | Read(pod: string, version: string, at: int, usage: real, capacity: real)
    | Called(now: int)

  /** The pods after some readings and calls, with the marks that the calls left. */
  ghost function After(events: seq<Event>): Pods {
    if events == [] then map[] else Step(After(events[..|events| - 1]), events[|events| - 1])
  }

  ghost function Step(pods: Pods, e: Event): Pods {
    match e
    case Read(pod, version, at, usage, capacity) => WithReading(pods, pod, version, at, usage, capacity)
    case Called(now) => Marked(pods, now)
  }

  lemma AfterNext(events: seq<Event>, e: Event)
    ensures After(events + [e]) == Step(After(events), e)
  {
    assert (events + [e])[..|events|] == events;
  }

  lemma RateEnclosed(samples: seq<Point>, from: int)
    requires RateBand(samples, from).Some?
    ensures var r := RateBand(samples, from).value; r.low <= r.median <= r.high
  {
    var recent := Recent(samples, from);
    SortIsSorted(AllSlopes(recent, |recent|));
  }

  lemma VerdictBrackets(p: Pod, name: string, rates: Rates, now: int)
    requires p.samples != [] && p.capacity > 0.0 && VerdictIn(p, name, rates, now).report.Some?
    requires rates[name].low <= rates[name].median <= rates[name].high
    ensures var d := VerdictIn(p, name, rates, now).report.value;
            d.pod == name && 0 <= d.early <= d.etf <= HORIZON && (d.late != 0 ==> d.etf <= d.late)
  {
    BandAround(p.capacity - p.samples[|p.samples| - 1].usage, rates[name]);
  }

  /** A report's early failure is not after its forecast, and its late failure, when known, not before it. */
  lemma ReportBrackets(pods: Pods, name: string, now: int)
    requires name in pods
    ensures VerdictOf(pods, name, now).report.Some? ==>
              var d := VerdictOf(pods, name, now).report.value;
              d.pod == name && 0 <= d.early <= d.etf <= HORIZON && (d.late != 0 ==> d.etf <= d.late)
  {
    if VerdictOf(pods, name, now).report.Some? {
      var rates := GroupRates(pods, Group(pods, pods[name].version, now), now);
      RateEnclosed(pods[name].samples, now - RATE_WINDOW);
      VerdictBrackets(pods[name], name, rates, now);
    }
  }

  lemma BandAround(room: real, r: Rate)
    requires room >= 0.0 && 0.0 < r.median && r.low <= r.median <= r.high
    ensures var (early, late) := FailureBand(room, r.low, r.high);
            0 <= early <= ToDuration(room / r.median) && (late != 0 ==> ToDuration(room / r.median) <= late)
  {
    SlowerIsLater(room, r.median, r.high);
    if r.low > 0.0 { SlowerIsLater(room, r.low, r.median); }
  }

  /** After one call, no more than half of the rated pods of a judged version are marked as standing out. */
  lemma MinorityMarked(pods: Pods, names: set<string>, version: string, marked: set<string>, now: int)
    requires names == Group(pods, version, now) && |names| >= MIN_REPLICAS && marked <= names
    requires forall n :: n in marked ==> VerdictOf(pods, n, now).since.Some?
    ensures 2 * |marked| <= |GroupRates(pods, names, now)|
  {
    forall n | n in marked ensures Outgrows(GroupRates(pods, names, now), n) {
      assert Group(pods, pods[n].version, now) == names;
    }
    MinorityOutgrows(GroupRates(pods, names, now), marked);
  }

  class ReleaseState {
    var pods: Pods
    ghost var events: seq<Event>

    ghost predicate Valid()
      reads this
    {
      pods == After(events)
    }

    constructor ()
      ensures Valid() && events == []
    {
      pods, events := map[], [];
    }

    /** Records a memory reading; a pod that changed version starts over. */
    method Observe(pod: string, version: string, at: int, usage: real, capacity: real)
      requires Valid()
      modifies this
      ensures Valid() && events == old(events) + [Read(pod, version, at, usage, capacity)]
      ensures version == "" ==> pods == old(pods)
      ensures version != "" ==>
                var kept := if pod in old(pods) && old(pods)[pod].version == version then old(pods)[pod]
                  else Pod(version, at, [], 0.0, None);
                pods == old(pods)[pod := kept.(samples := Last(kept.samples + [Point(at, usage)], MAX_POD_SAMPLES),
                                               capacity := capacity)]
    {
      AfterNext(events, Read(pod, version, at, usage, capacity));
      events := events + [Read(pod, version, at, usage, capacity)];
      if version == "" { return; }
      var p := Pod(version, at, [], 0.0, None);
      if pod in pods && pods[pod].version == version { p := pods[pod]; }
      var samples := p.samples + [Point(at, usage)];
      if |samples| > MAX_POD_SAMPLES { samples := samples[|samples| - MAX_POD_SAMPLES..]; }
      pods := pods[pod := p.(samples := samples, capacity := capacity)];
    }

    method MeasureRates(names: set<string>, now: int) returns (rates: Rates)
      requires names <= pods.Keys
      ensures rates == GroupRates(pods, names, now)
    {
      rates := map[];
      var todo := names;
      while todo != {}
        invariant todo <= names && rates == GroupRates(pods, names - todo, now)
      {
        var n :| n in todo;
        var r := MeasureRate(pods[n].samples, now - RATE_WINDOW);
        todo := todo - {n};
        assert names - todo == names - (todo + {n}) + {n};
        if r.Some? { rates := rates[n := r.value]; }
      }
      assert names - {} == names;
    }

    method SortedSiblings(rates: Rates, name: string) returns (others: seq<real>)
      requires name in rates
      ensures others == Siblings(rates, name) && |others| == |rates| - 1
    {
      others := [];
      var todo := rates.Keys - {name};
      ghost var all := todo;
      while todo != {}
        invariant todo <= all <= rates.Keys
        invariant multiset(others) + multiset(Listing(rates, todo)) == multiset(Listing(rates, all))
      {
        var n :| n in todo;
        ListingWithout(rates, todo, n);
        others := others + [rates[n].median];
        todo := todo - {n};
      }
      SameListing(rates, name, others);
      others := Sort(others);
    }

    /** Judges one pod among its group's rates. */
    method Judge(p: Pod, name: string, rates: Rates, now: int) returns (v: Verdict)
      requires p.samples != [] && p.capacity > 0.0
      ensures v == VerdictIn(p, name, rates, now)
    {
      if name !in rates { return Verdict(None, None); }
      var others := SortedSiblings(rates, name);
      if |others| < MIN_REPLICAS - 1 { return Verdict(None, None); }
      var reference := Reference(others);
      var last := p.samples[|p.samples| - 1].usage;
      var r := rates[name];
      if r.median <= FACTOR * reference || last >= p.capacity { return Verdict(None, None); }
      var since := if p.divergentSince.None? then now else p.divergentSince.value;
      var d := Report(p, name, r, others);
      v := Verdict(Some(since), if now - since >= SUSTAIN && d.etf <= HORIZON then Some(d) else None);
    }

    /** Marks the pods that stand out and returns the most urgent report. */
    method Divergence(now: int) returns (best: Option<Divergent>)
      requires Valid()
      modifies this
      ensures Valid() && events == old(events) + [Called(now)] && pods == Marked(old(pods), now)
      ensures IsMostUrgent(old(pods), now, best)
    {
      AfterNext(events, Called(now));
      best := MarkAndReport(now);
      events := events + [Called(now)];
    }

    method MarkAndReport(now: int) returns (best: Option<Divergent>)
      modifies this`pods
      ensures pods == Marked(old(pods), now)
      ensures IsMostUrgent(old(pods), now, best)
    {
      ghost var before := pods;
      ghost var verdict := (n: string) => if n in before then VerdictOf(before, n, now) else Verdict(None, None);
      var verdicts := Survey(now, verdict);
      best := MostUrgent(verdicts);
      pods := map n | n in pods :: if n in verdicts then pods[n].(divergentSince := verdicts[n].since) else pods[n];
    }

    /** Judges every pod of every large enough group. */
    method Survey(now: int, ghost verdict: string -> Verdict) returns (verdicts: map<string, Verdict>)
      requires forall n {:trigger VerdictOf(pods, n, now)} :: n in pods ==> verdict(n) == VerdictOf(pods, n, now)
      ensures forall n :: n in verdicts ==>
              n in pods && verdicts[n] == verdict(n) && (verdict(n).report.Some? ==> verdict(n).report.value.pod == n)
      ensures forall n :: n in pods && n !in verdicts ==> verdict(n) == Verdict(pods[n].divergentSince, None)
    {
      verdicts := map[];
      NotJudged(pods, now, verdict);
      var versions := set n | n in pods && Comparable(pods[n], now) :: pods[n].version;
      while versions != {}
        invariant forall n :: n in verdicts ==>
                  n in pods && verdicts[n] == verdict(n)
                  && (verdict(n).report.Some? ==> verdict(n).report.value.pod == n)
        invariant forall n :: n in pods && n !in verdicts
                              && !(Comparable(pods[n], now) && pods[n].version in versions) ==>
                    verdict(n) == Verdict(pods[n].divergentSince, None)
      {
        var version :| version in versions;
        versions := versions - {version};
        var names := Group(pods, version, now);
        if |names| < MIN_REPLICAS {
          SmallGroup(pods, version, names, now, verdict);
        } else {
          var more := SurveyGroup(version, names, now, verdict);
          verdicts := verdicts + more;
        }
      }
    }

    method SurveyGroup(version: string, names: set<string>, now: int, ghost verdict: string -> Verdict)
      returns (verdicts: map<string, Verdict>)
      requires names == Group(pods, version, now) && |names| >= MIN_REPLICAS
      requires forall n {:trigger VerdictOf(pods, n, now)} :: n in pods ==> verdict(n) == VerdictOf(pods, n, now)
      ensures verdicts.Keys == names
      ensures forall n :: n in verdicts ==>
              verdicts[n] == verdict(n) && (verdict(n).report.Some? ==> verdict(n).report.value.pod == n)
    {
      var rates := MeasureRates(names, now);
      var todo := names;
      verdicts := map[];
      while todo != {}
        invariant todo <= names && verdicts.Keys == names - todo
        invariant forall n :: n in verdicts ==>
                  verdicts[n] == verdict(n) && (verdict(n).report.Some? ==> verdict(n).report.value.pod == n)
      {
        var name :| name in todo;
        var v := Judge(pods[name], name, rates, now);
        assert VerdictOf(pods, name, now) == v;
        todo := todo - {name};
        verdicts := verdicts[name := v];
      }
    }
  }

  lemma NotJudged(pods: Pods, now: int, verdict: string -> Verdict)
    requires forall n {:trigger VerdictOf(pods, n, now)} :: n in pods ==> verdict(n) == VerdictOf(pods, n, now)
    ensures forall n :: n in pods && !Comparable(pods[n], now) ==> verdict(n) == Verdict(pods[n].divergentSince, None)
  {
    forall n | n in pods && !Comparable(pods[n], now) ensures verdict(n) == Verdict(pods[n].divergentSince, None) {
      assert VerdictOf(pods, n, now) == Verdict(pods[n].divergentSince, None);
    }
  }

  lemma SmallGroup(pods: Pods, version: string, names: set<string>, now: int, verdict: string -> Verdict)
    requires names == Group(pods, version, now) && |names| < MIN_REPLICAS
    requires forall n {:trigger VerdictOf(pods, n, now)} :: n in pods ==> verdict(n) == VerdictOf(pods, n, now)
    ensures forall n :: n in names ==> verdict(n) == Verdict(pods[n].divergentSince, None)
  {
    forall n | n in names ensures verdict(n) == Verdict(pods[n].divergentSince, None) {
      assert !Judged(pods, n, now);
      assert VerdictOf(pods, n, now) == Verdict(pods[n].divergentSince, None);
    }
  }

  /** The report with the smallest time to failure. */
  method MostUrgent(verdicts: map<string, Verdict>) returns (best: Option<Divergent>)
    ensures best.Some? ==> exists n :: n in verdicts && verdicts[n].report == best
    ensures forall n :: n in verdicts && verdicts[n].report.Some? ==>
            best.Some? && best.value.etf <= verdicts[n].report.value.etf
  {
    best := None;
    var todo := verdicts.Keys;
    while todo != {}
      invariant todo <= verdicts.Keys && (best.Some? ==> exists n :: n in verdicts && verdicts[n].report == best)
      invariant forall n :: n in verdicts && n !in todo && verdicts[n].report.Some? ==>
                  best.Some? && best.value.etf <= verdicts[n].report.value.etf
    {
      var n :| n in todo;
      todo := todo - {n};
      var report := verdicts[n].report;
      if report.Some? && (best.None? || report.value.etf < best.value.etf) { best := report; }
    }
  }
}
