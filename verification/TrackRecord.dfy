/** What the failure record says of the calls it was made from. */
module TrackRecord {
  import opened Options
  import opened Tracker

  // ---- Which calls are failures ----

  /** Call `k` made the tracker forget the pod. */
  ghost predicate Forgets(calls: seq<Call>, k: nat, pod: string) {
    k < |calls| && PodView(calls[..k], pod).Some? && PodView(calls[..k + 1], pod).None?
  }

  ghost predicate CountsPod(calls: seq<Call>, j: nat, pod: string) {
    j < |calls| && calls[j].Observed? && calls[j].pod == pod
  }

  /** Call `j` gave the last restart count that is still remembered of the pod. */
  ghost predicate IsLastCount(calls: seq<Call>, j: nat, pod: string) {
    && CountsPod(calls, j, pod)
    && (forall k: nat {:trigger CountsPod(calls, k, pod)} :: j < k ==> !CountsPod(calls, k, pod))
    && forall k: nat {:trigger Forgets(calls, k, pod)} :: j < k ==> !Forgets(calls, k, pod)
  }

  lemma EarlierCalls(init: seq<Call>, c: Call, k: nat, pod: string)
    requires k < |init|
    ensures CountsPod(init + [c], k, pod) <==> CountsPod(init, k, pod)
    ensures Forgets(init + [c], k, pod) <==> Forgets(init, k, pod)
  {
    assert (init + [c])[..k] == init[..k] && (init + [c])[..k + 1] == init[..k + 1];
  }

  lemma LastCountNext(init: seq<Call>, c: Call, j: nat, pod: string)
    requires j < |init|
    ensures IsLastCount(init + [c], j, pod) <==>
            IsLastCount(init, j, pod) && !CountsPod(init + [c], |init|, pod) && !Forgets(init + [c], |init|, pod)
  {
    var calls := init + [c];
    forall k: nat | k < |init|
      ensures CountsPod(calls, k, pod) <==> CountsPod(init, k, pod)
      ensures Forgets(calls, k, pod) <==> Forgets(init, k, pod)
    {
      EarlierCalls(init, c, k, pod);
    }
    if IsLastCount(calls, j, pod) {
      forall k: nat | j < k ensures !CountsPod(init, k, pod) && !Forgets(init, k, pod) {
        if k < |init| { assert !CountsPod(calls, k, pod) && !Forgets(calls, k, pod); }
      }
      assert !CountsPod(calls, |init|, pod) && !Forgets(calls, |init|, pod);
    }
  }

  /** The count remembered of a pod is that of its last restart count since it was last forgotten. */
  lemma {:induction false} LastCountMeans(calls: seq<Call>, pod: string, restarts: int)
    ensures LastCount(PodView(calls, pod)) == Some(restarts) <==>
            exists j: nat :: IsLastCount(calls, j, pod) && calls[j].restarts == restarts
  {
    if calls != [] {
      var n := |calls| - 1;
      var (init, c) := (calls[..n], calls[n]);
      LastCountMeans(init, pod, restarts);
      assert init + [c] == calls && calls[..n + 1] == calls;
      forall j: nat | j < n
        ensures IsLastCount(calls, j, pod) <==>
                IsLastCount(init, j, pod) && !CountsPod(calls, n, pod) && !Forgets(calls, n, pod)
      {
        LastCountNext(init, c, j, pod);
      }
      assert IsLastCount(calls, n, pod) <==> CountsPod(calls, n, pod);
    }
  }

  /** A call is a failure exactly when it counts more restarts of a pod than the last count since it was forgotten. */
  lemma FailureMeans(calls: seq<Call>, i: nat)
    ensures IsFailure(calls, i) <==>
            && i < |calls| && calls[i].Observed?
            && exists j: nat :: IsLastCount(calls[..i], j, calls[i].pod) && calls[j].restarts < calls[i].restarts
  {
    if i < |calls| && calls[i].Observed? {
      var last := LastCount(PodView(calls[..i], calls[i].pod));
      if last.Some? { LastCountMeans(calls[..i], calls[i].pod, last.value); }
      forall j: nat | IsLastCount(calls[..i], j, calls[i].pod) ensures last == Some(calls[j].restarts) {
        LastCountMeans(calls[..i], calls[i].pod, calls[j].restarts);
      }
    }
  }

  // ---- What is recorded of a failure ----

  /** `idx` lists, in order, the calls below `n` with a property. */
  ghost predicate Lists(idx: seq<nat>, n: nat, has: nat -> bool) {
    && (forall k :: 0 <= k < |idx| ==> idx[k] < n && has(idx[k]))
    && (forall j, k :: 0 <= j < k < |idx| ==> idx[j] < idx[k])
    && forall i: nat {:trigger has(i)} :: i < n && has(i) ==> i in idx
  }

  ghost function Listing(n: nat, has: nat -> bool): seq<nat> {
    if n == 0 then [] else Listing(n - 1, has) + if has(n - 1) then [n - 1] else []
  }

  lemma {:induction false} ListingLists(n: nat, has: nat -> bool)
    ensures Lists(Listing(n, has), n, has)
  {
    if n > 0 {
      ListingLists(n - 1, has);
      ListsNext(Listing(n - 1, has), n - 1, has);
    }
  }

  lemma ListsNext(before: seq<nat>, n: nat, has: nat -> bool)
    requires Lists(before, n, has)
    ensures Lists(before + if has(n) then [n] else [], n + 1, has)
  {
    var idx := before + if has(n) then [n] else [];
    forall i: nat | i < n + 1 && has(i) ensures i in idx {
      if i < n { assert i in before; } else { assert idx[|before|] == n; }
    }
  }

  ghost function FailureTest(calls: seq<Call>): nat -> bool {
    (i: nat) => IsFailure(calls, i)
  }

  ghost function WorkloadTest(calls: seq<Call>, w: string): nat -> bool {
    (i: nat) => Fails(calls, i, w)
  }

  /** Forecast `f` was noted for the workload after its last failure before call `n`, and before any other since. */
  ghost predicate FirstSince(calls: seq<Call>, w: string, f: nat, n: nat) {
    && f < n <= |calls| && Notes(calls[f], w)
    && (forall j: nat {:trigger Fails(calls, j, w)} :: f <= j < n ==> !Fails(calls, j, w))
    && forall j: nat {:trigger Notes(calls[j], w)} ::
         j < f && Notes(calls[j], w) ==> exists k: nat :: j <= k < f && Fails(calls, k, w)
  }

  /** The outcome of failure `i`: its time, and how long before it the first such forecast was noted, 0 without one. */
  ghost predicate Tells(calls: seq<Call>, i: nat, o: Outcome) {
    && IsFailure(calls, i) && o.at == calls[i].at
    && if exists f: nat :: FirstSince(calls, calls[i].workload, f, i)
       then exists f: nat :: FirstSince(calls, calls[i].workload, f, i) && o.lead == calls[i].at - calls[f].at
       else o.lead == 0
  }

  lemma NoteFails(calls: seq<Call>, k: nat, w: string)
    requires k < |calls| && Notes(calls[k], w)
    ensures !Fails(calls, k, w)
  {
  }

  lemma OutcomeTells(calls: seq<Call>, i: nat)
    requires IsFailure(calls, i)
    ensures Tells(calls, i, OutcomeOf(calls, i))
  {
    var w := calls[i].workload;
    var k, f := WarningIsEarliest(calls, i, w);
    if Warning(calls, i, w).Some? {
      forall j: nat | j < f && Notes(calls[j], w) ensures exists m: nat :: j <= m < f && Fails(calls, m, w) {
        assert j < k;
        assert Fails(calls, k - 1, w);
      }
      assert FirstSince(calls, w, f, i);
    } else {
      if k > 0 { assert Fails(calls, k - 1, w); }
      forall g: nat ensures !FirstSince(calls, w, g, i) {
        if FirstSince(calls, w, g, i) { assert false; }
      }
    }
  }

  ghost function TellsTest(calls: seq<Call>): (nat, Outcome) -> bool {
    (i: nat, o: Outcome) => Tells(calls, i, o)
  }

  ghost predicate AllTell(idx: seq<nat>, outcomes: seq<Outcome>, tells: (nat, Outcome) -> bool) {
    |idx| == |outcomes| && forall k :: 0 <= k < |idx| ==> tells(idx[k], outcomes[k])
  }

  lemma AllTellNext(idx: seq<nat>, outcomes: seq<Outcome>, tells: (nat, Outcome) -> bool, i: nat, o: Outcome)
    requires AllTell(idx, outcomes, tells) && tells(i, o)
    ensures AllTell(idx + [i], outcomes + [o], tells)
  {
  }

  lemma OutcomesNext(calls: seq<Call>, i: nat) returns (o: Outcome)
    requires i < |calls|
    ensures Outcomes(calls, i + 1) == Outcomes(calls, i) + if FailureTest(calls)(i) then [o] else []
    ensures FailureTest(calls)(i) ==> TellsTest(calls)(i, o)
  {
    if IsFailure(calls, i) {
      OutcomeTells(calls, i);
      o := OutcomeOf(calls, i);
    } else {
      o := Outcome(0, 0);
    }
  }

  lemma {:induction false} OutcomesTell(calls: seq<Call>, n: nat, has: nat -> bool, tells: (nat, Outcome) -> bool)
    requires n <= |calls| && has == FailureTest(calls) && tells == TellsTest(calls)
    ensures AllTell(Listing(n, has), Outcomes(calls, n), tells)
  {
    if n > 0 {
      OutcomesTell(calls, n - 1, has, tells);
      var o := OutcomesNext(calls, n - 1);
      if has(n - 1) { AllTellNext(Listing(n - 1, has), Outcomes(calls, n - 1), tells, n - 1, o); }
    }
  }

  /** There is one outcome for each failure, in order. */
  lemma OutcomesMean(calls: seq<Call>) returns (idx: seq<nat>)
    ensures Lists(idx, |calls|, FailureTest(calls)) && AllTell(idx, Outcomes(calls, |calls|), TellsTest(calls))
  {
    idx := Listing(|calls|, FailureTest(calls));
    ListingLists(|calls|, FailureTest(calls));
    OutcomesTell(calls, |calls|, FailureTest(calls), TellsTest(calls));
  }

  ghost predicate AreTimes(calls: seq<Call>, idx: seq<nat>, times: seq<int>) {
    && |idx| == |times|
    && forall k :: 0 <= k < |idx| ==> idx[k] < |calls| && calls[idx[k]].Observed? && times[k] == calls[idx[k]].at
  }

  lemma AreTimesNext(calls: seq<Call>, idx: seq<nat>, times: seq<int>, i: nat)
    requires AreTimes(calls, idx, times) && i < |calls| && calls[i].Observed?
    ensures AreTimes(calls, idx + [i], times + [calls[i].at])
  {
  }

  lemma TimesNext(calls: seq<Call>, i: nat, w: string)
    requires i < |calls|
    ensures WorkloadTest(calls, w)(i) ==> calls[i].Observed?
    ensures FailureTimes(calls, i + 1, w) ==
            FailureTimes(calls, i, w) + if WorkloadTest(calls, w)(i) then [calls[i].at] else []
  {
  }

  lemma {:induction false} TimesAreListed(calls: seq<Call>, n: nat, w: string, has: nat -> bool)
    requires n <= |calls| && has == WorkloadTest(calls, w)
    ensures AreTimes(calls, Listing(n, has), FailureTimes(calls, n, w))
  {
    if n > 0 {
      TimesAreListed(calls, n - 1, w, has);
      TimesNext(calls, n - 1, w);
      if has(n - 1) { AreTimesNext(calls, Listing(n - 1, has), FailureTimes(calls, n - 1, w), n - 1); }
    }
  }

  /** The failure times of a workload are those of its failures, in order. */
  lemma FailureTimesMean(calls: seq<Call>, w: string) returns (idx: seq<nat>)
    ensures Lists(idx, |calls|, WorkloadTest(calls, w)) && AreTimes(calls, idx, FailureTimes(calls, |calls|, w))
  {
    idx := Listing(|calls|, WorkloadTest(calls, w));
    ListingLists(|calls|, WorkloadTest(calls, w));
    TimesAreListed(calls, |calls|, w, WorkloadTest(calls, w));
  }

  // ---- The summary of a period ----

  ghost function Number(s: seq<int>, p: int -> bool): (n: nat)
    ensures n <= |s|
  {
    if s == [] then 0 else Number(s[..|s| - 1], p) + if p(s[|s| - 1]) then 1 else 0
  }

  lemma {:induction false} NumberWithout(s: seq<int>, i: nat, p: int -> bool)
    requires i < |s|
    ensures Number(s, p) == Number(s[..i] + s[i + 1..], p) + if p(s[i]) then 1 else 0
  {
    var (n, t) := (|s| - 1, s[..i] + s[i + 1..]);
    if i == n {
      assert t == s[..n];
    } else {
      assert t[..n - 1] == s[..n][..i] + s[..n][i + 1..];
      NumberWithout(s[..n], i, p);
    }
  }

  lemma Without(s: seq<int>, i: nat)
    requires i < |s|
    ensures multiset(s[..i] + s[i + 1..]) == multiset(s) - multiset{s[i]}
  {
    assert s == s[..i] + [s[i]] + s[i + 1..];
  }

  lemma {:induction false} NumberOfOrder(s: seq<int>, t: seq<int>, p: int -> bool)
    requires multiset(s) == multiset(t)
    ensures Number(s, p) == Number(t, p)
  {
    if s == [] {
      assert |t| == |multiset(t)| == 0;
    } else {
      var (init, x) := (s[..|s| - 1], s[|s| - 1]);
      Without(s, |s| - 1);
      assert s[..|s| - 1] + s[|s|..] == init;
      assert x in multiset(t);
      var i :| 0 <= i < |t| && t[i] == x;
      Without(t, i);
      NumberOfOrder(init, t[..i] + t[i + 1..], p);
      NumberWithout(t, i, p);
    }
  }

  lemma {:induction false} NumberFront(s: seq<int>, i: nat, p: int -> bool)
    requires i <= |s|
    ensures (forall k :: i <= k < |s| ==> !p(s[k])) ==> Number(s, p) <= i
    ensures (forall k :: 0 <= k < i ==> p(s[k])) ==> Number(s, p) >= i
  {
    if s != [] { NumberFront(s[..|s| - 1], if i == |s| then i - 1 else i, p); }
  }

  ghost function Any(): int -> bool {
    x => true
  }

  ghost function Under(m: int): int -> bool {
    x => x < m
  }

  ghost function AtMost(m: int): int -> bool {
    x => x <= m
  }

  lemma MiddleRank(a: seq<int>, mid: nat)
    requires Ascending(a) && mid < |a|
    ensures Number(a, Under(a[mid])) <= mid < Number(a, AtMost(a[mid]))
  {
    forall k | 0 <= k < |a| ensures (k <= mid ==> AtMost(a[mid])(a[k])) && (mid <= k ==> !Under(a[mid])(a[k])) {}
    NumberFront(a, mid, Under(a[mid]));
    NumberFront(a, mid + 1, AtMost(a[mid]));
  }

  /** At most half of the values are under an upper median, and more than half are not above it. */
  lemma UpperMedianRank(s: seq<int>, m: int)
    requires IsUpperMedian(s, m)
    ensures 2 * Number(s, Under(m)) <= |s| < 2 * Number(s, AtMost(m))
  {
    var a :| Ascending(a) && multiset(a) == multiset(s) && |a| > 0 && m == a[|a| / 2];
    MiddleRank(a, |a| / 2);
    SameLength(a, s);
    NumberOfOrder(a, s, Under(m));
    NumberOfOrder(a, s, AtMost(m));
  }

  lemma SameLength(a: seq<int>, s: seq<int>)
    requires multiset(a) == multiset(s)
    ensures |a| == |s|
  {
    assert |a| == |multiset(a)|;
  }

  /** The failures of the period. */
  ghost function FailuresIn(outcomes: seq<Outcome>, from: int, to: int): set<nat> {
    set i: nat | i < |outcomes| && from <= outcomes[i].at <= to
  }

  /** Those that were forecast at least five minutes ahead, by a lead that passes the test. */
  ghost function WarnedIn(outcomes: seq<Outcome>, from: int, to: int, test: int -> bool): set<nat> {
    set i: nat | i < |outcomes| && from <= outcomes[i].at <= to && outcomes[i].lead >= 300_000_000_000
                 && test(outcomes[i].lead)
  }

  lemma FailuresNext(init: seq<Outcome>, o: Outcome, from: int, to: int)
    ensures |FailuresIn(init + [o], from, to)| == |FailuresIn(init, from, to)| + if from <= o.at <= to then 1 else 0
  {
    var (before, n) := (FailuresIn(init, from, to), |init|);
    assert FailuresIn(init + [o], from, to) == if from <= o.at <= to then before + {n} else before;
  }

  lemma {:induction false} FailuresCount(outcomes: seq<Outcome>, from: int, to: int)
    ensures |InPeriod(outcomes, from, to)| == |FailuresIn(outcomes, from, to)|
  {
    if outcomes == [] {
      assert FailuresIn(outcomes, from, to) == {};
    } else {
      var (init, o) := (outcomes[..|outcomes| - 1], outcomes[|outcomes| - 1]);
      assert init + [o] == outcomes;
      FailuresCount(init, from, to);
      FailuresNext(init, o, from, to);
    }
  }

  lemma WarnedNext(init: seq<Outcome>, o: Outcome, from: int, to: int, test: int -> bool)
    ensures |WarnedIn(init + [o], from, to, test)| ==
            |WarnedIn(init, from, to, test)|
            + if from <= o.at <= to && o.lead >= 300_000_000_000 && test(o.lead) then 1 else 0
  {
    var (before, n) := (WarnedIn(init, from, to, test), |init|);
    var taken := from <= o.at <= to && o.lead >= 300_000_000_000 && test(o.lead);
    assert WarnedIn(init + [o], from, to, test) == if taken then before + {n} else before;
  }

  lemma LeadsNext(init: seq<Outcome>, o: Outcome, from: int, to: int, test: int -> bool)
    ensures Number(Leads(InPeriod(init + [o], from, to)), test) ==
            Number(Leads(InPeriod(init, from, to)), test)
            + if from <= o.at <= to && o.lead >= 300_000_000_000 && test(o.lead) then 1 else 0
  {
    assert (init + [o])[..|init|] == init && (init + [o])[..|init| + 1] == init + [o];
    OneMore(init + [o], |init|, from, to);
    var leads := Leads(InPeriod(init, from, to));
    assert (leads + [o.lead])[..|leads|] == leads;
  }

  lemma {:induction false} WarnedCount(outcomes: seq<Outcome>, from: int, to: int, test: int -> bool)
    ensures Number(Leads(InPeriod(outcomes, from, to)), test) == |WarnedIn(outcomes, from, to, test)|
  {
    if outcomes == [] {
      assert WarnedIn(outcomes, from, to, test) == {};
    } else {
      var (init, o) := (outcomes[..|outcomes| - 1], outcomes[|outcomes| - 1]);
      assert init + [o] == outcomes;
      WarnedCount(init, from, to, test);
      WarnedNext(init, o, from, to, test);
      LeadsNext(init, o, from, to, test);
    }
  }

  /**
   * The summary counts the failures of the period and those forecast at least five minutes ahead; its median is a lead
   * that at most half of the latter fall short of and more than half do not exceed.
   */
  lemma SummaryMeans(r: Record, outcomes: seq<Outcome>, from: int, to: int)
    requires Summarizes(r, outcomes, from, to)
    ensures r.failures == |FailuresIn(outcomes, from, to)|
    ensures r.warned == |WarnedIn(outcomes, from, to, Any())|
    ensures if r.warned == 0 then r.medianLead == 0
            else 2 * |WarnedIn(outcomes, from, to, Under(r.medianLead))| <= r.warned
                 < 2 * |WarnedIn(outcomes, from, to, AtMost(r.medianLead))|
  {
    var (leads, m) := (Leads(InPeriod(outcomes, from, to)), r.medianLead);
    FailuresCount(outcomes, from, to);
    WarnedCount(outcomes, from, to, Any());
    NumberFront(leads, |leads|, Any());
    if leads != [] {
      UpperMedianRank(leads, m);
      WarnedCount(outcomes, from, to, Under(m));
      WarnedCount(outcomes, from, to, AtMost(m));
    }
  }
}
