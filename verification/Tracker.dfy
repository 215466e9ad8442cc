/** The failure record: which restarts count as failures, and how early each failure had been forecast. */
module Tracker {
  import opened Options
  import opened Rings
  import Sorting

  const MAX_RESTART_HISTORY := 64
  const MAX_TRACK_RECORD := 2048

  /** What else shows a pod: a throttling reading, a start failure, a crash back-off or its last termination. */
  datatype Channel = ByCondition | ByEvent | ByBackOff | ByTermination

  datatype Call =
    | Observed(workload: string, pod: string, at: int, restarts: int)
    | Sighted(workload: string, pod: string, channel: Channel, at: int)
    | Noted(workload: string, at: int)
    | Pruned(cutoff: int)

  datatype Outcome = Outcome(at: int, lead: int)

  // ---- The record as a function of all calls ----

  /** What is known of a pod: its last restart count, and when each kind of sighting was last recorded. */
  datatype View =
    View(restarts: Option<int>, seen: Option<int>, condition: Option<int>, event: Option<int>, backOff: Option<int>)

  const UNKNOWN := View(None, None, None, None, None)

  function Later(last: Option<int>, at: int): Option<int> {
    if last.Some? && at <= last.value then last else Some(at)
  }

  function SightedBy(v: View, channel: Channel, at: int): View {
    match channel
    case ByCondition => v.(condition := Some(at))
    case ByEvent => v.(event := Later(v.event, at))
    case ByBackOff => v.(backOff := Later(v.backOff, at))
    case ByTermination => v
  }

  predicate Before(last: Option<int>, cutoff: int) {
    last.Some? ==> last.value < cutoff
  }

  /** No sighting of any kind is as recent as the cutoff. */
  predicate Stale(v: View, cutoff: int) {
    Before(v.seen, cutoff) && Before(v.condition, cutoff) && Before(v.event, cutoff) && Before(v.backOff, cutoff)
  }

  function OrUnknown(v: Option<View>): View {
    if v.Some? then v.value else UNKNOWN
  }

  /** How one pod's view changes with a call. */
  function NextView(before: Option<View>, c: Call, pod: string): Option<View> {
    match c
    case Observed(_, p, at, restarts) =>
      if p == pod then Some(OrUnknown(before).(restarts := Some(restarts), seen := Some(at))) else before
    case Sighted(_, p, channel, at) => if p == pod then Some(SightedBy(OrUnknown(before), channel, at)) else before
    case Noted(_, _) => before
    case Pruned(cutoff) => if before.Some? && Stale(before.value, cutoff) then None else before
  }

  /** What is known of a pod after some calls, unless it was pruned since. */
  function PodView(calls: seq<Call>, pod: string): Option<View> {
    if calls == [] then None else NextView(PodView(calls[..|calls| - 1], pod), calls[|calls| - 1], pod)
  }

  /** The last restart count of a pod that is known and was counted. */
  function LastCount(v: Option<View>): Option<int> {
    if v.Some? then v.value.restarts else None
  }

  /** Call `i` saw the restart count of a known pod grow. */
  predicate IsFailure(calls: seq<Call>, i: nat) {
    && i < |calls| && calls[i].Observed?
    && var last := LastCount(PodView(calls[..i], calls[i].pod)); last.Some? && calls[i].restarts > last.value
  }

  predicate Fails(calls: seq<Call>, i: nat, workload: string) {
    IsFailure(calls, i) && calls[i].workload == workload
  }

  /** The times at which a workload failed during the first `n` calls. */
  function FailureTimes(calls: seq<Call>, n: nat, workload: string): seq<int>
    requires n <= |calls|
  {
    if n == 0 then []
    else FailureTimes(calls, n - 1, workload) + if Fails(calls, n - 1, workload) then [calls[n - 1].at] else []
  }

  /** The number of calls up to and including the last failure of a workload among the first `n`. */
  function SinceFailure(calls: seq<Call>, n: nat, workload: string): (k: nat)
    requires n <= |calls|
    ensures k <= n
  {
    if n == 0 || Fails(calls, n - 1, workload) then n else SinceFailure(calls, n - 1, workload)
  }

  predicate Notes(c: Call, workload: string) {
    c.Noted? && c.workload == workload
  }

  /** The first forecast of a workload noted in calls `from` to `n`. */
  function FirstNote(calls: seq<Call>, from: nat, n: nat, workload: string): Option<int>
    requires from <= n <= |calls|
    decreases n - from
  {
    if from == n then None
    else if Notes(calls[from], workload) then Some(calls[from].at)
    else FirstNote(calls, from + 1, n, workload)
  }

  /** The warning a failure at call `n` would be credited with. */
  function Warning(calls: seq<Call>, n: nat, workload: string): Option<int>
    requires n <= |calls|
  {
    FirstNote(calls, SinceFailure(calls, n, workload), n, workload)
  }

  function OutcomeOf(calls: seq<Call>, i: nat): Outcome
    requires IsFailure(calls, i)
  {
    var warned := Warning(calls, i, calls[i].workload);
    Outcome(calls[i].at, if warned.Some? then calls[i].at - warned.value else 0)
  }

  /** One outcome per failure, in order. */
  function Outcomes(calls: seq<Call>, n: nat): seq<Outcome>
    requires n <= |calls|
  {
    if n == 0 then [] else Outcomes(calls, n - 1) + if IsFailure(calls, n - 1) then [OutcomeOf(calls, n - 1)] else []
  }

  // ---- Prefixes ----

  lemma PrefixFailure(calls: seq<Call>, c: Call, i: nat)
    requires i < |calls|
    ensures IsFailure(calls + [c], i) <==> IsFailure(calls, i)
    ensures forall w :: Fails(calls + [c], i, w) <==> Fails(calls, i, w)
  {
    assert (calls + [c])[..i] == calls[..i];
  }

  lemma {:induction false} PrefixFailures(calls: seq<Call>, c: Call, n: nat, w: string)
    requires n <= |calls|
    ensures FailureTimes(calls + [c], n, w) == FailureTimes(calls, n, w)
    ensures SinceFailure(calls + [c], n, w) == SinceFailure(calls, n, w)
  {
    if n > 0 {
      PrefixFailure(calls, c, n - 1);
      PrefixFailures(calls, c, n - 1, w);
    }
  }

  lemma {:induction false} PrefixNote(calls: seq<Call>, c: Call, from: nat, n: nat, w: string)
    requires from <= n <= |calls|
    ensures FirstNote(calls + [c], from, n, w) == FirstNote(calls, from, n, w)
    decreases n - from
  {
    if from < n { PrefixNote(calls, c, from + 1, n, w); }
  }

  lemma PrefixWarning(calls: seq<Call>, c: Call, n: nat, w: string)
    requires n <= |calls|
    ensures Warning(calls + [c], n, w) == Warning(calls, n, w)
  {
    PrefixFailures(calls, c, n, w);
    PrefixNote(calls, c, SinceFailure(calls, n, w), n, w);
  }

  lemma {:induction false} PrefixOutcomes(calls: seq<Call>, c: Call, n: nat)
    requires n <= |calls|
    ensures Outcomes(calls + [c], n) == Outcomes(calls, n)
  {
    if n > 0 {
      PrefixFailure(calls, c, n - 1);
      PrefixOutcomes(calls, c, n - 1);
      if IsFailure(calls, n - 1) { PrefixWarning(calls, c, n - 1, calls[n - 1].workload); }
    }
  }

  lemma {:induction false} NoteAtEnd(calls: seq<Call>, c: Call, from: nat, w: string)
    requires from <= |calls|
    ensures FirstNote(calls + [c], from, |calls| + 1, w) ==
            if FirstNote(calls, from, |calls|, w).Some? then FirstNote(calls, from, |calls|, w)
            else if c.Noted? && c.workload == w then Some(c.at) else None
    decreases |calls| - from
  {
    if from < |calls| { NoteAtEnd(calls, c, from + 1, w); }
  }

  /** How the pending warning of a workload changes with one more call. */
  lemma NextWarning(calls: seq<Call>, c: Call, w: string)
    ensures Warning(calls + [c], |calls| + 1, w) ==
            if Fails(calls + [c], |calls|, w) then None
            else if Warning(calls, |calls|, w).Some? then Warning(calls, |calls|, w)
            else if c.Noted? && c.workload == w then Some(c.at) else None
  {
    var n := |calls|;
    PrefixFailures(calls, c, n, w);
    if !Fails(calls + [c], n, w) { NoteAtEnd(calls, c, SinceFailure(calls, n, w), w); }
  }

  // ---- What the pending warning means ----

  lemma {:induction false} SinceFailureIs(calls: seq<Call>, n: nat, w: string)
    requires n <= |calls|
    ensures var k := SinceFailure(calls, n, w);
            (k > 0 ==> Fails(calls, k - 1, w)) && forall i: nat :: k <= i < n ==> !Fails(calls, i, w)
  {
    if n > 0 { SinceFailureIs(calls, n - 1, w); }
  }

  lemma {:induction false} FirstNoteIs(calls: seq<Call>, from: nat, n: nat, w: string) returns (i: nat)
    requires from <= n <= |calls|
    ensures from <= i <= n && (forall j: nat :: from <= j < i ==> !Notes(calls[j], w))
    ensures if FirstNote(calls, from, n, w).None? then i == n
            else i < n && Notes(calls[i], w) && FirstNote(calls, from, n, w) == Some(calls[i].at)
    decreases n - from
  {
    if from == n || Notes(calls[from], w) {
      i := from;
    } else {
      i := FirstNoteIs(calls, from + 1, n, w);
    }
  }

  /**
   * A failure is credited with the earliest forecast noted after the workload's previous failure, and with nothing
   * when there is none.
   */
  lemma WarningIsEarliest(calls: seq<Call>, n: nat, w: string) returns (k: nat, i: nat)
    requires n <= |calls|
    ensures k <= i <= n && (k > 0 ==> Fails(calls, k - 1, w))
    ensures forall j: nat :: k <= j < n ==> !Fails(calls, j, w)
    ensures forall j: nat :: k <= j < i ==> !Notes(calls[j], w)
    ensures if Warning(calls, n, w).None? then i == n
            else i < n && Notes(calls[i], w) && Warning(calls, n, w) == Some(calls[i].at)
  {
    k := SinceFailure(calls, n, w);
    SinceFailureIs(calls, n, w);
    i := FirstNoteIs(calls, k, n, w);
  }

  // ---- Which pods are forgotten ----

  /** The sightings that keep a pod. */
  datatype Kind = OfRestarts | OfCondition | OfEvent | OfBackOff

  predicate Shows(c: Call, pod: string, kind: Kind) {
    match kind
    case OfRestarts => c.Observed? && c.pod == pod
    case OfCondition => c.Sighted? && c.channel == ByCondition && c.pod == pod
    case OfEvent => c.Sighted? && c.channel == ByEvent && c.pod == pod
    case OfBackOff => c.Sighted? && c.channel == ByBackOff && c.pod == pod
  }

  /** Of restart counts and conditions the last counts, of events and back-offs each. */
  ghost predicate Counts(calls: seq<Call>, i: nat, pod: string, kind: Kind) {
    && i < |calls| && Shows(calls[i], pod, kind)
    && (kind == OfRestarts || kind == OfCondition ==> forall j :: i < j < |calls| ==> !Shows(calls[j], pod, kind))
  }

  /** No sighting from call `start` on that counts is as recent as the cutoff. */
  ghost predicate NotSeenSince(calls: seq<Call>, start: nat, pod: string, kind: Kind, cutoff: int) {
    forall i: nat {:trigger Counts(calls, i, pod, kind)} ::
      start <= i && Counts(calls, i, pod, kind) ==> calls[i].at < cutoff
  }

  /** The pod has been known without a break since before call `start + 1`. */
  ghost predicate KnownFrom(calls: seq<Call>, start: nat, pod: string) {
    && start < |calls| && PodView(calls[..start], pod).None?
    && forall k {:trigger calls[..k]} :: start < k <= |calls| ==> PodView(calls[..k], pod).Some?
  }

  function LastOf(v: View, kind: Kind): Option<int> {
    match kind
    case OfRestarts => v.seen
    case OfCondition => v.condition
    case OfEvent => v.event
    case OfBackOff => v.backOff
  }

  lemma NotSeenNext(calls: seq<Call>, c: Call, start: nat, pod: string, kind: Kind, cutoff: int)
    requires start <= |calls|
    ensures NotSeenSince(calls + [c], start, pod, kind, cutoff) <==>
            if !Shows(c, pod, kind) then NotSeenSince(calls, start, pod, kind, cutoff)
            else
              c.at < cutoff && (kind == OfEvent || kind == OfBackOff ==> NotSeenSince(calls, start, pod, kind, cutoff))
  {
    var (all, n) := (calls + [c], |calls|);
    forall i: nat | i < n
      ensures Counts(all, i, pod, kind) <==>
              Counts(calls, i, pod, kind) && (Shows(c, pod, kind) ==> kind == OfEvent || kind == OfBackOff)
    {
      assert all[i] == calls[i] && all[n] == c;
      assert forall j :: i < j < n ==> all[j] == calls[j];
    }
    assert Counts(all, n, pod, kind) <==> Shows(c, pod, kind);
  }

  /** What a pod's view remembers of a kind of sighting is what counts since the pod has been known. */
  lemma {:induction false} ViewMeans(calls: seq<Call>, pod: string, start: nat, kind: Kind, cutoff: int)
    requires KnownFrom(calls, start, pod)
    ensures PodView(calls, pod).Some?
    ensures Before(LastOf(PodView(calls, pod).value, kind), cutoff) <==> NotSeenSince(calls, start, pod, kind, cutoff)
  {
    var n := |calls| - 1;
    var (init, c) := (calls[..n], calls[n]);
    assert calls[..|calls|] == calls && init + [c] == calls;
    NotSeenNext(init, c, start, pod, kind, cutoff);
    if n > start {
      forall k | start < k <= n ensures PodView(init[..k], pod).Some? { assert init[..k] == calls[..k]; }
      assert init[..start] == calls[..start];
      ViewMeans(init, pod, start, kind, cutoff);
    }
  }

  /** A known pod is forgotten by a pruning exactly when no sighting since it became known is that recent. */
  lemma PruneForgets(calls: seq<Call>, pod: string, start: nat, cutoff: int)
    requires KnownFrom(calls, start, pod)
    ensures PodView(calls + [Pruned(cutoff)], pod).None? <==>
            forall kind :: NotSeenSince(calls, start, pod, kind, cutoff)
  {
    assert (calls + [Pruned(cutoff)])[..|calls|] == calls;
    ViewMeans(calls, pod, start, OfRestarts, cutoff);
    forall kind ensures Before(LastOf(PodView(calls, pod).value, kind), cutoff) <==>
                        NotSeenSince(calls, start, pod, kind, cutoff)
    {
      ViewMeans(calls, pod, start, kind, cutoff);
    }
    var v := PodView(calls, pod).value;
    assert Stale(v, cutoff) <==> forall kind :: Before(LastOf(v, kind), cutoff) by {
      assert LastOf(v, OfRestarts) == v.seen && LastOf(v, OfCondition) == v.condition;
      assert LastOf(v, OfEvent) == v.event && LastOf(v, OfBackOff) == v.backOff;
    }
  }

  /** Every known pod became known at some call. */
  lemma {:induction false} BecameKnown(calls: seq<Call>, pod: string) returns (start: nat)
    requires PodView(calls, pod).Some?
    ensures KnownFrom(calls, start, pod)
  {
    var n := |calls| - 1;
    assert calls[..|calls|] == calls;
    if PodView(calls[..n], pod).None? {
      start := n;
    } else {
      start := BecameKnown(calls[..n], pod);
      assert calls[..n][..start] == calls[..start];
      forall k | start < k <= n ensures PodView(calls[..k], pod).Some? { assert calls[..n][..k] == calls[..k]; }
    }
  }

  // ---- What is kept ----

  function KeptFailures(calls: seq<Call>, w: string): seq<int> {
    Last(FailureTimes(calls, |calls|, w), MAX_RESTART_HISTORY)
  }

  function KeptOutcomes(calls: seq<Call>): seq<Outcome> {
    Last(Outcomes(calls, |calls|), MAX_TRACK_RECORD)
  }

  function Pending(calls: seq<Call>, w: string): Option<int> {
    Warning(calls, |calls|, w)
  }

  lemma NextFailures(calls: seq<Call>, c: Call, w: string)
    ensures KeptFailures(calls + [c], w) ==
            if Fails(calls + [c], |calls|, w) then Last(KeptFailures(calls, w) + [c.at], MAX_RESTART_HISTORY)
              else KeptFailures(calls, w)
  {
    PrefixFailures(calls, c, |calls|, w);
    assert (calls + [c])[|calls|] == c;
    if Fails(calls + [c], |calls|, w) {
      LastOfAppend(FailureTimes(calls, |calls|, w), c.at, MAX_RESTART_HISTORY);
    } else {
      assert FailureTimes(calls, |calls|, w) + [] == FailureTimes(calls, |calls|, w);
    }
  }

  function Lead(at: int, warned: Option<int>): int {
    if warned.Some? then at - warned.value else 0
  }

  lemma OutcomeAtEnd(calls: seq<Call>, c: Call)
    requires IsFailure(calls + [c], |calls|)
    ensures c.Observed? && OutcomeOf(calls + [c], |calls|) == Outcome(c.at, Lead(c.at, Pending(calls, c.workload)))
  {
    assert (calls + [c])[|calls|] == c;
    PrefixWarning(calls, c, |calls|, c.workload);
  }

  lemma FailureOutcome(calls: seq<Call>, c: Call)
    requires IsFailure(calls + [c], |calls|)
    ensures Outcomes(calls + [c], |calls| + 1) ==
            Outcomes(calls, |calls|) + [Outcome(c.at, Lead(c.at, Pending(calls, c.workload)))]
  {
    OutcomeAtEnd(calls, c);
    PrefixOutcomes(calls, c, |calls|);
  }

  lemma NoOutcome(calls: seq<Call>, c: Call)
    requires !IsFailure(calls + [c], |calls|)
    ensures Outcomes(calls + [c], |calls| + 1) == Outcomes(calls, |calls|)
  {
    PrefixOutcomes(calls, c, |calls|);
    AppendNone(Outcomes(calls, |calls|));
  }

  lemma AppendNone<T>(s: seq<T>)
    ensures s + [] == s
  {
  }

  lemma NextOutcomes(calls: seq<Call>, c: Call)
    ensures KeptOutcomes(calls + [c]) ==
            if IsFailure(calls + [c], |calls|)
            then Last(KeptOutcomes(calls) + [Outcome(c.at, Lead(c.at, Pending(calls, c.workload)))], MAX_TRACK_RECORD)
            else KeptOutcomes(calls)
  {
    if IsFailure(calls + [c], |calls|) {
      OutcomeAtEnd(calls, c);
      var o := Outcome(c.at, Lead(c.at, Pending(calls, c.workload)));
      FailureOutcome(calls, c);
      LastOfAppend(Outcomes(calls, |calls|), o, MAX_TRACK_RECORD);
    } else {
      NoOutcome(calls, c);
    }
  }

  // ---- The tracker ----

  datatype PodState = PodState(workload: string, view: View, history: seq<int>)

  type Pods = map<string, PodState>

  function Look<T>(m: map<string, T>, w: string): Option<T> {
    if w in m then Some(m[w]) else None
  }

  function History(m: map<string, seq<int>>, w: string): seq<int> {
    if w in m then m[w] else []
  }

  function ViewIn(pods: Pods, pod: string): Option<View> {
    if pod in pods then Some(pods[pod].view) else None
  }

  ghost predicate PodsMatch(pods: Pods, calls: seq<Call>) {
    forall pod {:trigger PodView(calls, pod)} :: PodView(calls, pod) == ViewIn(pods, pod)
  }

  ghost predicate FailuresMatch(failures: map<string, seq<int>>, calls: seq<Call>) {
    forall w {:trigger KeptFailures(calls, w)} :: KeptFailures(calls, w) == History(failures, w)
  }

  ghost predicate ForecastsMatch(forecasts: map<string, int>, calls: seq<Call>) {
    forall w {:trigger Pending(calls, w)} :: Pending(calls, w) == Look(forecasts, w)
  }

  lemma FailuresNext(failures: map<string, seq<int>>, calls: seq<Call>, c: Call)
    requires FailuresMatch(failures, calls)
    ensures FailuresMatch(if IsFailure(calls + [c], |calls|)
                          then failures[c.workload := Last(History(failures, c.workload) + [c.at], MAX_RESTART_HISTORY)]
                          else failures, calls + [c])
  {
    assert (calls + [c])[|calls|] == c;
    var failures' := if IsFailure(calls + [c], |calls|)
      then failures[c.workload := Last(History(failures, c.workload) + [c.at], MAX_RESTART_HISTORY)] else failures;
    forall w ensures KeptFailures(calls + [c], w) == History(failures', w) {
      NextFailures(calls, c, w);
      assert KeptFailures(calls, w) == History(failures, w);
    }
  }

  lemma ForecastsNext(forecasts: map<string, int>, calls: seq<Call>, c: Call)
    requires ForecastsMatch(forecasts, calls)
    ensures ForecastsMatch(if IsFailure(calls + [c], |calls|) then forecasts - {c.workload}
                           else if c.Noted? && c.workload !in forecasts then forecasts[c.workload := c.at]
                           else forecasts, calls + [c])
  {
    assert (calls + [c])[|calls|] == c;
    var forecasts' := if IsFailure(calls + [c], |calls|) then forecasts - {c.workload}
      else if c.Noted? && c.workload !in forecasts then forecasts[c.workload := c.at] else forecasts;
    forall w ensures Pending(calls + [c], w) == Look(forecasts', w) {
      NextWarning(calls, c, w);
      assert Pending(calls, w) == Look(forecasts, w);
    }
  }

  lemma PodsNext(pods: Pods, calls: seq<Call>, c: Call, pods': Pods)
    requires PodsMatch(pods, calls) && forall pod :: ViewIn(pods', pod) == NextView(ViewIn(pods, pod), c, pod)
    ensures PodsMatch(pods', calls + [c])
  {
    assert (calls + [c])[..|calls|] == calls;
    forall pod ensures PodView(calls + [c], pod) == ViewIn(pods', pod) {
      assert PodView(calls, pod) == ViewIn(pods, pod);
    }
  }

  class Tracker {
    var pods: Pods
    var failures: map<string, seq<int>>
    var forecasts: map<string, int>
    var outcomes: seq<Outcome>
    ghost var calls: seq<Call>

    /** Everything kept is what the whole list of calls determines, cut to the bounds. */
    ghost predicate Valid()
      reads this
    {
      && PodsMatch(pods, calls) && FailuresMatch(failures, calls) && ForecastsMatch(forecasts, calls)
      && outcomes == KeptOutcomes(calls)
    }

    constructor ()
      ensures Valid() && calls == []
    {
      pods, failures, forecasts, outcomes, calls := map[], map[], map[], [], [];
    }

    method RecordOutcome(workload: string, at: int)
      modifies this`outcomes, this`forecasts
      ensures outcomes ==
              Last(old(outcomes) + [Outcome(at, Lead(at, Look(old(forecasts), workload)))], MAX_TRACK_RECORD)
      ensures forecasts == old(forecasts) - {workload}
    {
      var lead := 0;
      if workload in forecasts {
        lead := at - forecasts[workload];
        forecasts := forecasts - {workload};
      }
      assert forecasts == old(forecasts) - {workload};
      outcomes := outcomes + [Outcome(at, lead)];
      if |outcomes| > MAX_TRACK_RECORD { outcomes := outcomes[|outcomes| - MAX_TRACK_RECORD..]; }
    }

    method RecordFailure(workload: string, at: int)
      modifies this`failures, this`outcomes, this`forecasts
      ensures failures == old(failures)[workload := Last(History(old(failures), workload) + [at], MAX_RESTART_HISTORY)]
      ensures outcomes ==
              Last(old(outcomes) + [Outcome(at, Lead(at, Look(old(forecasts), workload)))], MAX_TRACK_RECORD)
      ensures forecasts == old(forecasts) - {workload}
    {
      var history := History(failures, workload) + [at];
      if |history| > MAX_RESTART_HISTORY { history := history[|history| - MAX_RESTART_HISTORY..]; }
      failures := failures[workload := history];
      RecordOutcome(workload, at);
    }

    /** The restart count of a pod, with or without a usage reading. */
    method ObserveRestarts(workload: string, pod: string, at: int, restarts: int)
      requires Valid()
      modifies this
      ensures Valid() && calls == old(calls) + [Observed(workload, pod, at, restarts)]
    {
      ghost var c := Observed(workload, pod, at, restarts);
      var state := if pod in pods then pods[pod] else PodState(workload, UNKNOWN, []);
      var grew := state.view.restarts.Some? && restarts > state.view.restarts.value;
      FailureSeen(pods, calls, c);
      assert grew == IsFailure(calls + [c], |calls|);
      FailuresNext(failures, calls, c);
      ForecastsNext(forecasts, calls, c);
      NextOutcomes(calls, c);
      assert Pending(calls, workload) == Look(forecasts, workload);
      if grew {
        state := state.(history := Last(state.history + [at], MAX_RESTART_HISTORY));
        RecordFailure(workload, at);
      }
      ghost var before := pods;
      pods := pods[pod := state.(view := state.view.(restarts := Some(restarts), seen := Some(at)))];
      PodsNext(before, calls, c, pods);
      calls := calls + [c];
    }

    /** Any other sighting of a pod keeps it from being pruned and changes nothing else. */
    method Sight(workload: string, pod: string, channel: Channel, at: int)
      requires Valid()
      modifies this
      ensures Valid() && calls == old(calls) + [Sighted(workload, pod, channel, at)]
      ensures failures == old(failures) && forecasts == old(forecasts) && outcomes == old(outcomes)
    {
      ghost var c := Sighted(workload, pod, channel, at);
      assert !IsFailure(calls + [c], |calls|) by { assert (calls + [c])[|calls|] == c; }
      FailuresNext(failures, calls, c);
      ForecastsNext(forecasts, calls, c);
      NextOutcomes(calls, c);
      var state := if pod in pods then pods[pod] else PodState(workload, UNKNOWN, []);
      ghost var before := pods;
      pods := pods[pod := state.(view := SightedBy(state.view, channel, at))];
      PodsNext(before, calls, c, pods);
      calls := calls + [c];
    }

    /** A note is ignored while an earlier one of its workload is pending. */
    method NoteForecast(workload: string, at: int)
      requires Valid()
      modifies this
      ensures Valid() && calls == old(calls) + [Noted(workload, at)]
    {
      ghost var c := Noted(workload, at);
      FailuresNext(failures, calls, c);
      ForecastsNext(forecasts, calls, c);
      NextOutcomes(calls, c);
      PodsNext(pods, calls, c, pods);
      assert !IsFailure(calls + [c], |calls|) by { assert (calls + [c])[|calls|] == c; }
      if workload !in forecasts { forecasts := forecasts[workload := at]; }
      calls := calls + [c];
    }

    /** Only the views of pods are dropped, and only of those whose every sighting is older than the cutoff. */
    method Prune(cutoff: int)
      requires Valid()
      modifies this
      ensures Valid() && calls == old(calls) + [Pruned(cutoff)]
    {
      ghost var c := Pruned(cutoff);
      FailuresNext(failures, calls, c);
      ForecastsNext(forecasts, calls, c);
      NextOutcomes(calls, c);
      assert !IsFailure(calls + [c], |calls|) by { assert (calls + [c])[|calls|] == c; }
      ghost var before := pods;
      pods := map pod | pod in pods && !Stale(pods[pod].view, cutoff) :: pods[pod];
      PodsNext(before, calls, c, pods);
      calls := calls + [c];
    }
  }

  lemma FailureSeen(pods: Pods, calls: seq<Call>, c: Call)
    requires PodsMatch(pods, calls) && c.Observed?
    ensures IsFailure(calls + [c], |calls|) <==>
            var last := LastCount(ViewIn(pods, c.pod)); last.Some? && c.restarts > last.value
  {
    assert (calls + [c])[..|calls|] == calls && (calls + [c])[|calls|] == c;
    assert PodView(calls, c.pod) == ViewIn(pods, c.pod);
  }

  // ---- The summary of a period ----

  /** Durations are in nanoseconds. */
  const MIN_LEAD := 300_000_000_000

  /** How many failures, how many of them announced early, and how early. */
  datatype Record = Record(failures: nat, warned: nat, medianLead: int)

  predicate Inside(o: Outcome, from: int, to: int) {
    from <= o.at <= to
  }

  /** The outcomes of a period. */
  function InPeriod(outcomes: seq<Outcome>, from: int, to: int): (r: seq<Outcome>)
    ensures |r| <= |outcomes|
  {
    if outcomes == [] then []
    else
      var last := outcomes[|outcomes| - 1];
      InPeriod(outcomes[..|outcomes| - 1], from, to) + if Inside(last, from, to) then [last] else []
  }

  /** The leads long enough to count as warnings. */
  function Leads(outcomes: seq<Outcome>): (r: seq<int>)
    ensures |r| <= |outcomes|
  {
    if outcomes == [] then []
    else
      var last := outcomes[|outcomes| - 1];
      Leads(outcomes[..|outcomes| - 1]) + if last.lead >= MIN_LEAD then [last.lead] else []
  }

  predicate Ascending(s: seq<int>) {
    forall i, j :: 0 <= i < j < |s| ==> s[i] <= s[j]
  }

  /** `m` stands in the middle of the values in order; of two middle ones it is the larger. */
  ghost predicate IsUpperMedian(s: seq<int>, m: int) {
    exists a :: Ascending(a) && multiset(a) == multiset(s) && |a| > 0 && m == a[|a| / 2]
  }

  ghost predicate Summarizes(r: Record, outcomes: seq<Outcome>, from: int, to: int) {
    var leads := Leads(InPeriod(outcomes, from, to));
    && r.failures == |InPeriod(outcomes, from, to)| && r.warned == |leads|
    && if leads == [] then r.medianLead == 0 else IsUpperMedian(leads, r.medianLead)
  }

  lemma {:induction false} LeadsAreLong(outcomes: seq<Outcome>)
    ensures forall x :: x in Leads(outcomes) ==> x >= MIN_LEAD
  {
    if outcomes != [] { LeadsAreLong(outcomes[..|outcomes| - 1]); }
  }

  /** Warnings are failures, and a median lead is the lead of one of them, of at least five minutes. */
  lemma SummaryBounds(r: Record, outcomes: seq<Outcome>, from: int, to: int)
    requires Summarizes(r, outcomes, from, to)
    ensures r.warned <= r.failures <= |outcomes|
    ensures if r.warned == 0 then r.medianLead == 0
            else r.medianLead >= MIN_LEAD && r.medianLead in Leads(InPeriod(outcomes, from, to))
  {
    var leads := Leads(InPeriod(outcomes, from, to));
    LeadsAreLong(InPeriod(outcomes, from, to));
    if leads != [] {
      var a :| Ascending(a) && multiset(a) == multiset(leads) && |a| > 0 && r.medianLead == a[|a| / 2];
      assert a[|a| / 2] in multiset(a);
      assert r.medianLead in leads;
    }
  }

  lemma SortedAscends(a: seq<int>)
    requires Sorting.Sorted(a, Shorter)
    ensures Ascending(a)
  {
    assert forall i, j :: 0 <= i < j < |a| ==> !Shorter(a[j], a[i]);
  }

  predicate Shorter(a: int, b: int) {
    a < b
  }

  lemma OneMore(outcomes: seq<Outcome>, i: nat, from: int, to: int)
    requires i < |outcomes|
    ensures var (o, p) := (outcomes[i], InPeriod(outcomes[..i], from, to));
            && InPeriod(outcomes[..i + 1], from, to) == (if Inside(o, from, to) then p + [o] else p)
            && Leads(p + [o]) == if o.lead >= MIN_LEAD then Leads(p) + [o.lead] else Leads(p)
  {
    assert outcomes[..i + 1][..i] == outcomes[..i];
    var p := InPeriod(outcomes[..i], from, to);
    assert (p + [outcomes[i]])[..|p|] == p;
  }

  method UpperMedian(leads: seq<int>) returns (m: int)
    requires leads != []
    ensures IsUpperMedian(leads, m)
  {
    var sorted := Sorting.Sort(leads, Shorter);
    SortedAscends(sorted);
    assert |sorted| == |multiset(sorted)| == |leads|;
    m := sorted[|sorted| / 2];
  }

  method Summarize(outcomes: seq<Outcome>, from: int, to: int) returns (r: Record)
    ensures Summarizes(r, outcomes, from, to)
  {
    var failures, warned, leads, median := 0, 0, [], 0;
    for i := 0 to |outcomes|
      invariant failures == |InPeriod(outcomes[..i], from, to)|
      invariant leads == Leads(InPeriod(outcomes[..i], from, to)) && warned == |leads|
    {
      OneMore(outcomes, i, from, to);
      var o := outcomes[i];
      if !(o.at < from) && !(o.at > to) {
        failures := failures + 1;
        if o.lead >= MIN_LEAD { warned, leads := warned + 1, leads + [o.lead]; }
      }
    }
    assert outcomes[..|outcomes|] == outcomes;
    if |leads| > 0 { median := UpperMedian(leads); }
    r := Record(failures, warned, median);
  }
}
