/** CPU throttling as a condition with hysteresis. */
module Condition {
  import opened Options

  /** Times and durations are in nanoseconds. */
  const MINUTE := 60_000_000_000
  const THRESHOLD := 0.25
  const RAISE_AFTER := 10 * MINUTE
  const CLEAR_AFTER := 5 * MINUTE
  const MAX_GAP := 2 * MINUTE

  datatype Sample = Sample(at: int, ratio: real)

  predicate High(s: Sample) {
    s.ratio >= THRESHOLD
  }

  /** The detector's memory; None stands for the zero time. */
  datatype Memory = Memory(runStart: Option<int>, belowSince: Option<int>, last: Option<int>, active: bool)

  const IDLE := Memory(None, None, None, false)

  function Since(start: Option<int>, at: int): int {
    match start case None => at case Some(t) => t
  }

  function Step(m: Memory, s: Sample): Memory {
    var gap := m.last.Some? && s.at - m.last.value > MAX_GAP;
    var runStart := Since(if gap then None else m.runStart, s.at);
    var belowSince := Since(if gap then None else m.belowSince, s.at);
    if High(s) then
      Memory(Some(runStart), None, Some(s.at), m.active || s.at - runStart >= RAISE_AFTER)
    else
      Memory(None, Some(belowSince), Some(s.at), m.active && s.at - belowSince < CLEAR_AFTER)
  }

  function After(trace: seq<Sample>): Memory {
    if trace == [] then IDLE else Step(After(trace[..|trace| - 1]), trace[|trace| - 1])
  }

  class Detector {
    var memory: Memory
    ghost var trace: seq<Sample>

    ghost predicate Valid()
      reads this
    {
      memory == After(trace)
    }

    constructor ()
      ensures Valid() && trace == []
    {
      memory, trace := IDLE, [];
    }

    /** Records one ratio; a raised condition reports it as the current usage. */
    method Observe(at: int, ratio: real) returns (usage: Option<real>)
      requires Valid()
      modifies this
      ensures Valid() && trace == old(trace) + [Sample(at, ratio)]
      ensures usage == if memory.active then Some(ratio) else None
    {
      var runStart, belowSince, active := memory.runStart, memory.belowSince, memory.active;
      if memory.last.Some? && at - memory.last.value > MAX_GAP {
        runStart, belowSince := None, None;
      }
      if ratio >= THRESHOLD {
        belowSince := None;
        if runStart == None { runStart := Some(at); }
        if at - runStart.value >= RAISE_AFTER { active := true; }
      } else {
        runStart := None;
        if belowSince == None { belowSince := Some(at); }
        if at - belowSince.value >= CLEAR_AFTER { active := false; }
      }
      memory := Memory(runStart, belowSince, Some(at), active);
      trace := trace + [Sample(at, ratio)];
      assert trace[..|trace| - 1] == old(trace);
      usage := if active then Some(ratio) else None;
    }
  }

  // ---- The meaning of a trace ----

  /** Sample `k` came soon enough after the one before it. */
  ghost predicate Close(trace: seq<Sample>, k: int)
    requires 0 < k < |trace|
  {
    trace[k].at - trace[k - 1].at <= 120_000_000_000
  }

  /** Samples `i` to `j` lie all on one side of the threshold, with no silence over the longest gap. */
  ghost predicate IsRun(trace: seq<Sample>, i: nat, j: nat, high: bool) {
    && i <= j < |trace|
    && (forall k :: i <= k <= j ==> (trace[k].ratio >= 0.25) == high)
    && forall k {:trigger Close(trace, k)} :: i < k <= j ==> Close(trace, k)
  }

  /** Some run on this side of the threshold that ends at `j` lasted at least `span`. */
  ghost predicate LongRun(trace: seq<Sample>, j: nat, high: bool, span: int) {
    exists i: nat :: IsRun(trace, i, j, high) && trace[j].at - trace[i].at >= span
  }

  /** A run that ends at `j` lasted long enough to raise the condition. */
  ghost predicate RaisedAt(trace: seq<Sample>, j: nat) {
    LongRun(trace, j, true, 600_000_000_000)
  }

  ghost predicate ClearedAt(trace: seq<Sample>, j: nat) {
    LongRun(trace, j, false, 300_000_000_000)
  }

  ghost function Raises(trace: seq<Sample>): nat -> bool {
    (j: nat) => RaisedAt(trace, j)
  }

  ghost function Clears(trace: seq<Sample>): nat -> bool {
    (j: nat) => ClearedAt(trace, j)
  }

  /** Some `raise` came before `n`, and no `clear` after it. */
  ghost predicate RaisedLast(n: nat, raise: nat -> bool, clear: nat -> bool) {
    exists j: nat :: j < n && raise(j) && forall l: nat :: j < l < n ==> !clear(l)
  }

  /** A raising run ended at some sample, and no clearing run has ended since. */
  ghost predicate Raised(trace: seq<Sample>) {
    RaisedLast(|trace|, Raises(trace), Clears(trace))
  }

  ghost predicate NonDecreasing(trace: seq<Sample>) {
    forall i, j :: 0 <= i <= j < |trace| ==> trace[i].at <= trace[j].at
  }

  /** The longest run that ends with the last sample starts at `i`. */
  ghost predicate LastRun(trace: seq<Sample>, i: nat) {
    && trace != [] && IsRun(trace, i, |trace| - 1, High(trace[|trace| - 1]))
    && (i == 0 || High(trace[i - 1]) != High(trace[|trace| - 1]) || trace[i].at - trace[i - 1].at > MAX_GAP)
  }

  /** The memory holds the start of the longest run that ends with the last sample. */
  lemma {:induction false} RememberedStart(trace: seq<Sample>) returns (i: nat)
    requires trace != []
    ensures LastRun(trace, i)
    ensures var m := After(trace); var n := |trace| - 1;
            && m.last == Some(trace[n].at)
            && m.runStart == (if High(trace[n]) then Some(trace[i].at) else None)
            && m.belowSince == (if High(trace[n]) then None else Some(trace[i].at))
  {
    var n := |trace| - 1;
    i := n;
    if n > 0 {
      var init := trace[..n];
      var i0 := RememberedStart(init);
      SameRun(trace, init, i0, n - 1, High(trace[n - 1]));
      assert Close(trace, n) <==> trace[n].at - trace[n - 1].at <= MAX_GAP;
      if trace[n].at - trace[n - 1].at <= MAX_GAP && High(trace[n]) == High(trace[n - 1]) { i := i0; }
    }
  }

  /** A run that ends with the last sample is no longer than the remembered one. */
  lemma {:induction false} LongestRun(trace: seq<Sample>, i: nat, k: nat, high: bool)
    requires LastRun(trace, i) && IsRun(trace, k, |trace| - 1, high)
    ensures high == High(trace[|trace| - 1]) && i <= k
  {
    assert k < i ==> Close(trace, i);
  }

  lemma ReachesThreshold(trace: seq<Sample>)
    requires trace != [] && NonDecreasing(trace)
    ensures var n := |trace| - 1; var m := After(trace[..n]);
            && (RaisedAt(trace, n) <==> High(trace[n]) && trace[n].at - After(trace).runStart.value >= RAISE_AFTER)
            && (ClearedAt(trace, n) <==> !High(trace[n]) && trace[n].at - After(trace).belowSince.value >= CLEAR_AFTER)
  {
    var n := |trace| - 1;
    var i := RememberedStart(trace);
    if RaisedAt(trace, n) {
      var k: nat :| IsRun(trace, k, n, true) && trace[n].at - trace[k].at >= RAISE_AFTER;
      LongestRun(trace, i, k, true);
    }
    if ClearedAt(trace, n) {
      var k: nat :| IsRun(trace, k, n, false) && trace[n].at - trace[k].at >= CLEAR_AFTER;
      LongestRun(trace, i, k, false);
    }
  }

  lemma SameRun(trace: seq<Sample>, init: seq<Sample>, i: nat, j: nat, high: bool)
    requires j < |init| <= |trace| && init == trace[..|init|] && i <= j
    ensures IsRun(trace, i, j, high) <==> IsRun(init, i, j, high)
  {
    forall k | i < k <= j ensures Close(trace, k) <==> Close(init, k) {}
  }

  /** A run that has ended is a run of every prefix that contains it. */
  lemma PrefixRun(trace: seq<Sample>, n: nat, j: nat, high: bool, span: int)
    requires j < n <= |trace|
    ensures LongRun(trace, j, high, span) <==> LongRun(trace[..n], j, high, span)
  {
    forall i: nat | i <= j ensures IsRun(trace, i, j, high) <==> IsRun(trace[..n], i, j, high) {
      SameRun(trace, trace[..n], i, j, high);
    }
  }

  lemma PrefixRuns(trace: seq<Sample>, n: nat, j: nat)
    requires j < n <= |trace|
    ensures RaisedAt(trace, j) <==> RaisedAt(trace[..n], j)
    ensures ClearedAt(trace, j) <==> ClearedAt(trace[..n], j)
  {
    PrefixRun(trace, n, j, true, RAISE_AFTER);
    PrefixRun(trace, n, j, false, CLEAR_AFTER);
  }

  /** The condition is active exactly when a long enough run raised it and no long enough run below has ended since. */
  lemma {:induction false} ActiveIffRaised(trace: seq<Sample>)
    requires NonDecreasing(trace)
    ensures After(trace).active <==> Raised(trace)
  {
    if trace != [] {
      var n := |trace| - 1;
      var init := trace[..n];
      ActiveIffRaised(init);
      ReachesThreshold(trace);
      var i := RememberedStart(trace);
      RaisedNext(trace, init);
    }
  }

  lemma RaisedNext(trace: seq<Sample>, init: seq<Sample>)
    requires trace != [] && init == trace[..|trace| - 1]
    ensures var n := |trace| - 1;
            Raised(trace) <==> RaisedAt(trace, n) || (Raised(init) && !ClearedAt(trace, n))
  {
    var n := |trace| - 1;
    forall j: nat | j < n ensures Raises(trace)(j) == Raises(init)(j) && Clears(trace)(j) == Clears(init)(j) {
      PrefixRuns(trace, n, j);
    }
    LastRaised(n, Raises(trace), Clears(trace), Raises(init), Clears(init));
  }

  lemma LastRaised(n: nat, raise: nat -> bool, clear: nat -> bool, raise0: nat -> bool, clear0: nat -> bool)
    requires forall j: nat :: j < n ==> raise(j) == raise0(j) && clear(j) == clear0(j)
    ensures RaisedLast(n + 1, raise, clear) <==> raise(n) || (RaisedLast(n, raise0, clear0) && !clear(n))
  {
  }

  /** Active with the first `n` samples. */
  ghost predicate ActiveAt(trace: seq<Sample>, n: nat) {
    n <= |trace| && After(trace[..n]).active
  }

  /** Once raised, the condition stays up for at least five minutes. */
  lemma StaysUp(trace: seq<Sample>, j: nat, l: nat)
    requires NonDecreasing(trace) && j < l < |trace|
    requires !ActiveAt(trace, j) && ActiveAt(trace, j + 1) && !ActiveAt(trace, l + 1)
    ensures trace[l].at - trace[j].at >= CLEAR_AFTER
  {
    RaiseNeedsRun(trace, j);
    var k := OffAgain(trace, j, l);
    var i: nat :| IsRun(trace, i, k, false) && trace[k].at - trace[i].at >= CLEAR_AFTER;
  }

  lemma Turns(trace: seq<Sample>)
    requires trace != [] && NonDecreasing(trace)
    ensures var n := |trace| - 1; var (before, now) := (After(trace[..n]).active, After(trace).active);
            && (!before && now ==> RaisedAt(trace, n) && High(trace[n]))
            && (before && !now ==> ClearedAt(trace, n) && !High(trace[n]))
  {
    ReachesThreshold(trace);
  }

  /** A sample that turns the condition on ends a raising run. */
  lemma RaiseNeedsRun(trace: seq<Sample>, j: nat)
    requires NonDecreasing(trace) && j < |trace| && !ActiveAt(trace, j) && ActiveAt(trace, j + 1)
    ensures RaisedAt(trace, j) && High(trace[j])
  {
    var upTo := trace[..j + 1];
    assert upTo[..j] == trace[..j];
    Turns(upTo);
    PrefixRuns(trace, j + 1, j);
  }

  /** A sample that turns the condition off ends a clearing run. */
  lemma ClearNeedsRun(trace: seq<Sample>, l: nat)
    requires NonDecreasing(trace) && l < |trace| && ActiveAt(trace, l) && !ActiveAt(trace, l + 1)
    ensures ClearedAt(trace, l) && !High(trace[l])
  {
    var upTo := trace[..l + 1];
    assert upTo[..l] == trace[..l];
    Turns(upTo);
    PrefixRuns(trace, l + 1, l);
  }

  /** A condition that went off again saw a clearing run end in between. */
  lemma {:induction false} OffAgain(trace: seq<Sample>, j: nat, l: nat) returns (k: nat)
    requires NonDecreasing(trace) && j < l < |trace| && ActiveAt(trace, j + 1) && !ActiveAt(trace, l + 1)
    ensures j < k <= l && ClearedAt(trace, k)
  {
    if ActiveAt(trace, l) {
      ClearNeedsRun(trace, l);
      k := l;
    } else {
      k := OffAgain(trace, j, l - 1);
    }
  }

  /** A condition that came on again saw a raising run end in between. */
  lemma {:induction false} OnAgain(trace: seq<Sample>, l: nat, m: nat) returns (k: nat)
    requires NonDecreasing(trace) && l < m < |trace| && !ActiveAt(trace, l + 1) && ActiveAt(trace, m + 1)
    ensures l < k <= m && RaisedAt(trace, k)
  {
    if ActiveAt(trace, m) {
      k := OnAgain(trace, l, m - 1);
    } else {
      RaiseNeedsRun(trace, m);
      k := m;
    }
  }

  /** Once cleared, the condition stays down for at least ten minutes. */
  lemma StaysDown(trace: seq<Sample>, l: nat, m: nat)
    requires NonDecreasing(trace) && l < m < |trace|
    requires ActiveAt(trace, l) && !ActiveAt(trace, l + 1) && ActiveAt(trace, m + 1)
    ensures trace[m].at - trace[l].at >= RAISE_AFTER
  {
    ClearNeedsRun(trace, l);
    var k := OnAgain(trace, l, m);
    var i: nat :| IsRun(trace, i, k, true) && trace[k].at - trace[i].at >= RAISE_AFTER;
  }
}
