/**
 * Per-second rates of cumulative counters, answered from a pruned history. The reference definition looks at every
 * sample since the last counter reset.
 */
module CounterRates {
  import opened Options

  /** Times are in nanoseconds. */
  const SECOND := 1_000_000_000
  const WINDOW := 300 * SECOND

  datatype Sample = Sample(value: real, ts: int)

  /** One more sample: a fall in value starts over. */
  function Continued(r: seq<Sample>, x: Sample): seq<Sample> {
    if r != [] && x.value < r[|r| - 1].value then [x] else r + [x]
  }

  /** The samples since the last counter reset, the sample that showed the reset included. */
  function SinceReset(trace: seq<Sample>): (r: seq<Sample>)
    ensures |r| <= |trace| && (trace != [] ==> r != [] && r[|r| - 1] == trace[|trace| - 1])
  {
    if trace == [] then [] else Continued(SinceReset(trace[..|trace| - 1]), trace[|trace| - 1])
  }

  /** The newest sample that is not after `cutoff`. */
  function NewestBy(samples: seq<Sample>, cutoff: int): (r: Option<Sample>) {
    if samples == [] then None
    else
      var x := samples[|samples| - 1];
      if x.ts <= cutoff then Some(x) else NewestBy(samples[..|samples| - 1], cutoff)
  }

  function Slope(base: Sample, x: Sample): real
    requires base.ts < x.ts
  {
    (x.value - base.value) / ((x.ts - base.ts) as real / SECOND as real)
  }

  function RateFrom(base: Option<Sample>, x: Sample): Option<real> {
    if base.Some? && base.value.ts < x.ts then Some(Slope(base.value, x)) else None
  }

  /** The rate at `x`: the slope from the newest sample of at least the window's age. */
  function RateAt(since: seq<Sample>, x: Sample): Option<real> {
    RateFrom(NewestBy(since, x.ts - WINDOW), x)
  }

  /** The rate at the last sample of a whole trace. */
  function RateOf(trace: seq<Sample>): Option<real>
    requires trace != []
  {
    RateAt(SinceReset(trace), trace[|trace| - 1])
  }

  predicate Increasing(s: seq<Sample>) {
    forall i, j :: 0 <= i < j < |s| ==> s[i].ts < s[j].ts
  }

  predicate Rising(s: seq<Sample>) {
    forall i, j :: 0 <= i < j < |s| ==> s[i].value <= s[j].value
  }

  // ---- The reference definition ----

  ghost predicate IsSuffix(r: seq<Sample>, s: seq<Sample>) {
    |r| <= |s| && r == s[|s| - |r|..]
  }

  /** Unless it is the whole trace, `r` starts with a fall in value. */
  ghost predicate StartsAtFall(r: seq<Sample>, trace: seq<Sample>) {
    0 < |r| < |trace| ==> r[0].value < trace[|trace| - |r| - 1].value
  }

  lemma SuffixContinued(r: seq<Sample>, trace: seq<Sample>, x: Sample)
    ensures IsSuffix(r, trace) ==> IsSuffix(Continued(r, x), trace + [x])
  {
  }

  lemma FallContinued(r: seq<Sample>, trace: seq<Sample>, x: Sample)
    requires StartsAtFall(r, trace) && |r| <= |trace| && (trace != [] ==> r != [] && r[|r| - 1] == trace[|trace| - 1])
    ensures StartsAtFall(Continued(r, x), trace + [x])
  {
  }

  lemma {:induction false} SinceIsSuffix(trace: seq<Sample>)
    ensures IsSuffix(SinceReset(trace), trace)
  {
    if trace != [] {
      var (init, x) := (trace[..|trace| - 1], trace[|trace| - 1]);
      SinceIsSuffix(init);
      SuffixContinued(SinceReset(init), init, x);
      assert init + [x] == trace;
    }
  }

  lemma {:induction false} SinceRises(trace: seq<Sample>)
    ensures Rising(SinceReset(trace))
  {
    if trace != [] {
      var (init, x) := (trace[..|trace| - 1], trace[|trace| - 1]);
      SinceRises(init);
    }
  }

  lemma {:induction false} SinceStartsAtFall(trace: seq<Sample>)
    ensures StartsAtFall(SinceReset(trace), trace)
  {
    if trace != [] {
      var (init, x) := (trace[..|trace| - 1], trace[|trace| - 1]);
      SinceStartsAtFall(init);
      FallContinued(SinceReset(init), init, x);
      assert init + [x] == trace;
    }
  }

  /** The samples since the last reset are a suffix of the trace, never fall, and start right after a fall. */
  lemma SinceResetMeaning(trace: seq<Sample>)
    ensures var r := SinceReset(trace); IsSuffix(r, trace) && Rising(r) && StartsAtFall(r, trace)
  {
    SinceIsSuffix(trace);
    SinceRises(trace);
    SinceStartsAtFall(trace);
  }

  /** No sample after the one found is old enough, and none is found only when none is. */
  lemma {:induction false} NewestMeaning(s: seq<Sample>, cutoff: int)
    ensures match NewestBy(s, cutoff)
            case None => forall j :: 0 <= j < |s| ==> s[j].ts > cutoff
            case Some(x) =>
              exists i :: 0 <= i < |s| && s[i] == x && x.ts <= cutoff && forall j :: i < j < |s| ==> s[j].ts > cutoff
  {
    if s != [] {
      var n := |s| - 1;
      if s[n].ts > cutoff {
        NewestMeaning(s[..n], cutoff);
        if NewestBy(s, cutoff).Some? {
          var i :| 0 <= i < n && s[..n][i] == NewestBy(s, cutoff).value && s[i].ts <= cutoff
            && forall j :: i < j < n ==> s[..n][j].ts > cutoff;
          assert forall j :: i < j < |s| ==> j == n || s[j] == s[..n][j];
        }
      }
    }
  }

  lemma RisingRate(r: seq<Sample>, x: Sample)
    requires Rising(r) && r != [] && r[|r| - 1] == x && RateAt(r, x).Some?
    ensures RateAt(r, x).value >= 0.0
  {
    NewestMeaning(r, x.ts - WINDOW);
    var base := NewestBy(r, x.ts - WINDOW).value;
  }

  /** A rate is never negative. */
  lemma RateIsNonNegative(trace: seq<Sample>)
    requires trace != [] && RateOf(trace).Some?
    ensures RateOf(trace).value >= 0.0
  {
    SinceResetMeaning(trace);
    RisingRate(SinceReset(trace), trace[|trace| - 1]);
  }

  /** From `a` to `b` the counter grew by `r` a second. */
  ghost predicate Grew(a: Sample, b: Sample, r: real) {
    a.ts < b.ts && b.value - a.value == r * ((b.ts - a.ts) as real / 1_000_000_000.0)
  }

  ghost predicate Steady(trace: seq<Sample>, r: real) {
    forall i, j {:trigger Grew(trace[i], trace[j], r)} :: 0 <= i < j < |trace| ==> Grew(trace[i], trace[j], r)
  }

  lemma SteadyPair(trace: seq<Sample>, i: nat, j: nat, r: real)
    requires Steady(trace, r) && r >= 0.0 && i < j < |trace|
    ensures trace[i].ts < trace[j].ts && trace[i].value <= trace[j].value && Slope(trace[i], trace[j]) == r
  {
    assert Grew(trace[i], trace[j], r);
    SteadyRises(r, trace[i], trace[j]);
  }

  ghost predicate NeverFalls(trace: seq<Sample>) {
    forall i, j :: 0 <= i < j < |trace| ==> trace[i].value <= trace[j].value
  }

  lemma {:induction false} NeverResets(trace: seq<Sample>)
    requires NeverFalls(trace)
    ensures SinceReset(trace) == trace
  {
    if trace != [] {
      var n := |trace| - 1;
      NeverResets(trace[..n]);
      assert trace[..n] + [trace[n]] == trace;
    }
  }

  lemma SteadyNeverFalls(trace: seq<Sample>, r: real)
    requires Steady(trace, r) && r >= 0.0
    ensures NeverFalls(trace)
  {
    forall i, j | 0 <= i < j < |trace| ensures trace[i].value <= trace[j].value { SteadyPair(trace, i, j, r); }
  }

  lemma SteadyRises(r: real, a: Sample, b: Sample)
    requires r >= 0.0 && Grew(a, b, r)
    ensures a.value <= b.value && Slope(a, b) == r
  {
    var t := (b.ts - a.ts) as real / 1_000_000_000.0;
    assert t > 0.0 && r * t >= 0.0;
    assert r * t / t == r;
  }

  /** A counter that grows by `r` a second is answered `r` once five minutes are covered, and nothing before. */
  lemma SteadyRate(trace: seq<Sample>, r: real)
    requires trace != [] && Steady(trace, r) && r >= 0.0
    ensures RateOf(trace) == if trace[|trace| - 1].ts - trace[0].ts >= 300_000_000_000 then Some(r) else None
  {
    var n := |trace| - 1;
    var x := trace[n];
    SteadyNeverFalls(trace, r);
    NeverResets(trace);
    NewestMeaning(trace, x.ts - WINDOW);
    var base := NewestBy(trace, x.ts - WINDOW);
    if base.Some? {
      var i :| 0 <= i < |trace| && trace[i] == base.value;
      assert i < n;
      SteadyPair(trace, i, n, r);
      if i > 0 { SteadyPair(trace, 0, i, r); }
    }
  }

  // ---- Pruning ----

  /** A history keeps the end of the samples since the reset, and misses some only before one of the window's age. */
  ghost predicate Keeps(h: seq<Sample>, r: seq<Sample>) {
    && 0 < |h| <= |r| && h == r[|r| - |h|..]
    && (|h| < |r| ==> h[0].ts <= h[|h| - 1].ts - WINDOW)
  }

  /** What was pruned does not change the newest old sample. */
  lemma {:induction false} PrunedAlike(h: seq<Sample>, r: seq<Sample>, cutoff: int)
    requires 0 < |h| <= |r| && h == r[|r| - |h|..] && (|h| < |r| ==> h[0].ts <= cutoff)
    ensures NewestBy(h, cutoff) == NewestBy(r, cutoff)
  {
    if |h| < |r| && h[|h| - 1].ts > cutoff {
      var (k, n) := (|h| - 1, |r| - 1);
      assert r[..n][n - k..] == h[..k];
      PrunedAlike(h[..k], r[..n], cutoff);
    } else if |h| == |r| {
      assert h == r;
    }
  }

  /** Every sample after index `o` is too recent, so only index `o` can be the newest old one. */
  lemma {:induction false} NewestAt(h: seq<Sample>, o: nat, cutoff: int)
    requires o < |h| && (forall j :: o < j < |h| ==> h[j].ts > cutoff) && (o > 0 ==> h[o].ts <= cutoff)
    ensures NewestBy(h, cutoff) == if h[o].ts <= cutoff then Some(h[o]) else None
  {
    if o < |h| - 1 {
      NewestAt(h[..|h| - 1], o, cutoff);
    } else if h[o].ts > cutoff {
      assert h[..o] == [];
    }
  }

  /** What a history means: it keeps the end of increasing samples since the reset. */
  ghost predicate Sound(h: seq<Sample>, r: seq<Sample>) {
    Keeps(h, r) && Increasing(r)
  }

  /** Keeping one more sample, a reset having emptied the history. */
  lemma ContinuedKeeps(h: seq<Sample>, r: seq<Sample>, x: Sample)
    requires if r == [] then h == [] else Sound(h, r) && x.ts > r[|r| - 1].ts
    ensures Sound(Continued(h, x), Continued(r, x))
  {
    if r != [] && x.value >= r[|r| - 1].value {
      var (h', r') := (h + [x], r + [x]);
      assert h' == r'[|r'| - |h'|..];
      assert h'[0] == h[0];
    }
  }

  lemma PruneKeeps(h: seq<Sample>, r: seq<Sample>, o: nat)
    requires Sound(h, r) && o < |h| && (o > 0 ==> h[o].ts <= h[|h| - 1].ts - WINDOW)
    ensures Sound(h[o..], r)
  {
  }

  lemma RateAtOldest(h: seq<Sample>, r: seq<Sample>, o: nat, x: Sample)
    requires Sound(h, r) && x == h[|h| - 1] && o < |h| && (o > 0 ==> h[o].ts <= x.ts - WINDOW)
    requires forall j :: o < j < |h| ==> h[j].ts > x.ts - WINDOW
    ensures x.ts - h[o].ts >= WINDOW ==> h[o].ts < x.ts
    ensures RateAt(r, x) == if x.ts - h[o].ts < WINDOW then None else Some(Slope(h[o], x))
  {
    NewestAt(h, o, x.ts - WINDOW);
    PrunedAlike(h, r, x.ts - WINDOW);
  }

  /** Index of the sample the loop stops at. */
  method Oldest(h: seq<Sample>, cutoff: int) returns (o: nat)
    requires h != [] && Increasing(h)
    ensures o < |h| && (o > 0 ==> h[o].ts <= cutoff) && forall j :: o < j < |h| ==> h[j].ts > cutoff
  {
    o := 0;
    while o + 1 < |h| && h[o + 1].ts <= cutoff
      invariant o < |h| && (o > 0 ==> h[o].ts <= cutoff)
    {
      o := o + 1;
    }
  }

  /** Every history is sound for what `of` makes of the accepted samples of its counter. */
  ghost predicate AllSound(of: seq<Sample> -> seq<Sample>, history: map<string, seq<Sample>>,
                           traces: map<string, seq<Sample>>)
  {
    && history.Keys == traces.Keys
    && forall k {:trigger traces[k]} :: k in traces ==> SoundEntry(of, history[k], traces[k])
  }

  ghost predicate SoundEntry(of: seq<Sample> -> seq<Sample>, h: seq<Sample>, trace: seq<Sample>) {
    trace != [] && of(trace) != [] && of(trace)[|of(trace)| - 1] == trace[|trace| - 1] && Sound(h, of(trace))
  }

  lemma EntryAt(of: seq<Sample> -> seq<Sample>, history: map<string, seq<Sample>>, traces: map<string, seq<Sample>>,
                k: string)
    requires AllSound(of, history, traces) && k in traces
    ensures k in history && SoundEntry(of, history[k], traces[k]) && history[k] != []
    ensures history[k][|history[k]| - 1] == traces[k][|traces[k]| - 1]
  {
    assert traces[k] == traces[k];
  }

  class Counters {
    var history: map<string, seq<Sample>>
    /** Every accepted sample of a counter. */
    ghost var traces: map<string, seq<Sample>>

    ghost predicate Valid()
      reads this
    {
      AllSound(SinceReset, history, traces)
    }

    constructor ()
      ensures Valid() && traces == map[]
    {
      history, traces := map[], map[];
    }

    /** Appends a sample and prunes what the rate no longer needs. */
    static method Extend(h: seq<Sample>, ghost r: seq<Sample>, x: Sample)
      returns (kept: seq<Sample>, rate: Option<real>)
      requires if r == [] then h == [] else Sound(h, r) && x.ts > r[|r| - 1].ts
      ensures Sound(kept, Continued(r, x)) && rate == RateAt(Continued(r, x), x)
    {
      ContinuedKeeps(h, r, x);
      var all := Continued(h, x);
      var o := Oldest(all, x.ts - WINDOW);
      RateAtOldest(all, Continued(r, x), o, x);
      PruneKeeps(all, Continued(r, x), o);
      kept := all[o..];
      rate := if x.ts - kept[0].ts < WINDOW then None else Some(Slope(kept[0], x));
    }

    /** A sample that is not newer than the last is refused; any other is answered as its whole trace would be. */
    method Rate(key: string, value: real, ts: int) returns (rate: Option<real>)
      requires Valid()
      modifies this
      ensures Valid() && (rate.Some? ==> rate.value >= 0.0)
      ensures var trace := if key in old(traces) then old(traces)[key] else [];
              if trace != [] && ts <= trace[|trace| - 1].ts then rate.None? && traces == old(traces)
              else
                var longer := trace + [Sample(value, ts)];
                traces == old(traces)[key := longer] && rate == RateOf(longer)
    {
      ghost var trace := if key in traces then traces[key] else [];
      var h := if key in history then history[key] else [];
      if key in history { EntryAt(SinceReset, history, traces, key); }
      if h != [] && ts <= h[|h| - 1].ts { return None; }
      var x := Sample(value, ts);
      assert (trace + [x])[..|trace|] == trace;
      var kept, found := Extend(h, SinceReset(trace), x);
      rate := found;
      if rate.Some? { RateIsNonNegative(trace + [x]); }
      Put(key, kept, trace + [x], SinceReset);
    }

    method Put(key: string, h: seq<Sample>, ghost trace: seq<Sample>, ghost of: seq<Sample> -> seq<Sample>)
      requires AllSound(of, history, traces) && SoundEntry(of, h, trace)
      modifies this
      ensures AllSound(of, history, traces) && traces == old(traces)[key := trace]
    {
      history, traces := history[key := h], traces[key := trace];
    }
  }
}
