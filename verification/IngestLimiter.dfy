/** The token bucket in front of the ingest server: what any span of calls gets, and when a refusal is justified. */
module IngestLimiter {

  /** Times are in nanoseconds. */
  const SECOND := 1_000_000_000

  /** The tokens left and the time of the last call. The rate is also the capacity. */
  datatype Bucket = Bucket(tokens: real, last: int)

  function Min(a: real, b: real): real {
    if a < b then a else b
  }

  function Seconds(from: int, to: int): real {
    (to - from) as real / SECOND as real
  }

  /** What `rps` tokens a second make of a time span. */
  function Earned(rps: real, from: int, to: int): real {
    rps * Seconds(from, to)
  }

  function Refilled(rps: real, b: Bucket, now: int): real {
    Min(rps, b.tokens + Earned(rps, b.last, now))
  }

  predicate Allows(rps: real, b: Bucket, now: int) {
    Refilled(rps, b, now) >= 1.0
  }

  function Next(rps: real, b: Bucket, now: int): Bucket {
    Bucket(Refilled(rps, b, now) - if Allows(rps, b, now) then 1.0 else 0.0, now)
  }

  /** The bucket after calls at the given times. */
  function After(rps: real, b: Bucket, times: seq<int>): Bucket {
    if times == [] then b else Next(rps, After(rps, b, times[..|times| - 1]), times[|times| - 1])
  }

  /** How many of the calls are allowed. */
  function Allowed(rps: real, b: Bucket, times: seq<int>): nat {
    if times == [] then 0
    else
      var init := times[..|times| - 1];
      Allowed(rps, b, init) + if Allows(rps, After(rps, b, init), times[|times| - 1]) then 1 else 0
  }

  predicate Ordered(times: seq<int>) {
    forall i, j :: 0 <= i < j < |times| ==> times[i] <= times[j]
  }

  /** A clock that does not go back: no call before the last one. */
  predicate From(b: Bucket, times: seq<int>) {
    Ordered(times) && (times != [] ==> b.last <= times[0])
  }

  predicate InRange(rps: real, b: Bucket) {
    0.0 <= b.tokens <= rps
  }

  lemma EarnedAdds(rps: real, a: int, b: int, c: int)
    ensures Earned(rps, a, b) + Earned(rps, b, c) == Earned(rps, a, c)
  {
    assert Seconds(a, b) + Seconds(b, c) == Seconds(a, c);
    assert rps * (Seconds(a, b) + Seconds(b, c)) == rps * Seconds(a, b) + rps * Seconds(b, c);
  }

  /** The tokens never leave their range, and the bucket remembers the last call. */
  lemma {:induction false} AfterInRange(rps: real, b: Bucket, times: seq<int>)
    requires rps > 0.0 && InRange(rps, b) && From(b, times)
    ensures InRange(rps, After(rps, b, times))
    ensures After(rps, b, times).last == if times == [] then b.last else times[|times| - 1]
  {
    if times != [] {
      var n := |times| - 1;
      AfterInRange(rps, b, times[..n]);
      if n > 0 { assert times[..n][n - 1] <= times[n]; }
    }
  }

  lemma {:induction false} Paid(rps: real, b: Bucket, times: seq<int>)
    requires rps > 0.0 && InRange(rps, b) && From(b, times) && times != []
    ensures After(rps, b, times).tokens + Allowed(rps, b, times) as real
            <= rps + Earned(rps, times[0], times[|times| - 1])
  {
    var n := |times| - 1;
    var (init, now) := (times[..n], times[n]);
    if n > 0 {
      Paid(rps, b, init);
      AfterInRange(rps, b, init);
      EarnedAdds(rps, times[0], init[n - 1], now);
    } else {
      assert init == [];
    }
  }

  lemma {:induction false} AllowedSplits(rps: real, b: Bucket, times: seq<int>, i: nat)
    requires i <= |times|
    ensures After(rps, b, times) == After(rps, After(rps, b, times[..i]), times[i..])
    ensures Allowed(rps, b, times) == Allowed(rps, b, times[..i]) + Allowed(rps, After(rps, b, times[..i]), times[i..])
  {
    var n := |times| - 1;
    if i == |times| {
      assert times[..i] == times;
    } else {
      AllowedSplits(rps, b, times[..n], i);
      assert times[..n][..i] == times[..i] && times[..n][i..] == times[i..][..n - i];
    }
  }

  lemma FromLater(b: Bucket, times: seq<int>, i: nat, j: nat)
    requires From(b, times) && i < j <= |times|
    ensures From(Bucket(0.0, if i == 0 then b.last else times[i - 1]), times[i..j]) && From(b, times[..i])
  {
  }

  lemma SpanEarns(rps: real, start: int, times: seq<int>, i: nat, j: nat)
    requires rps > 0.0 && i < j <= |times| && From(Bucket(rps, start), times)
    ensures var b := Bucket(rps, start);
            (Allowed(rps, b, times[..j]) - Allowed(rps, b, times[..i])) as real
              <= rps + Earned(rps, times[i], times[j - 1])
  {
    var b := Bucket(rps, start);
    FromLater(b, times, i, j);
    AfterInRange(rps, b, times[..i]);
    AllowedSplits(rps, b, times[..j], i);
    assert times[..j][..i] == times[..i] && times[..j][i..] == times[i..j];
    Paid(rps, After(rps, b, times[..i]), times[i..j]);
    AfterInRange(rps, After(rps, b, times[..i]), times[i..j]);
  }

  /** The capacity, and the rate for every second of the span. */
  ghost predicate Within(rps: real, n: int, span: int) {
    n as real <= rps + rps * (span as real / 1_000_000_000.0)
  }

  lemma EarnedWithin(rps: real, n: int, from: int, to: int)
    ensures n as real <= rps + Earned(rps, from, to) <==> Within(rps, n, to - from)
  {
  }

  /** Of a server's whole run, calls `i` to `j` get at most the capacity and the rate times the length of their span. */
  lemma EverySpanBound(rps: real, start: int, times: seq<int>, i: nat, j: nat)
    requires rps > 0.0 && i < j <= |times| && From(Bucket(rps, start), times)
    ensures var b := Bucket(rps, start);
            Within(rps, Allowed(rps, b, times[..j]) - Allowed(rps, b, times[..i]), times[j - 1] - times[i])
  {
    var b := Bucket(rps, start);
    SpanEarns(rps, start, times, i, j);
    EarnedWithin(rps, Allowed(rps, b, times[..j]) - Allowed(rps, b, times[..i]), times[i], times[j - 1]);
  }

  /** The tokens are those of a bucket that was full at time `x`, before call number `k`. */
  ghost predicate FullAt(rps: real, b: Bucket, times: seq<int>, k: nat, x: int) {
    && k <= |times| && (if k == 0 && x == b.last then true else k < |times| && x == times[k])
    && var after := After(rps, b, times);
       after.tokens == rps + Earned(rps, x, after.last) - (Allowed(rps, b, times) - Allowed(rps, b, times[..k])) as real
  }

  lemma {:induction false} LastFull(rps: real, start: int, times: seq<int>) returns (k: nat, x: int)
    requires rps > 0.0 && From(Bucket(rps, start), times)
    ensures FullAt(rps, Bucket(rps, start), times, k, x)
  {
    var b := Bucket(rps, start);
    if times == [] {
      k, x := 0, start;
    } else {
      var n := |times| - 1;
      var (init, now) := (times[..n], times[n]);
      var before := After(rps, b, init);
      if before.tokens + Earned(rps, before.last, now) < rps {
        k, x := LastFull(rps, start, init);
        assert times[..k] == init[..k];
        EarnedAdds(rps, x, before.last, now);
      } else {
        k, x := n, now;
      }
    }
  }

  lemma RefusalFollows(rps: real, start: int, times: seq<int>, now: int) returns (k: nat, x: int)
    requires rps >= 1.0 && From(Bucket(rps, start), times + [now])
    requires !Allows(rps, After(rps, Bucket(rps, start), times), now)
    ensures k <= |times| && (if k == 0 && x == start then true else k < |times| && x == times[k])
    ensures var b := Bucket(rps, start);
            (Allowed(rps, b, times) - Allowed(rps, b, times[..k])) as real > rps + Earned(rps, x, now) - 1.0
  {
    var b := Bucket(rps, start);
    assert (times + [now])[..|times|] == times;
    assert From(b, times) by {
      assert forall i :: 0 <= i < |times| ==> times[i] == (times + [now])[i];
    }
    k, x := LastFull(rps, start, times);
    EarnedAdds(rps, x, After(rps, b, times).last, now);
  }

  /** A call is refused only when, with one request more, some span up to it would have had more than it may get. */
  lemma RefusalIsJustified(rps: real, start: int, times: seq<int>, now: int) returns (k: nat, x: int)
    requires rps >= 1.0 && From(Bucket(rps, start), times + [now])
    requires !Allows(rps, After(rps, Bucket(rps, start), times), now)
    ensures k <= |times| && (if k == 0 && x == start then true else k < |times| && x == times[k])
    ensures var b := Bucket(rps, start);
            !Within(rps, Allowed(rps, b, times) - Allowed(rps, b, times[..k]) + 1, now - x)
  {
    var b := Bucket(rps, start);
    k, x := RefusalFollows(rps, start, times, now);
    EarnedWithin(rps, Allowed(rps, b, times) - Allowed(rps, b, times[..k]) + 1, x, now);
  }

  lemma {:induction false} BelowOne(rps: real, b: Bucket, times: seq<int>)
    requires rps < 1.0
    ensures Allowed(rps, b, times) == 0
  {
    if times != [] { BelowOne(rps, b, times[..|times| - 1]); }
  }

  /**
   * A rate below one request a second, which the setting accepts, lets nothing through; any other serves the first
   * call.
   */
  lemma ServesAnything(rps: real, start: int)
    requires rps > 0.0
    ensures (exists times :: From(Bucket(rps, start), times) && Allowed(rps, Bucket(rps, start), times) > 0) <==>
            rps >= 1.0
  {
    var b := Bucket(rps, start);
    if rps < 1.0 {
      forall times ensures Allowed(rps, b, times) == 0 { BelowOne(rps, b, times); }
    } else {
      var times := [start];
      assert times[..0] == [];
      assert From(b, times) && Allowed(rps, b, times) == 1;
    }
  }

  lemma OneMore(rps: real, b: Bucket, times: seq<int>, now: int)
    requires From(b, times) && (if times == [] then b.last else times[|times| - 1]) <= now
    ensures From(b, times + [now]) && After(rps, b, times + [now]) == Next(rps, After(rps, b, times), now)
    ensures Allowed(rps, b, times + [now]) == Allowed(rps, b, times)
            + if Allows(rps, After(rps, b, times), now) then 1 else 0
  {
    assert (times + [now])[..|times|] == times;
  }

  class RateLimiter {
    var tokens: real
    const capacity: real
    const refillPS: real
    var last: int
    const start: int
    ghost var calls: seq<int>

    ghost predicate Valid()
      reads this
    {
      && capacity == refillPS > 0.0
      && From(Bucket(capacity, start), calls)
      && Bucket(tokens, last) == After(capacity, Bucket(capacity, start), calls)
    }

    constructor (setting: real, now: int)
      ensures Valid() && calls == [] && start == now && capacity == if setting > 0.0 then setting else 1000.0
    {
      var rps := if setting > 0.0 then setting else 1000.0;
      tokens, capacity, refillPS, last, start, calls := rps, rps, rps, now, now, [];
    }

    /** A call is answered as the run of all calls so far says. */
    method Allow(now: int) returns (ok: bool)
      requires Valid() && last <= now
      modifies this
      ensures Valid() && calls == old(calls) + [now] && last == now
      ensures var b := Bucket(capacity, start);
              Allowed(capacity, b, calls) == Allowed(capacity, b, old(calls)) + if ok then 1 else 0
    {
      AfterInRange(capacity, Bucket(capacity, start), calls);
      OneMore(capacity, Bucket(capacity, start), calls, now);
      calls := calls + [now];
      tokens := Refilled(capacity, Bucket(tokens, last), now);
      last := now;
      if tokens < 1.0 { return false; }
      tokens := tokens - 1.0;
      ok := true;
    }
  }
}
