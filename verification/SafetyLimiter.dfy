/** The limit on Tier-1 actions per host and hour: what it allows within any hour, and when that is what it promises. */
module SafetyLimiter {
  import opened Options

  /** Times are in nanoseconds. */
  const HOUR := 3600 * 1_000_000_000
  const DEFAULT_MAX := 6

  datatype Tier = Tier1 | Tier2 | Tier3

  /** The start of a host's window and the actions allowed in it. */
  datatype Window = Window(start: int, count: int)

  /** The window a call counts in: a new one when the last is more than an hour old. */
  function Current(w: Option<Window>, now: int): Window {
    if w.None? || now - w.value.start > HOUR then Window(now, 0) else w.value
  }

  predicate Allows(max: int, w: Option<Window>, now: int) {
    Current(w, now).count < max
  }

  function Next(max: int, w: Option<Window>, now: int): Option<Window> {
    var c := Current(w, now);
    Some(if c.count < max then Window(c.start, c.count + 1) else c)
  }

  /** What happens to one host: a Tier-1 call, or a reset. */
  datatype Event = Call(at: int) | Reset

  function Apply(max: int, w: Option<Window>, e: Event): Option<Window> {
    match e
    case Call(at) => Next(max, w, at)
    case Reset => None
  }

  function After(max: int, w: Option<Window>, events: seq<Event>): Option<Window> {
    if events == [] then w else Apply(max, After(max, w, events[..|events| - 1]), events[|events| - 1])
  }

  predicate Lets(max: int, w: Option<Window>, e: Event) {
    e.Call? && Allows(max, w, e.at)
  }

  function Allowed(max: int, w: Option<Window>, events: seq<Event>): nat {
    if events == [] then 0
    else
      var init := events[..|events| - 1];
      Allowed(max, w, init) + if Lets(max, After(max, w, init), events[|events| - 1]) then 1 else 0
  }

  /** Calls whose times lie between two times and do not go back. */
  predicate Calls(events: seq<Event>, from: int, to: int) {
    && (forall i :: 0 <= i < |events| ==> events[i].Call? && from <= events[i].at <= to)
    && forall i, j :: 0 <= i < j < |events| ==> events[i].Call? && events[j].Call? && events[i].at <= events[j].at
  }

  /** A window that exists counts at least the call that opened it. */
  predicate Counted(max: int, w: Option<Window>) {
    w.Some? ==> (if max >= 1 then 1 <= w.value.count <= max else w.value.count == 0)
  }

  lemma {:induction false} AfterCounts(max: int, w: Option<Window>, events: seq<Event>)
    requires Counted(max, w)
    ensures Counted(max, After(max, w, events))
  {
    if events != [] { AfterCounts(max, w, events[..|events| - 1]); }
  }

  /** Within an hour, the calls either all count in the window they found, or a second one was opened among them. */
  lemma {:induction false} WithinHour(max: int, w: Option<Window>, events: seq<Event>, from: int)
    requires max >= 1 && Counted(max, w) && (w.Some? ==> w.value.start <= from) && Calls(events, from, from + HOUR)
    ensures var n := Allowed(max, w, events); var a := After(max, w, events);
            if a.None? then n == 0
            else if w.Some? && a.value.start == w.value.start then n == a.value.count - w.value.count
            else a.value.start >= from && n <= a.value.count + if w.Some? then max - w.value.count else 0
  {
    if events != [] {
      var n := |events| - 1;
      WithinHour(max, w, events[..n], from);
      AfterCounts(max, w, events[..n]);
    }
  }

  /** Calls within an hour get at most 2 max - 1 actions. */
  lemma HourBound(max: int, w: Option<Window>, events: seq<Event>, from: int)
    requires max >= 1 && Counted(max, w) && (w.Some? ==> w.value.start <= from) && Calls(events, from, from + HOUR)
    ensures Allowed(max, w, events) <= 2 * max - 1
  {
    WithinHour(max, w, events, from);
    AfterCounts(max, w, events);
  }

  /** No window starts after the last call. */
  predicate Past(events: seq<Event>, to: int) {
    forall i :: 0 <= i < |events| && events[i].Call? ==> events[i].at <= to
  }

  lemma {:induction false} AfterStarts(max: int, events: seq<Event>, to: int)
    requires Past(events, to)
    ensures var a := After(max, None, events); a.Some? ==> a.value.start <= to
  {
    if events != [] {
      var n := |events| - 1;
      assert Past(events[..n], to);
      AfterStarts(max, events[..n], to);
    }
  }

  lemma JoinedInit(before: seq<Event>, events: seq<Event>)
    requires events != []
    ensures var all := before + events;
            all != [] && all[..|all| - 1] == before + events[..|events| - 1] && all[|all| - 1] == events[|events| - 1]
  {
  }

  lemma {:induction false} AfterSplits(max: int, w: Option<Window>, before: seq<Event>, events: seq<Event>)
    ensures After(max, w, before + events) == After(max, After(max, w, before), events)
  {
    if events == [] {
      assert before + events == before;
    } else {
      JoinedInit(before, events);
      AfterSplits(max, w, before, events[..|events| - 1]);
    }
  }

  lemma {:induction false} Splits(max: int, w: Option<Window>, before: seq<Event>, events: seq<Event>)
    ensures Allowed(max, w, before + events) == Allowed(max, w, before) + Allowed(max, After(max, w, before), events)
  {
    if events == [] {
      assert before + events == before;
    } else {
      var init := events[..|events| - 1];
      JoinedInit(before, events);
      Splits(max, w, before, init);
      AfterSplits(max, w, before, init);
    }
  }

  /** Over any history of calls and resets, the calls of any hour without a reset get at most 2 max - 1 actions. */
  lemma EveryHourBound(max: int, before: seq<Event>, events: seq<Event>, from: int)
    requires max >= 1 && Past(before, from) && Calls(events, from, from + 3_600_000_000_000)
    ensures Allowed(max, None, before + events) - Allowed(max, None, before) <= 2 * max - 1
  {
    AfterCounts(max, None, before);
    AfterStarts(max, before, from);
    Splits(max, None, before, events);
    HourBound(max, After(max, None, before), events, from);
  }

  /** A limit of zero or less lets nothing through, ever. */
  lemma {:induction false} NothingAllowed(max: int, w: Option<Window>, events: seq<Event>)
    requires max <= 0 && Counted(max, w)
    ensures Allowed(max, w, events) == 0
  {
    if events != [] {
      NothingAllowed(max, w, events[..|events| - 1]);
      AfterCounts(max, w, events[..|events| - 1]);
    }
  }

  // ---- The bound is reached ----

  function Repeated(at: int, n: nat): seq<Event> {
    seq(n, _ => Call(at))
  }

  /** Calls at one time inside the window fill it up. */
  lemma {:induction false} Fills(max: int, w: Window, at: int, n: nat)
    requires at - w.start <= HOUR && w.count + n <= max
    ensures After(max, Some(w), Repeated(at, n)) == Some(Window(w.start, w.count + n))
    ensures Allowed(max, Some(w), Repeated(at, n)) == n
  {
    if n > 0 {
      Fills(max, w, at, n - 1);
      assert Repeated(at, n)[..n - 1] == Repeated(at, n - 1);
    }
  }

  /** Calls at a time after the window fill a new one. */
  lemma {:induction false} FillsNew(max: int, w: Window, at: int, n: nat)
    requires at - w.start > HOUR && 1 <= n <= max
    ensures After(max, Some(w), Repeated(at, n)) == Some(Window(at, n)) && Allowed(max, Some(w), Repeated(at, n)) == n
  {
    assert Repeated(at, n)[..n - 1] == Repeated(at, n - 1);
    if n > 1 { FillsNew(max, w, at, n - 1); }
  }

  function Opening(): seq<Event> { [Call(0)] }

  /** One call, the rest of its window an hour later, and a full new window a nanosecond after that. */
  lemma BoundReached(max: int)
    requires max >= 1
    ensures var events := Repeated(HOUR, max - 1) + Repeated(HOUR + 1, max);
            && Past(Opening(), HOUR) && Calls(events, HOUR, HOUR + 1)
            && Allowed(max, None, Opening() + events) - Allowed(max, None, Opening()) == 2 * max - 1
  {
    var (first, second) := (Repeated(HOUR, max - 1), Repeated(HOUR + 1, max));
    assert Opening()[..0] == [];
    assert After(max, None, Opening()) == Some(Window(0, 1));
    Fills(max, Window(0, 1), HOUR, max - 1);
    FillsNew(max, Window(0, max), HOUR + 1, max);
    Splits(max, None, Opening(), first + second);
    Splits(max, Some(Window(0, 1)), first, second);
  }

  /** The limit per hour that the setting's name promises holds for a setting of one, and for no larger one. */
  lemma PromiseKept(max: int)
    requires max >= 1
    ensures (forall before, events, from :: Past(before, from) && Calls(events, from, from + 3_600_000_000_000) ==>
               Allowed(max, None, before + events) - Allowed(max, None, before) <= max) <==> max == 1
  {
    var events := Repeated(HOUR, max - 1) + Repeated(HOUR + 1, max);
    BoundReached(max);
    assert Calls(events, HOUR, HOUR + HOUR);
    if max == 1 {
      forall before, es, from | Past(before, from) && Calls(es, from, from + HOUR)
        ensures Allowed(max, None, before + es) - Allowed(max, None, before) <= max
      {
        EveryHourBound(max, before, es, from);
      }
    }
  }

  // ---- The limiter ----

  function Held(state: map<string, Window>, host: string): Option<Window> {
    if host in state then Some(state[host]) else None
  }

  ghost function Log(logs: map<string, seq<Event>>, host: string): seq<Event> {
    if host in logs then logs[host] else []
  }

  class Limiter {
    const maxPerHour: int
    var state: map<string, Window>
    /** Every Tier-1 call and reset of each host. */
    ghost var logs: map<string, seq<Event>>

    ghost predicate Valid()
      reads this
    {
      forall h :: Held(state, h) == After(maxPerHour, None, Log(logs, h))
    }

    constructor (maxPerHour: int)
      ensures Valid() && logs == map[] && this.maxPerHour == if maxPerHour == 0 then DEFAULT_MAX else maxPerHour
    {
      this.maxPerHour := if maxPerHour == 0 then DEFAULT_MAX else maxPerHour;
      state, logs := map[], map[];
    }

    /** Only Tier-1 calls are limited; each is answered as its host's whole history says. */
    method Allow(host: string, tier: Tier, now: int) returns (ok: bool)
      requires Valid()
      modifies this
      ensures Valid()
      ensures tier != Tier1 ==> ok && logs == old(logs)
      ensures tier == Tier1 ==> logs == old(logs)[host := Log(old(logs), host) + [Call(now)]]
      ensures tier == Tier1 ==>
                Allowed(maxPerHour, None, Log(logs, host)) == Allowed(maxPerHour, None, Log(old(logs), host))
                  + if ok then 1 else 0
    {
      if tier != Tier1 { return true; }
      ghost var log := Log(logs, host);
      assert Held(state, host) == After(maxPerHour, None, log);
      var w := Current(Held(state, host), now);
      ok := w.count < maxPerHour;
      if ok { w := Window(w.start, w.count + 1); }
      Put(host, Some(w), log + [Call(now)]);
    }

    method Put(host: string, w: Option<Window>, ghost log: seq<Event>)
      requires Valid() && w == After(maxPerHour, None, log)
      modifies this
      ensures Valid() && logs == old(logs)[host := log]
    {
      state := if w.Some? then state[host := w.value] else state - {host};
      logs := logs[host := log];
      assert Held(state, host) == w && Log(logs, host) == log;
      assert forall h :: h != host ==> Log(logs, h) == Log(old(logs), h) && Held(state, h) == Held(old(state), h);
    }

    method Reset(host: string)
      requires Valid()
      modifies this
      ensures Valid() && logs == old(logs)[host := Log(old(logs), host) + [Event.Reset]]
    {
      Put(host, None, Log(logs, host) + [Event.Reset]);
    }
  }
}
