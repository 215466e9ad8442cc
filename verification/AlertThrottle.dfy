/** One alert per key and anomaly episode: what the throttle lets through, what it holds back, and for how long. */
module AlertThrottle {
  import opened Options

  /** Times are in nanoseconds. */
  const SECOND := 1_000_000_000
  const COOLDOWN := 300 * SECOND

  datatype Alert = Alert(critical: bool, ts: int)

  predicate Publishes(last: Option<Alert>, x: Alert) {
    var escalated := x.critical && (last.None? || !last.value.critical);
    last.None? || escalated || x.ts - last.value.ts >= COOLDOWN
  }

  function LastOf(published: seq<Alert>): Option<Alert> {
    if published == [] then None else Some(published[|published| - 1])
  }

  function Passed(published: seq<Alert>, x: Alert): seq<Alert> {
    if Publishes(LastOf(published), x) then published + [x] else published
  }

  /** The alerts published out of all alerts of one key. */
  function Published(alerts: seq<Alert>): seq<Alert> {
    if alerts == [] then [] else Passed(Published(alerts[..|alerts| - 1]), alerts[|alerts| - 1])
  }

  predicate Ordered(s: seq<Alert>) {
    forall i, j :: 0 <= i < j < |s| ==> s[i].ts <= s[j].ts
  }

  /** Each publication was due given the one before. */
  ghost predicate Due(s: seq<Alert>) {
    forall i {:trigger DueAt(s, i)} :: 0 <= i < |s| - 1 ==> DueAt(s, i)
  }

  ghost predicate DueAt(s: seq<Alert>, i: nat)
    requires i < |s| - 1
  {
    Publishes(Some(s[i]), s[i + 1])
  }

  ghost predicate NoLaterThan(s: seq<Alert>, ts: int) {
    forall i :: 0 <= i < |s| ==> s[i].ts <= ts
  }

  lemma PassedKeeps(published: seq<Alert>, x: Alert)
    requires Ordered(published) && Due(published) && NoLaterThan(published, x.ts)
    ensures Ordered(Passed(published, x)) && Due(Passed(published, x)) && NoLaterThan(Passed(published, x), x.ts)
  {
    var next := Passed(published, x);
    forall i | 0 <= i < |next| - 1 ensures DueAt(next, i) {
      if i < |published| - 1 { assert DueAt(published, i); }
    }
  }

  lemma {:induction false} PublishedKeeps(alerts: seq<Alert>)
    requires Ordered(alerts)
    ensures Ordered(Published(alerts)) && Due(Published(alerts))
    ensures alerts != [] ==> NoLaterThan(Published(alerts), alerts[|alerts| - 1].ts)
  {
    if alerts != [] {
      var n := |alerts| - 1;
      PublishedKeeps(alerts[..n]);
      if n > 0 { assert alerts[..n][n - 1].ts <= alerts[n].ts; }
      PassedKeeps(Published(alerts[..n]), alerts[n]);
    }
  }

  /** Any three consecutive publications of a key span at least five minutes. */
  lemma ThreeSpanCooldown(alerts: seq<Alert>, i: nat)
    requires Ordered(alerts) && i + 2 < |Published(alerts)|
    ensures Published(alerts)[i + 2].ts - Published(alerts)[i].ts >= 300_000_000_000
  {
    PublishedKeeps(alerts);
    var p := Published(alerts);
    assert DueAt(p, i) && DueAt(p, i + 1);
    assert p[i].ts <= p[i + 1].ts <= p[i + 2].ts;
  }

  /** Some publication stands for the alert: it is at least as severe and less than the cooldown older. */
  ghost predicate StoodFor(published: seq<Alert>, x: Alert) {
    exists p :: p in published && p.ts <= x.ts < p.ts + 300_000_000_000 && (x.critical ==> p.critical)
  }

  lemma PassedStandsFor(published: seq<Alert>, x: Alert)
    requires NoLaterThan(published, x.ts)
    ensures StoodFor(Passed(published, x), x)
  {
    var p := if Publishes(LastOf(published), x) then x else published[|published| - 1];
    assert p in Passed(published, x);
  }

  lemma StillStoodFor(published: seq<Alert>, x: Alert, y: Alert)
    requires StoodFor(published, x)
    ensures StoodFor(Passed(published, y), x)
  {
    var p :| p in published && p.ts <= x.ts < p.ts + 300_000_000_000 && (x.critical ==> p.critical);
    assert p in Passed(published, y);
  }

  /** No alert is lost: one of at least its severity was published less than the cooldown before it, or it was. */
  lemma {:induction false} NothingLost(alerts: seq<Alert>, i: nat)
    requires Ordered(alerts) && i < |alerts|
    ensures StoodFor(Published(alerts), alerts[i])
  {
    var n := |alerts| - 1;
    if i < n {
      NothingLost(alerts[..n], i);
      assert alerts[..n][i] == alerts[i];
      StillStoodFor(Published(alerts[..n]), alerts[i], alerts[n]);
    } else {
      PublishedKeeps(alerts[..n]);
      if n > 0 { assert alerts[..n][n - 1].ts <= alerts[n].ts; }
      PassedStandsFor(Published(alerts[..n]), alerts[n]);
    }
  }

  class Throttle {
    var last: map<string, Alert>
    /** Every alert offered, and the ones let through, by key. */
    ghost var offered: map<string, seq<Alert>>

    ghost predicate Valid()
      reads this
    {
      forall k :: Held(last, k) == LastOf(Published(History(offered, k)))
    }

    constructor ()
      ensures Valid() && offered == map[]
    {
      last, offered := map[], map[];
    }

    /** An alert is published exactly when it extends what its key has published. */
    method Allow(key: string, critical: bool, ts: int) returns (ok: bool)
      requires Valid()
      modifies this
      ensures Valid() && offered == old(offered)[key := History(old(offered), key) + [Alert(critical, ts)]]
      ensures var p := Published(History(old(offered), key));
              Published(offered[key]) == if ok then p + [Alert(critical, ts)] else p
    {
      var (prev, x) := (Held(last, key), Alert(critical, ts));
      ghost var alerts := History(offered, key);
      assert prev == LastOf(Published(alerts));
      assert (alerts + [x])[..|alerts|] == alerts;
      ok := Publishes(prev, x);
      if ok { last := last[key := x]; }
      offered := offered[key := alerts + [x]];
      assert forall k :: k != key ==>
             History(offered, k) == History(old(offered), k) && Held(last, k) == Held(old(last), k);
    }
  }

  function Held(last: map<string, Alert>, k: string): Option<Alert> {
    if k in last then Some(last[k]) else None
  }

  ghost function History(offered: map<string, seq<Alert>>, k: string): seq<Alert> {
    if k in offered then offered[k] else []
  }
}
