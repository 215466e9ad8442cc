/** Raw points, averaged into 5-minute and then into 1-hour rollups. */
module Retention {
  import opened Options
  import Rings

  const SECOND := 1_000_000_000
  const FIVE_MINUTES := 300 * SECOND
  const HOUR := 3600 * SECOND
  const RAW_AFTER := 2 * HOUR
  const FIVE_MINUTES_AFTER := 12 * HOUR

  datatype Tier = Raw | FiveMin | OneHour

  /** A stored key: tier prefix, series and timestamp. */
  datatype Key = Key(tier: Tier, series: string, ts: int)

  type Db = map<Key, real>

  datatype Put = Put(series: string, ts: int, value: real)

  function Size(tier: Tier): nat {
    match tier case Raw => 1 case FiveMin => FIVE_MINUTES case OneHour => HOUR
  }

  function Next(tier: Tier): Tier
    requires tier != OneHour
  {
    if tier == Raw then FiveMin else OneHour
  }

  /** time.Truncate: both sizes divide the distance between Go's zero time and 1970. */
  function Truncate(ts: int, size: nat): int
    requires size > 0
  {
    ts - ts % size
  }

  /** The rollup key that stands for a source key. */
  function RollupOf(k: Key): Key
    requires k.tier != OneHour
  {
    Key(Next(k.tier), k.series, Truncate(k.ts, Size(Next(k.tier))))
  }

  /** The key a written point falls under in a tier. */
  function Home(p: Put, tier: Tier): Key {
    Key(tier, p.series, Truncate(p.ts, Size(tier)))
  }

  lemma AtLeastOnce(a: nat, d: nat)
    ensures d >= 1 ==> a * d >= a
  {
  }

  lemma LargerMultiple(a: nat, n: int, q: int)
    requires n > q
    ensures a * n >= a * q + a
  {
    assert a * (q + (n - q)) == a * q + a * (n - q);
    AtLeastOnce(a, n - q);
  }

  /** Truncation keeps every multiple at or below the time. */
  lemma TruncateAtLeast(ts: int, a: nat, n: int)
    requires a > 0 && a * n <= ts
    ensures a * n <= Truncate(ts, a)
  {
    var q := ts / a;
    assert Truncate(ts, a) == a * q;
    if n > q { LargerMultiple(a, n, q); }
  }

  /** Truncating to a size and then to a multiple of it is truncating to the multiple. */
  lemma TruncateTwice(ts: int, a: nat, m: nat, b: nat)
    requires a > 0 && b > 0 && b == a * m
    ensures Truncate(Truncate(ts, a), b) == Truncate(ts, b)
  {
    var q := ts / b;
    assert Truncate(ts, b) == q * b;
    assert q * b == a * (m * q);
    TruncateAtLeast(ts, a, m * q);
    assert (q + 1) * b == q * b + b;
    TruncateIs(Truncate(ts, a), b, q);
  }

  /** A point's rollup key in a tier is where its key of the tier below rolls up to. */
  lemma HomeOfHome(p: Put, tier: Tier)
    requires tier != OneHour
    ensures RollupOf(Home(p, tier)) == Home(p, Next(tier))
  {
    if tier == Raw {
      TruncateTwice(p.ts, 1, FIVE_MINUTES, FIVE_MINUTES);
    } else {
      TruncateTwice(p.ts, FIVE_MINUTES, 12, HOUR);
    }
  }

  lemma TruncateIs(ts: int, size: nat, q: int)
    requires size > 0 && q * size <= ts < (q + 1) * size
    ensures Truncate(ts, size) == q * size
  {
    Rings.DivisionUnique(ts, q, ts - q * size, size);
  }

  // ---- What a bucket holds ----

  /** The source keys below the cutoff. */
  function Old(db: Db, src: Tier, cutoff: int): set<Key> {
    set k | k in db && k.tier == src && k.ts < cutoff
  }

  function Bucket(db: Db, dst: Key, cutoff: int): set<Key> {
    set k | k in db && k.tier != OneHour && k.ts < cutoff && RollupOf(k) == dst
  }

  ghost function Sum(db: Db, ks: set<Key>): real
    requires ks <= db.Keys
  {
    if ks == {} then 0.0
    else
      var k :| k in ks;
      db[k] + Sum(db, ks - {k})
  }

  lemma {:induction false} SumWithout(db: Db, ks: set<Key>, k: Key)
    requires ks <= db.Keys && k in ks
    ensures Sum(db, ks) == db[k] + Sum(db, ks - {k})
  {
    var j :| j in ks && Sum(db, ks) == db[j] + Sum(db, ks - {j});
    if j != k {
      SumWithout(db, ks - {j}, k);
      SumWithout(db, ks - {k}, j);
      assert ks - {j} - {k} == ks - {k} - {j};
    }
  }

  ghost function Mean(db: Db, ks: set<Key>): real
    requires ks <= db.Keys && ks != {}
  {
    Sum(db, ks) / |ks| as real
  }

  // ---- Bounds ----

  /** `v` lies between two values put under this key's series and bucket. */
  ghost predicate Bounded(puts: seq<Put>, k: Key, v: real) {
    exists p, q :: p in puts && q in puts && Home(p, k.tier) == k && Home(q, k.tier) == k && p.value <= v <= q.value
  }

  function Times(n: nat, x: real): real {
    if n == 0 then 0.0 else Times(n - 1, x) + x
  }

  lemma {:induction false} TimesIsProduct(n: nat, x: real)
    ensures Times(n, x) == n as real * x
  {
    if n > 0 {
      TimesIsProduct(n - 1, x);
      assert (n - 1) as real == n as real - 1.0;
    }
  }

  lemma {:induction false} SumBounds(db: Db, ks: set<Key>, lo: real, hi: real)
    requires ks <= db.Keys && forall k :: k in ks ==> lo <= db[k] <= hi
    ensures Times(|ks|, lo) <= Sum(db, ks) <= Times(|ks|, hi)
  {
    if ks != {} {
      var k :| k in ks && Sum(db, ks) == db[k] + Sum(db, ks - {k});
      SumBounds(db, ks - {k}, lo, hi);
      assert |ks - {k}| == |ks| - 1;
    }
  }

  lemma {:induction false} Extremes(db: Db, ks: set<Key>) returns (lo: Key, hi: Key)
    requires ks <= db.Keys && ks != {}
    ensures lo in ks && hi in ks && forall k :: k in ks ==> db[lo] <= db[k] <= db[hi]
  {
    var k :| k in ks;
    if ks == {k} {
      lo, hi := k, k;
    } else {
      lo, hi := Extremes(db, ks - {k});
      if db[k] < db[lo] { lo := k; }
      if db[k] > db[hi] { hi := k; }
    }
  }

  lemma MeanBetween(db: Db, ks: set<Key>) returns (lo: Key, hi: Key)
    requires ks <= db.Keys && ks != {}
    ensures lo in ks && hi in ks && db[lo] <= Mean(db, ks) <= db[hi]
  {
    lo, hi := Extremes(db, ks);
    SumBounds(db, ks, db[lo], db[hi]);
    DivideTimes(Sum(db, ks), |ks|, db[lo], db[hi]);
  }

  lemma DivideBounds(s: real, m: real, lo: real, hi: real)
    requires m > 0.0 && m * lo <= s <= m * hi
    ensures lo <= s / m <= hi
  {
    var x := s / m;
    assert (x - lo) * m == s - m * lo >= 0.0;
    assert (hi - x) * m == m * hi - s >= 0.0;
  }

  lemma DivideTimes(s: real, n: nat, lo: real, hi: real)
    requires n > 0 && Times(n, lo) <= s <= Times(n, hi)
    ensures lo <= s / n as real <= hi
  {
    TimesIsProduct(n, lo);
    TimesIsProduct(n, hi);
    DivideBounds(s, n as real, lo, hi);
  }

  // ---- Compaction as atomic steps ----

  /** One bucket's transaction: write the rollup, delete the sources. */
  datatype Job = Job(dst: Key, value: real, sources: set<Key>)

  function Commit(db: Db, job: Job): Db {
    db[job.dst := job.value] - job.sources
  }

  /** The transaction a pass prepares for one bucket from what it read. */
  ghost predicate IsJob(db: Db, src: Tier, cutoff: int, job: Job) {
    && src != OneHour && job.dst.tier == Next(src)
    && job.sources == Bucket(db, job.dst, cutoff) && job.sources != {}
    && job.value == Mean(db, job.sources)
  }

  /**
   * Passes prepare transactions, which are then committed one by one, in any order and interleaved with anything
   * else.
   */
  datatype State = State(db: Db, puts: seq<Put>, jobs: set<Job>)

  datatype Step =
    | Write(put: Put)
    | Scan(src: Tier, cutoff: int, prepared: set<Job>)
    | Transact(job: Job, again: bool)
    | Crash

  ghost predicate Enabled(s: State, step: Step) {
    match step
    case Scan(src, cutoff, prepared) => forall job :: job in prepared ==> IsJob(s.db, src, cutoff, job)
    case Transact(job, _) => job in s.jobs
    case _ => true
  }

  /** Two passes may prepare the same transaction, so a committed one may be committed `again`. */
  function Apply(s: State, step: Step): State {
    match step
    case Write(p) => s.(db := s.db[Home(p, Raw) := p.value], puts := s.puts + [p])
    case Scan(_, _, prepared) => s.(jobs := s.jobs + prepared)
    case Transact(job, again) => s.(db := Commit(s.db, job), jobs := if again then s.jobs else s.jobs - {job})
    case Crash => s.(jobs := {})
  }

  ghost predicate AllBounded(db: Db, puts: seq<Put>) {
    forall k {:trigger Bounded(puts, k, db[k])} :: k in db ==> Bounded(puts, k, db[k])
  }

  ghost predicate Covered(db: Db, p: Put) {
    exists tier :: Home(p, tier) in db
  }

  ghost predicate AllCovered(db: Db, puts: seq<Put>) {
    forall p {:trigger Covered(db, p)} :: p in puts ==> Covered(db, p)
  }

  ghost predicate JobSound(puts: seq<Put>, job: Job) {
    && Bounded(puts, job.dst, job.value)
    && forall k :: k in job.sources ==> k.tier != OneHour && RollupOf(k) == job.dst
  }

  ghost predicate Inv(s: State) {
    AllBounded(s.db, s.puts) && AllCovered(s.db, s.puts) && forall job :: job in s.jobs ==> JobSound(s.puts, job)
  }

  lemma BoundedUp(puts: seq<Put>, k: Key, v: real)
    requires k.tier != OneHour && Bounded(puts, k, v)
    ensures Bounded(puts, RollupOf(k), v)
  {
    var p, q :| p in puts && q in puts && Home(p, k.tier) == k && Home(q, k.tier) == k && p.value <= v <= q.value;
    HomeOfHome(p, k.tier);
    HomeOfHome(q, k.tier);
  }

  lemma PreparedIsSound(db: Db, puts: seq<Put>, src: Tier, cutoff: int, job: Job)
    requires AllBounded(db, puts) && IsJob(db, src, cutoff, job)
    ensures JobSound(puts, job)
  {
    var lo, hi := MeanBetween(db, job.sources);
    BoundedUp(puts, lo, db[lo]);
    BoundedUp(puts, hi, db[hi]);
  }

  lemma CommitKeepsCover(db: Db, puts: seq<Put>, job: Job)
    requires AllCovered(db, puts) && JobSound(puts, job)
    ensures AllCovered(Commit(db, job), puts)
  {
    forall p | p in puts ensures Covered(Commit(db, job), p) { StillCovered(db, job, p); }
  }

  lemma StillCovered(db: Db, job: Job, p: Put)
    requires Covered(db, p) && job.dst !in job.sources
    requires forall k :: k in job.sources ==> k.tier != OneHour && RollupOf(k) == job.dst
    ensures Covered(Commit(db, job), p)
  {
    var tier :| Home(p, tier) in db;
    if Home(p, tier) in job.sources {
      HomeOfHome(p, tier);
      assert Home(p, Next(tier)) in Commit(db, job);
    } else {
      assert Home(p, tier) in Commit(db, job);
    }
  }

  lemma WriteKeepsBounds(db: Db, puts: seq<Put>, p: Put)
    requires AllBounded(db, puts)
    ensures AllBounded(db[Home(p, Raw) := p.value], puts + [p])
  {
    var db', puts' := db[Home(p, Raw) := p.value], puts + [p];
    assert p in puts' && Bounded(puts', Home(p, Raw), p.value);
    forall k | k in db' ensures Bounded(puts', k, db'[k]) {
      if k != Home(p, Raw) {
        assert k in db && db'[k] == db[k];
        MorePuts(puts, p, k, db[k]);
      }
    }
  }

  lemma WriteKeepsCover(db: Db, puts: seq<Put>, p: Put)
    requires AllCovered(db, puts)
    ensures AllCovered(db[Home(p, Raw) := p.value], puts + [p])
  {
    var db' := db[Home(p, Raw) := p.value];
    forall o | o in puts + [p] ensures Covered(db', o) {
      if o in puts {
        assert Covered(db, o);
        var tier :| Home(o, tier) in db;
        assert Home(o, tier) in db';
      } else {
        assert Home(o, Raw) in db';
      }
    }
  }

  lemma MorePuts(puts: seq<Put>, p: Put, k: Key, v: real)
    requires Bounded(puts, k, v)
    ensures Bounded(puts + [p], k, v)
  {
    var a, b :| a in puts && b in puts && Home(a, k.tier) == k && Home(b, k.tier) == k && a.value <= v <= b.value;
    assert a in puts + [p] && b in puts + [p];
  }

  lemma WriteKeepsInv(s: State, p: Put)
    requires Inv(s)
    ensures Inv(Apply(s, Write(p)))
  {
    WriteKeepsBounds(s.db, s.puts, p);
    WriteKeepsCover(s.db, s.puts, p);
    forall job | job in s.jobs ensures JobSound(s.puts + [p], job) { MorePuts(s.puts, p, job.dst, job.value); }
  }

  lemma ScanKeepsInv(s: State, src: Tier, cutoff: int, prepared: set<Job>)
    requires Inv(s) && Enabled(s, Scan(src, cutoff, prepared))
    ensures Inv(Apply(s, Scan(src, cutoff, prepared)))
  {
    forall job | job in prepared ensures JobSound(s.puts, job) { PreparedIsSound(s.db, s.puts, src, cutoff, job); }
  }

  lemma TransactKeepsInv(s: State, job: Job, again: bool)
    requires Inv(s) && job in s.jobs
    ensures Inv(Apply(s, Transact(job, again)))
  {
    assert JobSound(s.puts, job);
    CommitKeepsCover(s.db, s.puts, job);
  }

  lemma StepKeepsInv(s: State, step: Step)
    requires Inv(s) && Enabled(s, step)
    ensures Inv(Apply(s, step))
  {
    match step
    case Write(p) => WriteKeepsInv(s, p);
    case Scan(src, cutoff, prepared) => ScanKeepsInv(s, src, cutoff, prepared);
    case Transact(job, again) => TransactKeepsInv(s, job, again);
    case Crash =>
  }

  ghost predicate IsRun(run: seq<State>, steps: seq<Step>) {
    && |run| == |steps| + 1
    && run[0] == State(map[], [], {})
    && forall i :: 0 <= i < |steps| ==> Enabled(run[i], steps[i]) && run[i + 1] == Apply(run[i], steps[i])
  }

  /**
   * Over every interleaving of writes, passes and crashes: each stored value lies between values written to its
   * bucket, and no written point is left uncovered.
   */
  lemma {:induction false} RunIsSound(run: seq<State>, steps: seq<Step>)
    requires IsRun(run, steps)
    ensures Inv(run[|steps|])
  {
    if steps != [] {
      var n := |steps| - 1;
      RunIsSound(run[..n + 1], steps[..n]);
      StepKeepsInv(run[n], steps[n]);
    }
  }

  // ---- One pass ----

  /** The rollup keys a pass writes. */
  function Targets(db: Db, src: Tier, cutoff: int): set<Key>
    requires src != OneHour
  {
    set k | k in Old(db, src, cutoff) :: RollupOf(k)
  }

  /** The store after the transactions for `done` have been committed. */
  ghost predicate Compacted(db: Db, src: Tier, cutoff: int, done: set<Key>, db': Db)
    requires src != OneHour && done <= Targets(db, src, cutoff)
  {
    && (forall k {:trigger k in db'} :: k in db' <==>
       k in done || (k in db && !(k in Old(db, src, cutoff) && RollupOf(k) in done)))
    && forall k :: k in db' ==> db'[k] == if k in done then Mean(db, BucketOf(db, src, k, cutoff)) else db[k]
  }

  /** The sources a pass averages into a target; there is at least one. */
  ghost function BucketOf(db: Db, src: Tier, dst: Key, cutoff: int): (ks: set<Key>)
    requires src != OneHour && dst in Targets(db, src, cutoff)
    ensures ks <= db.Keys && ks != {} && forall k :: k in ks <==> k in Old(db, src, cutoff) && RollupOf(k) == dst
  {
    var k :| k in Old(db, src, cutoff) && RollupOf(k) == dst;
    assert k in Bucket(db, dst, cutoff);
    Bucket(db, dst, cutoff)
  }

  /** A pass leaves everything at or after its cutoff alone. */
  lemma RecentUntouched(db: Db, src: Tier, cutoff: int, done: set<Key>, db': Db, k: Key)
    requires src != OneHour && done <= Targets(db, src, cutoff) && Compacted(db, src, cutoff, done, db')
    requires k.ts >= cutoff
    ensures k in db' <==> k in db
    ensures k in db ==> db'[k] == db[k]
  {
  }

  /** The stored source points of a bucket, old or not. */
  function WholeBucket(db: Db, src: Tier, dst: Key): set<Key>
    requires src != OneHour
  {
    set k | k in db && k.tier == src && RollupOf(k) == dst
  }

  /** The store after a whole pass. */
  ghost function Pass(db: Db, src: Tier, cutoff: int): Db
    requires src != OneHour
  {
    map k | k in Targets(db, src, cutoff) + (db.Keys - Old(db, src, cutoff)) ::
      if k in Targets(db, src, cutoff) then Mean(db, BucketOf(db, src, k, cutoff)) else db[k]
  }

  lemma CompactedIsPass(db: Db, src: Tier, cutoff: int, db': Db)
    requires src != OneHour && Compacted(db, src, cutoff, Targets(db, src, cutoff), db')
    ensures db' == Pass(db, src, cutoff)
  {
    var (t, p) := (Targets(db, src, cutoff), Pass(db, src, cutoff));
    forall k ensures k in db' <==> k in p {
      assert k in Old(db, src, cutoff) ==> RollupOf(k) in t;
    }
  }

  /**
   * A bucket that ends at or below the cutoff rolls up to the exact mean of its stored points, which are all removed.
   */
  lemma ExactMean(db: Db, src: Tier, cutoff: int, dst: Key)
    requires src != OneHour && dst.tier == Next(src) && dst.ts + Size(dst.tier) <= cutoff
             && WholeBucket(db, src, dst) != {}
    ensures var after := Pass(db, src, cutoff);
            dst in after && after[dst] == Mean(db, WholeBucket(db, src, dst)) && WholeBucket(after, src, dst) == {}
  {
    forall k | k in WholeBucket(db, src, dst) ensures k in Old(db, src, cutoff) {
      assert k.ts < dst.ts + Size(dst.tier);
    }
    var k :| k in WholeBucket(db, src, dst);
    assert dst in Targets(db, src, cutoff);
    assert BucketOf(db, src, dst, cutoff) == WholeBucket(db, src, dst);
    assert forall j :: j in Targets(db, src, cutoff) ==> j.tier == Next(src);
  }

  /** The values of a bucket, collected in any order. */
  ghost predicate Collected(db: Db, keys: set<Key>, vals: seq<real>) {
    keys <= db.Keys && |vals| == |keys| && Total(vals) == Sum(db, keys)
  }

  function Total(vals: seq<real>): real {
    if vals == [] then 0.0 else Total(vals[..|vals| - 1]) + vals[|vals| - 1]
  }

  method MeanOf(vals: seq<real>) returns (m: real)
    requires vals != []
    ensures m == Total(vals) / |vals| as real
  {
    var sum := 0.0;
    for i := 0 to |vals|
      invariant sum == Total(vals[..i])
    {
      assert vals[..i + 1][..i] == vals[..i];
      sum := sum + vals[i];
    }
    assert vals[..|vals|] == vals;
    m := sum / |vals| as real;
  }

  lemma CollectOne(db: Db, keys: set<Key>, vals: seq<real>, k: Key)
    requires Collected(db, keys, vals) && k in db && k !in keys
    ensures Collected(db, keys + {k}, vals + [db[k]])
  {
    SumWithout(db, keys + {k}, k);
    assert keys + {k} - {k} == keys;
    assert (vals + [db[k]])[..|vals|] == vals;
  }

  /** The members of a group: points seen, all with this rollup key. */
  ghost predicate Members(seen: set<Key>, dst: Key, ks: set<Key>) {
    ks != {} && forall k :: k in ks <==> k in seen && k.tier != OneHour && RollupOf(k) == dst
  }

  /** The points `seen`, grouped by rollup key. */
  ghost predicate Partitioned(seen: set<Key>, keys: map<Key, set<Key>>) {
    && (forall dst :: dst in keys ==> Members(seen, dst, keys[dst]))
    && (forall k :: k in seen ==> k.tier != OneHour && RollupOf(k) in keys)
  }

  ghost predicate AllCollected(db: Db, keys: map<Key, set<Key>>, values: map<Key, seq<real>>) {
    values.Keys == keys.Keys && forall dst :: dst in keys ==> Collected(db, keys[dst], values[dst])
  }

  function GroupAt<T>(groups: map<Key, T>, dst: Key, none: T): T {
    if dst in groups then groups[dst] else none
  }

  lemma PartitionOne(seen: set<Key>, keys: map<Key, set<Key>>, k: Key)
    requires Partitioned(seen, keys) && k !in seen && k.tier != OneHour
    ensures k !in GroupAt(keys, RollupOf(k), {})
    ensures Partitioned(seen + {k}, keys[RollupOf(k) := GroupAt(keys, RollupOf(k), {}) + {k}])
  {
    var dst := RollupOf(k);
    var ks := GroupAt(keys, dst, {});
    assert forall j :: j in ks <==> j in seen && j.tier != OneHour && RollupOf(j) == dst by {
      if dst in keys { assert Members(seen, dst, ks); }
    }
    assert Members(seen + {k}, dst, ks + {k});
    forall d | d in keys && d != dst ensures Members(seen + {k}, d, keys[d]) { assert Members(seen, d, keys[d]); }
  }

  lemma CollectNext(db: Db, keys: map<Key, set<Key>>, values: map<Key, seq<real>>, dst: Key, k: Key)
    requires AllCollected(db, keys, values) && k in db && k !in GroupAt(keys, dst, {})
    ensures AllCollected(db, keys[dst := GroupAt(keys, dst, {}) + {k}],
                         values[dst := GroupAt(values, dst, []) + [db[k]]])
  {
    var (ks, vals) := (GroupAt(keys, dst, {}), GroupAt(values, dst, []));
    assert Collected(db, ks, vals);
    CollectOne(db, ks, vals, k);
    var (keys', values') := (keys[dst := ks + {k}], values[dst := vals + [db[k]]]);
    forall d | d in keys' ensures Collected(db, keys'[d], values'[d]) {
      if d != dst { assert Collected(db, keys[d], values[d]); }
    }
  }

  lemma CommitOne(db0: Db, src: Tier, cutoff: int, done: set<Key>, db: Db, job: Job)
    requires src != OneHour && done <= Targets(db0, src, cutoff)
    requires job.dst in Targets(db0, src, cutoff) && job.dst !in done
    requires job.sources == BucketOf(db0, src, job.dst, cutoff) && job.value == Mean(db0, job.sources)
    ensures Compacted(db0, src, cutoff, done, db) ==> Compacted(db0, src, cutoff, done + {job.dst}, Commit(db, job))
  {
  }

  /** These steps lead from one state to the other. */
  ghost predicate Leads(s: State, steps: seq<Step>, t: State)
    decreases |steps|
  {
    if steps == [] then t == s else Enabled(s, steps[0]) && Leads(Apply(s, steps[0]), steps[1..], t)
  }

  /** The transaction of a pass for one bucket. */
  ghost function JobFor(db: Db, src: Tier, cutoff: int, dst: Key): (job: Job)
    requires src != OneHour && dst in Targets(db, src, cutoff)
    ensures IsJob(db, src, cutoff, job)
  {
    Job(dst, Mean(db, BucketOf(db, src, dst, cutoff)), BucketOf(db, src, dst, cutoff))
  }

  lemma OneStepMore(s: State, step: Step, steps: seq<Step>, t: State)
    requires Enabled(s, step) && Leads(Apply(s, step), steps, t)
    ensures Leads(s, [step] + steps, t)
  {
    assert ([step] + steps)[1..] == steps;
  }

  /** The buckets still to do have their transactions prepared. */
  ghost predicate Prepared(db0: Db, src: Tier, cutoff: int, todo: set<Key>, jobs: set<Job>)
    requires src != OneHour && todo <= Targets(db0, src, cutoff)
  {
    forall dst {:trigger JobFor(db0, src, cutoff, dst)} :: dst in todo ==> JobFor(db0, src, cutoff, dst) in jobs
  }

  /** A pass has done some of its buckets, and has the others prepared. */
  ghost predicate Underway(s: State, db0: Db, src: Tier, cutoff: int, done: set<Key>, todo: set<Key>) {
    && src != OneHour && done <= Targets(db0, src, cutoff) && todo <= Targets(db0, src, cutoff) && done !! todo
    && Compacted(db0, src, cutoff, done, s.db) && Prepared(db0, src, cutoff, todo, s.jobs)
  }

  lemma CommitStep(s: State, db0: Db, src: Tier, cutoff: int, done: set<Key>, todo: set<Key>, dst: Key)
    returns (step: Step)
    requires Underway(s, db0, src, cutoff, done, todo) && dst in todo
    ensures Enabled(s, step) && Apply(s, step).puts == s.puts
    ensures Underway(Apply(s, step), db0, src, cutoff, done + {dst}, todo - {dst})
  {
    var job := JobFor(db0, src, cutoff, dst);
    CommitOne(db0, src, cutoff, done, s.db, job);
    step := Transact(job, true);
  }

  lemma {:induction false} CommitsLead(s: State, db0: Db, src: Tier, cutoff: int, done: set<Key>, todo: set<Key>)
    returns (steps: seq<Step>, t: State)
    requires Underway(s, db0, src, cutoff, done, todo)
    ensures Leads(s, steps, t) && t.puts == s.puts && Underway(t, db0, src, cutoff, done + todo, {})
    decreases todo
  {
    if todo == {} {
      assert done + todo == done;
      steps, t := [], s;
    } else {
      var dst :| dst in todo;
      var step := CommitStep(s, db0, src, cutoff, done, todo, dst);
      steps, t := CommitsLead(Apply(s, step), db0, src, cutoff, done + {dst}, todo - {dst});
      assert done + {dst} + (todo - {dst}) == done + todo;
      OneStepMore(s, step, steps, t);
      steps := [step] + steps;
    }
  }

  lemma CompactedUnique(db: Db, src: Tier, cutoff: int, done: set<Key>, a: Db, b: Db)
    requires src != OneHour && done <= Targets(db, src, cutoff)
    requires Compacted(db, src, cutoff, done, a) && Compacted(db, src, cutoff, done, b)
    ensures a == b
  {
    assert a.Keys == b.Keys;
  }

  /** What a pass leaves, wherever it stops, is a state that the atomic steps lead to from any state with its store. */
  lemma PassIsRun(s: State, src: Tier, cutoff: int, done: set<Key>, db': Db) returns (steps: seq<Step>, t: State)
    requires src != OneHour && done <= Targets(s.db, src, cutoff) && Compacted(s.db, src, cutoff, done, db')
    ensures Leads(s, steps, t) && t.db == db' && t.puts == s.puts
  {
    var prepared := set dst | dst in done :: JobFor(s.db, src, cutoff, dst);
    var scan := Scan(src, cutoff, prepared);
    steps, t := CommitsLead(Apply(s, scan), s.db, src, cutoff, {}, done);
    assert {} + done == done;
    CompactedUnique(s.db, src, cutoff, done, t.db, db');
    OneStepMore(s, scan, steps, t);
    steps := [scan] + steps;
  }

  lemma OneMoreDone<T>(all: set<T>, todo: set<T>, done: set<T>, x: T)
    ensures todo <= all && done == all - todo && x in todo ==> x !in done && done + {x} == all - (todo - {x})
  {
  }

  class Store {
    var db: Db
    ghost var puts: seq<Put>

    ghost predicate Valid()
      reads this
    {
      AllBounded(db, puts) && AllCovered(db, puts)
    }

    constructor ()
      ensures Valid() && db == map[] && puts == []
    {
      db, puts := map[], [];
    }

    method PutMetric(series: string, ts: int, value: real)
      requires Valid()
      modifies this
      ensures Valid() && puts == old(puts) + [Put(series, ts, value)] && db == old(db)[Key(Raw, series, ts) := value]
    {
      ghost var p := Put(series, ts, value);
      WriteKeepsBounds(db, puts, p);
      WriteKeepsCover(db, puts, p);
      assert Home(p, Raw) == Key(Raw, series, ts);
      db := db[Key(Raw, series, ts) := value];
      puts := puts + [p];
    }

    /** The read transaction: the old source points, grouped by rollup key. */
    method Group(src: Tier, cutoff: int) returns (values: map<Key, seq<real>>, keys: map<Key, set<Key>>)
      requires src != OneHour
      ensures Partitioned(Old(db, src, cutoff), keys) && AllCollected(db, keys, values)
    {
      var all := Old(db, src, cutoff);
      var todo := all;
      ghost var seen: set<Key> := {};
      values, keys := map[], map[];
      while todo != {}
        invariant todo <= all && seen == all - todo
        invariant Partitioned(seen, keys) && AllCollected(db, keys, values)
      {
        var k :| k in todo;
        var dst := RollupOf(k);
        OneMoreDone(all, todo, seen, k);
        PartitionOne(seen, keys, k);
        CollectNext(db, keys, values, dst, k);
        todo, seen := todo - {k}, seen + {k};
        values, keys := values[dst := GroupAt(values, dst, []) + [db[k]]], keys[dst := GroupAt(keys, dst, {}) + {k}];
      }
    }

    /** One pass. When the process is to crash, it stops after that many transactions. */
    method CompactTier(src: Tier, cutoff: int, crashAfter: Option<nat>) returns (ghost done: set<Key>)
      requires Valid() && src != OneHour
      modifies this
      ensures Valid() && puts == old(puts)
      ensures done <= Targets(old(db), src, cutoff) && Compacted(old(db), src, cutoff, done, db)
      ensures crashAfter.None? ==> done == Targets(old(db), src, cutoff) && db == Pass(old(db), src, cutoff)
    {
      var values, keys := Group(src, cutoff);
      done := CommitAll(src, cutoff, crashAfter, values, keys);
      if crashAfter.None? { CompactedIsPass(old(db), src, cutoff, db); }
    }

    /** Both passes of one compaction, with nothing written in between. */
    method Compact(now: int)
      requires Valid()
      modifies this
      ensures Valid() && puts == old(puts)
      ensures db == Pass(Pass(old(db), Raw, now - RAW_AFTER), FiveMin, now - FIVE_MINUTES_AFTER)
    {
      ghost var done := CompactTier(Raw, now - RAW_AFTER, None);
      done := CompactTier(FiveMin, now - FIVE_MINUTES_AFTER, None);
    }

    method CommitAll(src: Tier, cutoff: int, crashAfter: Option<nat>, values: map<Key, seq<real>>,
                     keys: map<Key, set<Key>>)
      returns (ghost done: set<Key>)
      requires Valid() && src != OneHour
      requires keys.Keys == Targets(db, src, cutoff) && AllCollected(db, keys, values)
      requires forall dst {:trigger BucketOf(db, src, dst, cutoff)} :: dst in keys ==>
               keys[dst] == BucketOf(db, src, dst, cutoff)
      modifies this
      ensures Valid() && puts == old(puts)
      ensures done <= keys.Keys && Compacted(old(db), src, cutoff, done, db)
      ensures crashAfter.None? ==> done == keys.Keys
    {
      ghost var db0, all := db, Targets(db, src, cutoff);
      var todo, committed := values.Keys, 0;
      done := {};
      while todo != {} && (crashAfter.None? || committed < crashAfter.value)
        invariant todo <= all && done == all - todo
        invariant Compacted(db0, src, cutoff, done, db)
        invariant Valid() && puts == old(puts)
      {
        var dst :| dst in todo;
        OneMoreDone(all, todo, done, dst);
        CommitBucket(db0, src, cutoff, done, dst, values[dst], keys[dst]);
        todo, done, committed := todo - {dst}, done + {dst}, committed + 1;
      }
    }

    /** One bucket's write transaction. */
    method CommitBucket(ghost db0: Db, src: Tier, cutoff: int, ghost done: set<Key>, dst: Key, vals: seq<real>,
                        keys: set<Key>)
      requires Valid() && src != OneHour && AllBounded(db0, puts)
      requires done <= Targets(db0, src, cutoff) && Compacted(db0, src, cutoff, done, db)
      requires dst in Targets(db0, src, cutoff) && dst !in done
      requires keys == BucketOf(db0, src, dst, cutoff) && Collected(db0, keys, vals)
      modifies this
      ensures Valid() && puts == old(puts) && Compacted(db0, src, cutoff, done + {dst}, db)
    {
      var avg := MeanOf(vals);
      ghost var job := Job(dst, avg, keys);
      PreparedIsSound(db0, puts, src, cutoff, job);
      CommitKeepsCover(db, puts, job);
      CommitOne(db0, src, cutoff, done, db, job);
      db := db[dst := avg] - keys;
    }
  }
}
