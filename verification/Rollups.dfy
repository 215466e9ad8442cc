/** When a rollup is the mean of its bucket, per pass and over whole runs. */
module Rollups {
  import opened Retention
  import Rings

  // ---- One pass ----

  lemma SingleMean(db: Db, k: Key, ks: set<Key>)
    requires k in db && ks == {k}
    ensures Mean(db, ks) == db[k]
  {
    SumWithout(db, ks, k);
    assert ks - {k} == {};
  }

  /** The same keys, with any values for the source points. */
  ghost predicate Revalued(db: Db, src: Tier, other: Db) {
    other.Keys == db.Keys && forall k :: k in db && k.tier != src ==> other[k] == db[k]
  }

  /**
   * A pass can be counted on to keep a stored rollup exactly when it does not write to it, whatever the rollup stood
   * for.
   */
  lemma PassKeepsRollup(db: Db, src: Tier, cutoff: int, dst: Key)
    requires src != OneHour && dst in db && dst.tier == Next(src)
    ensures dst !in Targets(db, src, cutoff) <==>
            forall other {:trigger Revalued(db, src, other)} ::
              Revalued(db, src, other) ==> dst in Pass(other, src, cutoff) && Pass(other, src, cutoff)[dst] == db[dst]
  {
    if dst in Targets(db, src, cutoff) {
      var other := map k | k in db :: if k.tier == src then db[dst] + 1.0 else db[k];
      assert Old(other, src, cutoff) == Old(db, src, cutoff);
      var lo, hi := MeanBetween(other, BucketOf(other, src, dst, cutoff));
      assert Revalued(db, src, other) && Pass(other, src, cutoff)[dst] == db[dst] + 1.0;
    } else {
      forall other | Revalued(db, src, other)
        ensures dst in Pass(other, src, cutoff) && Pass(other, src, cutoff)[dst] == db[dst]
      {
        assert Old(other, src, cutoff) == Old(db, src, cutoff);
      }
    }
  }

  /** A pass that finds one old point moves its value to its rollup. */
  lemma OneOldPoint(db: Db, src: Tier, cutoff: int, k: Key)
    requires src != OneHour && Old(db, src, cutoff) == {k}
    ensures Pass(db, src, cutoff) == (db - {k})[RollupOf(k) := db[k]]
  {
    assert Targets(db, src, cutoff) == {RollupOf(k)};
    assert BucketOf(db, src, RollupOf(k), cutoff) == {k};
    SingleMean(db, k, {k});
  }

  /** A cutoff inside a bucket splits it: the next pass overwrites the first rollup with what was left. */
  lemma SplitBucketForgets(early: Key, late: Key, cut: int, later: int, a: real, b: real)
    requires early.tier == late.tier != OneHour && RollupOf(early) == RollupOf(late)
             && early.ts < cut <= late.ts < later
    ensures Pass(Pass(map[early := a, late := b], early.tier, cut), early.tier, later) == map[RollupOf(late) := b]
  {
    TakesEarly(early, late, cut, a, b);
    LateForgets(RollupOf(early), late, later, a, b);
  }

  lemma TakesEarly(early: Key, late: Key, cut: int, a: real, b: real)
    requires early.tier == late.tier != OneHour && early.ts < cut <= late.ts
    ensures Pass(map[early := a, late := b], early.tier, cut) == map[RollupOf(early) := a][late := b]
  {
    var db: Db := map[early := a, late := b];
    assert Old(db, early.tier, cut) == {early};
    OneOldPoint(db, early.tier, cut, early);
    assert db - {early} == map[late := b];
  }

  /**
   * A point that arrives after the pass that took its bucket replaces the rollup at the next pass, whatever the
   * cutoffs.
   */
  lemma LateForgets(dst: Key, late: Key, later: int, a: real, b: real)
    requires late.tier != OneHour && RollupOf(late) == dst && late.ts < later
    ensures Pass(map[dst := a][late := b], late.tier, later) == map[dst := b]
  {
    var db: Db := map[dst := a][late := b];
    assert Old(db, late.tier, later) == {late};
    OneOldPoint(db, late.tier, later, late);
    assert db - {late} == map[dst := a];
  }

  // ---- Which cutoffs split buckets ----

  /** On stores of this kind, a pass with this cutoff that takes any point of a bucket takes them all. */
  ghost predicate NeverSplits(onStore: Db -> bool, src: Tier, cutoff: int)
    requires src != OneHour
  {
    forall db, dst {:trigger WholeBucket(db, src, dst)} ::
      onStore(db) && dst in Targets(db, src, cutoff) ==> WholeBucket(db, src, dst) <= Old(db, src, cutoff)
  }

  /** Every stored 5-minute rollup lies on the 5-minute grid. */
  predicate OnGrid(db: Db) {
    forall k :: k in db && k.tier == FiveMin ==> k.ts % FIVE_MINUTES == 0
  }

  /** What bounds every reachable store puts its rollups on the grid. */
  lemma ReachableOnGrid(s: State)
    requires Inv(s)
    ensures OnGrid(s.db)
  {
    forall k | k in s.db && k.tier == FiveMin ensures k.ts % FIVE_MINUTES == 0 {
      assert Bounded(s.puts, k, s.db[k]);
      var p :| p in s.puts && Home(p, k.tier) == k;
    }
  }

  lemma SameSideOfMultiple(a: int, b: int, size: nat, cutoff: int)
    requires size > 0 && cutoff % size == 0 && Truncate(a, size) == Truncate(b, size) && a < cutoff
    ensures b < cutoff
  {
    var (q, c) := (a / size, cutoff / size);
    assert Truncate(a, size) == size * q && cutoff == size * c;
    if q < c { LargerMultiple(size, c, q); } else if c < q { LargerMultiple(size, q, c); }
  }

  lemma AlignedNeverSplits(onStore: Db -> bool, src: Tier, cutoff: int)
    requires src != OneHour && cutoff % Size(Next(src)) == 0
    ensures NeverSplits(onStore, src, cutoff)
  {
    forall db, dst, k | dst in Targets(db, src, cutoff) && k in WholeBucket(db, src, dst)
      ensures k in Old(db, src, cutoff)
    {
      var j :| j in Old(db, src, cutoff) && RollupOf(j) == dst;
      SameSideOfMultiple(j.ts, k.ts, Size(Next(src)), cutoff);
    }
  }

  /** Two points of one bucket on both sides of the cutoff show a split. */
  lemma Splits(onStore: Db -> bool, early: Key, late: Key, cutoff: int)
    requires early.tier == late.tier != OneHour && RollupOf(early) == RollupOf(late) && early.ts < cutoff <= late.ts
    requires onStore(map[early := 0.0, late := 0.0])
    ensures !NeverSplits(onStore, early.tier, cutoff)
  {
    var db: Db := map[early := 0.0, late := 0.0];
    assert early in Old(db, early.tier, cutoff);
    assert RollupOf(early) in Targets(db, early.tier, cutoff);
    assert late in WholeBucket(db, early.tier, RollupOf(early)) && late !in Old(db, early.tier, cutoff);
  }

  /** A raw pass never splits a bucket exactly when its cutoff is a multiple of five minutes, which nothing ensures. */
  lemma RawCutoff(cutoff: int)
    ensures NeverSplits(db => true, Raw, cutoff) <==> cutoff % FIVE_MINUTES == 0
  {
    if cutoff % FIVE_MINUTES == 0 {
      AlignedNeverSplits(db => true, Raw, cutoff);
    } else {
      TruncateTwice(cutoff, FIVE_MINUTES, 1, FIVE_MINUTES);
      Splits(db => true, Key(Raw, "", Truncate(cutoff, FIVE_MINUTES)), Key(Raw, "", cutoff), cutoff);
    }
  }

  lemma GridHoursWhole(cutoff: int)
    requires cutoff % HOUR > 11 * FIVE_MINUTES
    ensures NeverSplits(OnGrid, FiveMin, cutoff)
  {
    forall db, dst, k | OnGrid(db) && dst in Targets(db, FiveMin, cutoff) && k in WholeBucket(db, FiveMin, dst)
      ensures k in Old(db, FiveMin, cutoff)
    {
      var j :| j in Old(db, FiveMin, cutoff) && RollupOf(j) == dst;
      LastOnGrid(j.ts, k.ts, cutoff);
    }
  }

  lemma LastOnGrid(a: int, b: int, cutoff: int)
    requires Truncate(a, HOUR) == Truncate(b, HOUR) && b % FIVE_MINUTES == 0
    requires a < cutoff && cutoff % HOUR > 11 * FIVE_MINUTES
    ensures b < cutoff
  {
    GridPlace(b, FIVE_MINUTES, 12, HOUR);
    TruncateBefore(a, cutoff, HOUR);
  }

  lemma TruncateBefore(a: int, b: int, size: nat)
    requires size > 0 && a < b
    ensures Truncate(a, size) <= Truncate(b, size)
  {
    assert Truncate(a, size) == size * (a / size);
    TruncateAtLeast(b, size, a / size);
  }

  /** A multiple of a part of the size lies at least one part before the end of its bucket. */
  lemma GridPlace(b: int, part: nat, n: nat, size: nat)
    requires part > 0 && size > 0 && size == part * n && b % part == 0
    ensures b <= Truncate(b, size) + size - part
  {
    var (k, q) := (b / part, b / size);
    assert b == part * k;
    assert Truncate(b, size) == size * q;
    assert size * q + size == part * (n * q + n);
    if k < n * q + n {
      LargerMultiple(part, n * q + n, k);
    } else {
    }
  }

  lemma HourOnGrid(h: int)
    requires h % HOUR == 0
    ensures h % FIVE_MINUTES == 0 && (h + 11 * FIVE_MINUTES) % FIVE_MINUTES == 0
  {
    var q := h / HOUR;
    assert h == FIVE_MINUTES * (12 * q);
    Rings.DivisionUnique(h, 12 * q, 0, FIVE_MINUTES);
    Rings.DivisionUnique(h + 11 * FIVE_MINUTES, 12 * q + 11, 0, FIVE_MINUTES);
  }

  lemma SameHour(h: int)
    requires h % HOUR == 0
    ensures Truncate(h, HOUR) == h == Truncate(h + 11 * FIVE_MINUTES, HOUR)
  {
    var q := h / HOUR;
    assert h == q * HOUR;
    Rings.DivisionUnique(h + 11 * FIVE_MINUTES, q, 11 * FIVE_MINUTES, HOUR);
  }

  lemma PairOnGrid(early: Key, late: Key)
    requires early.ts % FIVE_MINUTES == 0 && late.ts % FIVE_MINUTES == 0
    ensures OnGrid(map[early := 0.0, late := 0.0])
  {
  }

  lemma GridHourSplit(cutoff: int, h: int)
    requires h % HOUR == 0 && h < cutoff <= h + 11 * FIVE_MINUTES
    ensures !NeverSplits(OnGrid, FiveMin, cutoff)
  {
    var (early, late) := (Key(FiveMin, "", h), Key(FiveMin, "", h + 11 * FIVE_MINUTES));
    HourOnGrid(h);
    SameHour(h);
    PairOnGrid(early, late);
    Splits(OnGrid, early, late, cutoff);
  }

  /**
   * On the grid, an hour pass never splits an hour exactly when its cutoff is on the hour or less than five minutes
   * before.
   */
  lemma HourCutoff(cutoff: int)
    ensures NeverSplits(OnGrid, FiveMin, cutoff) <==> cutoff % HOUR == 0 || cutoff % HOUR > 11 * FIVE_MINUTES
  {
    if cutoff % HOUR == 0 {
      AlignedNeverSplits(OnGrid, FiveMin, cutoff);
    } else if cutoff % HOUR > 11 * FIVE_MINUTES {
      GridHoursWhole(cutoff);
    } else {
      GridHourSplit(cutoff, Truncate(cutoff, HOUR));
    }
  }

  // ---- Runs of writes and finished passes ----

  type Source = tier: Tier | tier != OneHour witness Raw

  datatype Op = Wrote(put: Put) | Passed(src: Source, cutoff: int)

  ghost function Applied(db: Db, op: Op): Db {
    match op
    case Wrote(p) => db[Home(p, Raw) := p.value]
    case Passed(src, cutoff) => Pass(db, src, cutoff)
  }

  /** The store after the operations. */
  ghost function After(ops: seq<Op>): Db {
    if ops == [] then map[] else Applied(After(ops[..|ops| - 1]), ops[|ops| - 1])
  }

  /** The latest value put at every time, whatever became of it. */
  ghost function Ever(ops: seq<Op>): Db {
    if ops == [] then map[] else
      var before := Ever(ops[..|ops| - 1]);
      if ops[|ops| - 1].Wrote? then Applied(before, ops[|ops| - 1]) else before
  }

  /** Every raw point ever put into a bucket. */
  ghost function EverBucket(ops: seq<Op>, dst: Key): (ks: set<Key>)
    ensures ks <= Ever(ops).Keys
  {
    WholeBucket(Ever(ops), Raw, dst)
  }

  /** The raw points of a bucket that an operation takes out of the store. */
  ghost function TakenFrom(db: Db, op: Op, dst: Key): (ks: set<Key>)
    ensures ks <= db.Keys
  {
    if op.Passed? && op.src == Raw then set k | k in Old(db, Raw, op.cutoff) && RollupOf(k) == dst else {}
  }

  ghost function Taken(ops: seq<Op>, i: nat, dst: Key): set<Key>
    requires i < |ops|
  {
    TakenFrom(After(ops[..i]), ops[i], dst)
  }

  predicate PutsInto(op: Op, dst: Key) {
    op.Wrote? && Home(op.put, FiveMin) == dst
  }

  predicate PutsAt(op: Op, k: Key) {
    op.Wrote? && Home(op.put, Raw) == k
  }

  /** No operation from `i` on puts into the bucket or takes from it. */
  ghost predicate Untouched(ops: seq<Op>, i: nat, dst: Key) {
    forall j {:trigger Taken(ops, j, dst)} :: i <= j < |ops| ==> Taken(ops, j, dst) == {} && !PutsInto(ops[j], dst)
  }

  /** The last pass to take from the bucket took every time ever put in it, and nothing was put into it since. */
  ghost predicate TakenWhole(ops: seq<Op>, dst: Key) {
    exists i {:trigger Taken(ops, i, dst)} ::
      0 <= i < |ops| && Taken(ops, i, dst) == EverBucket(ops, dst) && Untouched(ops, i + 1, dst)
  }

  /** The rollup is stored, and is the mean of the latest values at every time ever put in its bucket. */
  ghost predicate IsExact(ops: seq<Op>, dst: Key) {
    && dst in After(ops) && EverBucket(ops, dst) != {}
    && After(ops)[dst] == Mean(Ever(ops), EverBucket(ops, dst))
  }

  /** The same operations, but for the values put. */
  ghost predicate SameShape(ops: seq<Op>, other: seq<Op>) {
    |ops| == |other| && forall i :: 0 <= i < |ops| ==> SameOp(ops[i], other[i])
  }

  predicate SameOp(a: Op, b: Op) {
    if a.Wrote? then b.Wrote? && b.put == a.put.(value := b.put.value) else b == a
  }

  ghost predicate AlwaysExact(ops: seq<Op>, dst: Key) {
    forall other {:trigger SameShape(ops, other)} :: SameShape(ops, other) ==> IsExact(other, dst)
  }

  lemma {:induction false} ShapeKeys(ops: seq<Op>, other: seq<Op>)
    requires SameShape(ops, other)
    ensures After(ops).Keys == After(other).Keys && Ever(ops).Keys == Ever(other).Keys
  {
    if ops != [] {
      var n := |ops| - 1;
      ShapeKeys(ops[..n], other[..n]);
      assert SameOp(ops[n], other[n]);
    }
  }

  lemma ShapeTaken(ops: seq<Op>, other: seq<Op>, i: nat, dst: Key)
    requires SameShape(ops, other) && i < |ops|
    ensures Taken(ops, i, dst) == Taken(other, i, dst)
  {
    ShapeKeys(ops[..i], other[..i]);
    assert SameOp(ops[i], other[i]);
  }

  lemma ShapeBucket(ops: seq<Op>, other: seq<Op>, dst: Key)
    requires SameShape(ops, other)
    ensures EverBucket(ops, dst) == EverBucket(other, dst)
  {
    ShapeKeys(ops, other);
  }

  lemma ShapeTakenWhole(ops: seq<Op>, other: seq<Op>, dst: Key)
    requires SameShape(ops, other) && TakenWhole(ops, dst)
    ensures TakenWhole(other, dst)
  {
    var i :| 0 <= i < |ops| && Taken(ops, i, dst) == EverBucket(ops, dst) && Untouched(ops, i + 1, dst);
    ShapeBucket(ops, other, dst);
    ShapeTaken(ops, other, i, dst);
    forall j | i + 1 <= j < |other| ensures Taken(other, j, dst) == {} && !PutsInto(other[j], dst) {
      ShapeTaken(ops, other, j, dst);
      assert SameOp(ops[j], other[j]) && Taken(ops, j, dst) == {};
    }
  }

  /** A raw point still stored holds the latest value put at its time. */
  lemma {:induction false} StoredIsLatest(ops: seq<Op>, k: Key)
    requires k.tier == Raw && k in After(ops)
    ensures k in Ever(ops) && Ever(ops)[k] == After(ops)[k]
  {
    var n := |ops| - 1;
    if !PutsAt(ops[n], k) {
      assert k in After(ops[..n]) && After(ops)[k] == After(ops[..n])[k];
      StoredIsLatest(ops[..n], k);
    }
  }

  /** The last write at a time. */
  lemma {:induction false} LatestWrite(ops: seq<Op>, k: Key) returns (j: nat)
    requires k in Ever(ops)
    ensures k.tier == Raw
    ensures j < |ops| && PutsAt(ops[j], k) && Ever(ops)[k] == ops[j].put.value
    ensures forall i :: j < i < |ops| ==> !PutsAt(ops[i], k)
  {
    var n := |ops| - 1;
    if PutsAt(ops[n], k) {
      j := n;
    } else {
      j := LatestWrite(ops[..n], k);
    }
  }

  lemma {:induction false} WrittenIsEver(ops: seq<Op>, j: nat, k: Key)
    requires j < |ops| && PutsAt(ops[j], k)
    ensures k in Ever(ops)
  {
    var n := |ops| - 1;
    if j < n { WrittenIsEver(ops[..n], j, k); }
  }

  lemma PutsAtPutsInto(op: Op, k: Key)
    requires PutsAt(op, k)
    ensures k.tier == Raw && PutsInto(op, RollupOf(k))
  {
    HomeOfHome(op.put, Raw);
  }

  /** What a bucket ever held does not change while nothing is put into it. */
  lemma {:induction false} EverQuiet(ops: seq<Op>, i: nat, dst: Key, k: Key)
    requires i <= |ops| && k.tier == Raw && RollupOf(k) == dst
    requires forall j :: i <= j < |ops| ==> !PutsInto(ops[j], dst)
    ensures k in Ever(ops) <==> k in Ever(ops[..i])
    ensures k in Ever(ops) ==> Ever(ops)[k] == Ever(ops[..i])[k]
  {
    if i == |ops| {
      assert ops[..i] == ops;
    } else {
      var n := |ops| - 1;
      assert ops[..n][..i] == ops[..i];
      EverQuiet(ops[..n], i, dst, k);
      if PutsAt(ops[n], k) { PutsAtPutsInto(ops[n], k); }
    }
  }

  lemma PrefixTaken(ops: seq<Op>, n: nat, i: nat, dst: Key)
    requires i < n <= |ops|
    ensures Taken(ops[..n], i, dst) == Taken(ops, i, dst)
  {
    assert ops[..n][..i] == ops[..i];
  }

  /** A stored 5-minute rollup is the mean of what the last pass to take from its bucket took. */
  lemma {:induction false} LastTake(ops: seq<Op>, dst: Key) returns (i: nat)
    requires dst.tier == FiveMin && dst in After(ops)
    ensures TookLast(ops, i, dst) && After(ops)[dst] == Mean(After(ops[..i]), Taken(ops, i, dst))
  {
    var n := |ops| - 1;
    var db := After(ops[..n]);
    if Taken(ops, n, dst) != {} {
      i := n;
      TakesWrites(db, ops[n], dst);
    } else {
      i := LastTake(ops[..n], dst);
      StillLast(ops, i, dst);
    }
  }

  /** Operation `i` was the last to take from the bucket. */
  ghost predicate TookLast(ops: seq<Op>, i: nat, dst: Key) {
    && i < |ops| && Taken(ops, i, dst) != {}
    && forall j {:trigger Taken(ops, j, dst)} :: i < j < |ops| ==> Taken(ops, j, dst) == {}
  }

  lemma StillLast(ops: seq<Op>, i: nat, dst: Key)
    requires ops != [] && Taken(ops, |ops| - 1, dst) == {} && TookLast(ops[..|ops| - 1], i, dst)
    ensures ops[..|ops| - 1][..i] == ops[..i]
    ensures TookLast(ops, i, dst) && Taken(ops[..|ops| - 1], i, dst) == Taken(ops, i, dst)
  {
    var n := |ops| - 1;
    PrefixTaken(ops, n, i, dst);
    forall j | i < j < |ops| ensures Taken(ops, j, dst) == {} {
      if j < n { PrefixTaken(ops, n, j, dst); }
    }
  }

  lemma TakesWrites(db: Db, op: Op, dst: Key)
    requires TakenFrom(db, op, dst) != {}
    ensures dst in Applied(db, op) && Applied(db, op)[dst] == Mean(db, TakenFrom(db, op, dst))
  {
    var k :| k in TakenFrom(db, op, dst);
    assert dst in Targets(db, Raw, op.cutoff);
    assert BucketOf(db, Raw, dst, op.cutoff) == TakenFrom(db, op, dst);
  }

  lemma {:induction false} SumAgrees(a: Db, b: Db, ks: set<Key>)
    requires ks <= a.Keys && ks <= b.Keys && forall k :: k in ks ==> a[k] == b[k]
    ensures Sum(a, ks) == Sum(b, ks)
  {
    if ks != {} {
      var k :| k in ks;
      SumWithout(a, ks, k);
      SumWithout(b, ks, k);
      SumAgrees(a, b, ks - {k});
    }
  }

  /** What is stored was put, so what is taken was put. */
  lemma StoredWasPut(ops: seq<Op>, i: nat, k: Key)
    requires i <= |ops| && k.tier == Raw && k in After(ops[..i])
    ensures k in Ever(ops)
  {
    StoredIsLatest(ops[..i], k);
    var j := LatestWrite(ops[..i], k);
    WrittenIsEver(ops, j, k);
  }

  lemma TakenWasPut(ops: seq<Op>, i: nat, dst: Key)
    requires i < |ops|
    ensures Taken(ops, i, dst) <= EverBucket(ops, dst)
  {
    forall k | k in Taken(ops, i, dst) ensures k in EverBucket(ops, dst) { StoredWasPut(ops, i, k); }
  }

  /** What is taken and not touched since has its latest values. */
  lemma TakenIsLatest(ops: seq<Op>, i: nat, dst: Key)
    requires i < |ops| && Untouched(ops, i + 1, dst)
    ensures forall k :: k in Taken(ops, i, dst) ==> k in Ever(ops) && Ever(ops)[k] == After(ops[..i])[k]
  {
    forall k | k in Taken(ops, i, dst) ensures k in Ever(ops) && Ever(ops)[k] == After(ops[..i])[k] {
      StoredIsLatest(ops[..i], k);
      assert forall j :: i + 1 <= j < |ops| ==> Taken(ops, j, dst) == {} && !PutsInto(ops[j], dst);
      EverQuiet(ops, i, dst, k);
    }
  }

  lemma TakenWholeIsExact(ops: seq<Op>, dst: Key)
    ensures dst.tier == FiveMin && dst in After(ops) && TakenWhole(ops, dst) ==> IsExact(ops, dst)
  {
    if dst.tier == FiveMin && dst in After(ops) && TakenWhole(ops, dst) {
      var i := LastTake(ops, dst);
      var w :| 0 <= w < |ops| && Taken(ops, w, dst) == EverBucket(ops, dst) && Untouched(ops, w + 1, dst);
      TakenWasPut(ops, i, dst);
      assert w == i;
      TakenIsLatest(ops, i, dst);
      SumAgrees(After(ops[..i]), Ever(ops), Taken(ops, i, dst));
    }
  }

  // ---- The values that show a loss ----

  function Marked(op: Op, zero: set<Key>, early: bool): Op {
    if op.Wrote? then Wrote(op.put.(value := if early && Home(op.put, Raw) in zero then 0.0 else 1.0)) else op
  }

  /** The same operations, putting 0 at these keys before `i` and 1 otherwise. */
  function MarkedAll(ops: seq<Op>, zero: set<Key>, i: nat): (other: seq<Op>)
    ensures |other| == |ops| && forall j :: 0 <= j < |ops| ==> other[j] == Marked(ops[j], zero, j < i)
  {
    seq(|ops|, j requires 0 <= j < |ops| => Marked(ops[j], zero, j < i))
  }

  lemma MarkedStored(ops: seq<Op>, zero: set<Key>, i: nat, k: Key)
    requires i <= |ops| && k in zero && k.tier == Raw && k in After(MarkedAll(ops, zero, i)[..i])
    ensures After(MarkedAll(ops, zero, i)[..i])[k] == 0.0
  {
    var other := MarkedAll(ops, zero, i);
    StoredIsLatest(other[..i], k);
    var j := LatestWrite(other[..i], k);
  }

  lemma MarkedEver(ops: seq<Op>, zero: set<Key>, i: nat, k: Key)
    requires k in Ever(MarkedAll(ops, zero, i))
    ensures Ever(MarkedAll(ops, zero, i))[k] >= 0.0
    ensures Ever(MarkedAll(ops, zero, i))[k] == 0.0 ==> k in zero && forall j :: i <= j < |ops| ==> !PutsAt(ops[j], k)
  {
    var other := MarkedAll(ops, zero, i);
    var w := LatestWrite(other, k);
    forall j | w < j < |ops| ensures !PutsAt(ops[j], k) { assert !PutsAt(other[j], k); }
  }

  lemma {:induction false} SumAtLeast(db: Db, ks: set<Key>, k: Key)
    requires ks <= db.Keys && k in ks && forall j :: j in ks ==> db[j] >= 0.0
    ensures Sum(db, ks) >= db[k]
  {
    SumWithout(db, ks, k);
    if ks - {k} != {} {
      var j :| j in ks - {k};
      SumAtLeast(db, ks - {k}, j);
    }
  }

  lemma ZeroMean(db: Db, ks: set<Key>)
    requires ks <= db.Keys && ks != {} && Mean(db, ks) == 0.0 && forall k :: k in ks ==> db[k] >= 0.0
    ensures forall k :: k in ks ==> db[k] == 0.0
  {
    assert Mean(db, ks) * |ks| as real == Sum(db, ks);
    forall k | k in ks ensures db[k] == 0.0 { SumAtLeast(db, ks, k); }
  }

  /** The run that puts 0 at what operation `i` takes, before it takes it, and 1 otherwise. */
  ghost function MarkedAt(ops: seq<Op>, i: nat, dst: Key): (other: seq<Op>)
    ensures SameShape(ops, other)
  {
    if i < |ops| then MarkedAll(ops, Taken(ops, i, dst), i) else ops
  }

  /** If the marked run's rollup is exact, the last pass to take from the bucket took all of it for good. */
  lemma MarkedExact(ops: seq<Op>, i: nat, dst: Key)
    ensures dst.tier == FiveMin && TookLast(ops, i, dst) && IsExact(MarkedAt(ops, i, dst), dst) ==>
              forall k :: k in EverBucket(ops, dst) ==>
                k in Taken(ops, i, dst) && forall j :: i <= j < |ops| ==> !PutsAt(ops[j], k)
  {
    var other := MarkedAt(ops, i, dst);
    if dst.tier == FiveMin && TookLast(ops, i, dst) && IsExact(other, dst) {
      var zero := Taken(ops, i, dst);
      ShapeBucket(ops, other, dst);
      MarkedRollup(ops, i, dst);
      forall k | k in EverBucket(ops, dst) ensures Ever(other)[k] >= 0.0 { MarkedEver(ops, zero, i, k); }
      ZeroMean(Ever(other), EverBucket(ops, dst));
      forall k | k in EverBucket(ops, dst)
        ensures k in zero && forall j :: i <= j < |ops| ==> !PutsAt(ops[j], k)
      {
        MarkedEver(ops, zero, i, k);
      }
    }
  }

  lemma MarkedRollup(ops: seq<Op>, i: nat, dst: Key)
    ensures dst.tier == FiveMin && TookLast(ops, i, dst) && dst in After(MarkedAt(ops, i, dst)) ==>
              After(MarkedAt(ops, i, dst))[dst] == 0.0
  {
    var other := MarkedAt(ops, i, dst);
    if dst.tier == FiveMin && TookLast(ops, i, dst) && dst in After(other) {
      var zero := Taken(ops, i, dst);
      var w := LastTake(other, dst);
      ShapeTaken(ops, other, w, dst);
      ShapeTaken(ops, other, i, dst);
      assert w == i;
      forall k | k in zero ensures After(other[..i])[k] == 0.0 { MarkedStored(ops, zero, i, k); }
      var lo, hi := MeanBetween(After(other[..i]), zero);
    }
  }

  lemma ExactIsTakenWhole(ops: seq<Op>, dst: Key)
    requires dst.tier == FiveMin && AlwaysExact(ops, dst)
    ensures dst in After(ops) && TakenWhole(ops, dst)
  {
    assert SameShape(ops, ops);
    var i := LastTake(ops, dst);
    assert IsExact(MarkedAt(ops, i, dst), dst);
    MarkedExact(ops, i, dst);
    TakenWasPut(ops, i, dst);
    assert Taken(ops, i, dst) == EverBucket(ops, dst);
    forall j | i + 1 <= j < |ops| ensures Taken(ops, j, dst) == {} && !PutsInto(ops[j], dst) {
      if PutsInto(ops[j], dst) { PutIsEver(ops, j, dst); }
    }
  }

  lemma PutIsEver(ops: seq<Op>, j: nat, dst: Key)
    requires j < |ops| && PutsInto(ops[j], dst)
    ensures PutsAt(ops[j], Home(ops[j].put, Raw)) && Home(ops[j].put, Raw) in EverBucket(ops, dst)
  {
    HomeOfHome(ops[j].put, Raw);
    WrittenIsEver(ops, j, Home(ops[j].put, Raw));
  }

  /**
   * Over any run of writes and finished passes: a 5-minute rollup is the mean of the latest values at every time
   * ever put in its bucket, whatever the values, exactly when it is still stored, the last pass to take from the
   * bucket took every time ever put in it, and nothing was put into it since.
   */
  lemma ExactRollup(ops: seq<Op>, dst: Key)
    requires dst.tier == FiveMin
    ensures AlwaysExact(ops, dst) <==> dst in After(ops) && TakenWhole(ops, dst)
  {
    if dst in After(ops) && TakenWhole(ops, dst) {
      forall other | SameShape(ops, other) ensures IsExact(other, dst) {
        ShapeKeys(ops, other);
        ShapeTakenWhole(ops, other, dst);
        TakenWholeIsExact(other, dst);
      }
    } else if AlwaysExact(ops, dst) {
      ExactIsTakenWhole(ops, dst);
    }
  }

  // ---- Buckets whose times are put once ----

  /** Every pass that took from the bucket took all of it that was stored, and nothing was put into it afterwards. */
  ghost predicate TakenForGood(ops: seq<Op>, dst: Key) {
    forall i {:trigger Taken(ops, i, dst)} :: 0 <= i < |ops| && Taken(ops, i, dst) != {} ==>
      && Taken(ops, i, dst) == WholeBucket(After(ops[..i]), Raw, dst)
      && forall j :: i < j < |ops| ==> !PutsInto(ops[j], dst)
  }

  /** No time of the bucket is put twice. */
  predicate PutOnce(ops: seq<Op>, dst: Key) {
    forall i, j :: 0 <= i < j < |ops| && PutsInto(ops[i], dst) && PutsInto(ops[j], dst) ==>
      Home(ops[i].put, Raw) != Home(ops[j].put, Raw)
  }

  lemma StoredBefore(ops: seq<Op>, n: nat, k: Key)
    requires k.tier == Raw && k in After(ops) && |ops| == n + 1 && !PutsAt(ops[n], k)
    ensures k in After(ops[..n]) && k !in Taken(ops, n, RollupOf(k))
  {
  }

  lemma StillNotTaken(ops: seq<Op>, j: nat, n: nat, k: Key, dst: Key)
    requires |ops| == n + 1 && k !in Taken(ops, n, dst)
    requires forall i {:trigger Taken(ops[..n], i, dst)} :: j < i < n ==> k !in Taken(ops[..n], i, dst)
    ensures forall i {:trigger Taken(ops, i, dst)} :: j < i < |ops| ==> k !in Taken(ops, i, dst)
  {
    forall i | j < i < n ensures k !in Taken(ops, i, dst) { PrefixTaken(ops, n, i, dst); }
  }

  /** A stored raw point was put and not taken since. */
  lemma {:induction false} StoredSince(ops: seq<Op>, k: Key) returns (j: nat)
    requires k.tier == Raw && k in After(ops)
    ensures j < |ops| && PutsAt(ops[j], k)
    ensures forall i {:trigger Taken(ops, i, RollupOf(k))} :: j < i < |ops| ==> k !in Taken(ops, i, RollupOf(k))
  {
    assert ops != [];
    var n := |ops| - 1;
    if PutsAt(ops[n], k) {
      j := n;
    } else {
      StoredBefore(ops, n, k);
      j := StoredSince(ops[..n], k);
      StillNotTaken(ops, j, n, k, RollupOf(k));
    }
  }

  /** A raw point that was put and not taken since is stored. */
  lemma {:induction false} StillStored(ops: seq<Op>, j: nat, n: nat, k: Key)
    requires j < n <= |ops| && k.tier == Raw && PutsAt(ops[j], k)
    requires forall i {:trigger Taken(ops, i, RollupOf(k))} :: j < i < n ==> k !in Taken(ops, i, RollupOf(k))
    ensures k in After(ops[..n])
  {
    assert ops[..n][..n - 1] == ops[..n - 1];
    if j < n - 1 {
      StillStored(ops, j, n - 1, k);
      assert k !in Taken(ops, n - 1, RollupOf(k));
    }
  }

  lemma StoredSinceIn(ops: seq<Op>, n: nat, k: Key) returns (j: nat)
    requires n <= |ops| && k.tier == Raw && k in After(ops[..n])
    ensures j < n && PutsAt(ops[j], k) && PutsInto(ops[j], RollupOf(k))
    ensures forall i {:trigger Taken(ops, i, RollupOf(k))} :: j < i < n ==> k !in Taken(ops, i, RollupOf(k))
  {
    j := StoredSince(ops[..n], k);
    PutsAtPutsInto(ops[j], k);
    forall i | j < i < n ensures k !in Taken(ops, i, RollupOf(k)) {
      PrefixTaken(ops, n, i, RollupOf(k));
    }
  }

  /** Without puts in between, what is stored was stored and was not taken. */
  lemma StoredAllAlong(ops: seq<Op>, i: nat, n: nat, k: Key)
    requires i < n <= |ops| && k.tier == Raw && k in After(ops[..n]) && !PutsInto(ops[i], RollupOf(k))
    requires forall j :: i < j < |ops| ==> !PutsInto(ops[j], RollupOf(k))
    ensures k in After(ops[..i]) && k !in Taken(ops, i, RollupOf(k))
  {
    var j := StoredSinceIn(ops, n, k);
    StillStored(ops, j, i, k);
  }

  lemma FirstTake(ops: seq<Op>, earlier: nat, i: nat, dst: Key)
    requires earlier < i < |ops| && TakenForGood(ops, dst)
    ensures Taken(ops, i, dst) == {} || Taken(ops, earlier, dst) == {}
  {
    if Taken(ops, earlier, dst) != {} && Taken(ops, i, dst) != {} {
      var k :| k in Taken(ops, i, dst);
      StoredAllAlong(ops, earlier, i, k);
    }
  }

  lemma TakenForGoodIsWhole(ops: seq<Op>, dst: Key)
    requires dst.tier == FiveMin && dst in After(ops) && TakenForGood(ops, dst)
    ensures TakenWhole(ops, dst)
  {
    var i := LastTake(ops, dst);
    forall k | k in EverBucket(ops, dst) ensures k in Taken(ops, i, dst) {
      var j := LatestWrite(ops, k);
      PutsAtPutsInto(ops[j], k);
      forall m | j < m < i ensures k !in Taken(ops, m, dst) { FirstTake(ops, m, i, dst); }
      StillStored(ops, j, i, k);
    }
    TakenWasPut(ops, i, dst);
    assert Taken(ops, i, dst) == EverBucket(ops, dst) && Untouched(ops, i + 1, dst);
  }

  lemma WholeIsTakenForGood(ops: seq<Op>, dst: Key)
    requires PutOnce(ops, dst) && TakenWhole(ops, dst)
    ensures TakenForGood(ops, dst)
  {
    var w :| 0 <= w < |ops| && Taken(ops, w, dst) == EverBucket(ops, dst) && Untouched(ops, w + 1, dst);
    forall i | 0 <= i < |ops| && Taken(ops, i, dst) != {}
      ensures Taken(ops, i, dst) == WholeBucket(After(ops[..i]), Raw, dst)
      ensures forall j :: i < j < |ops| ==> !PutsInto(ops[j], dst)
    {
      if i < w { NotBefore(ops, i, w, dst); }
      EverIsWhole(ops, w, dst);
    }
  }

  lemma EverIsWhole(ops: seq<Op>, w: nat, dst: Key)
    requires w < |ops| && Taken(ops, w, dst) == EverBucket(ops, dst) && Untouched(ops, w + 1, dst)
    ensures Taken(ops, w, dst) == WholeBucket(After(ops[..w]), Raw, dst)
    ensures forall j :: w < j < |ops| ==> Taken(ops, j, dst) == {} && !PutsInto(ops[j], dst)
  {
    forall k | k in WholeBucket(After(ops[..w]), Raw, dst) ensures k in Taken(ops, w, dst) { StoredWasPut(ops, w, k); }
    forall j | w < j < |ops| ensures Taken(ops, j, dst) == {} && !PutsInto(ops[j], dst) { assert w + 1 <= j; }
  }

  /** What is put once and taken cannot be there for a later pass. */
  lemma NotBefore(ops: seq<Op>, i: nat, w: nat, dst: Key)
    requires i < w < |ops| && PutOnce(ops, dst) && Taken(ops, w, dst) == EverBucket(ops, dst)
    ensures Taken(ops, i, dst) == {}
  {
    if Taken(ops, i, dst) != {} {
      var k :| k in Taken(ops, i, dst);
      TakenWasPut(ops, i, dst);
      var a := StoredSinceIn(ops, i, k);
      var b := StoredSinceIn(ops, w, k);
    }
  }

  /**
   * For a stored rollup whose times are put once, exact means that no pass took a part of the bucket or came too
   * early.
   */
  lemma ExactWhenPutOnce(ops: seq<Op>, dst: Key)
    requires dst.tier == FiveMin && dst in After(ops) && PutOnce(ops, dst)
    ensures AlwaysExact(ops, dst) <==> TakenForGood(ops, dst)
  {
    ExactRollup(ops, dst);
    if TakenForGood(ops, dst) { TakenForGoodIsWhole(ops, dst); }
    if TakenWhole(ops, dst) { WholeIsTakenForGood(ops, dst); }
  }

  function Twice(first: Put, again: Put, cutoff: int): seq<Op> {
    [Wrote(first), Passed(Raw, cutoff), Wrote(again), Passed(Raw, cutoff)]
  }

  /** A pass over one point and rollups takes the point. */
  lemma TakeOnly(ops: seq<Op>, i: nat, rollups: Db, k: Key)
    requires 0 < i < |ops| && ops[i].Passed? && ops[i].src == Raw && PutsAt(ops[i - 1], k) && k.ts < ops[i].cutoff
    requires After(ops[..i - 1]) == rollups && forall r :: r in rollups ==> r.tier != Raw
    ensures Taken(ops, i, RollupOf(k)) == {k}
    ensures After(ops[..i + 1]) == rollups[RollupOf(k) := ops[i - 1].put.value]
  {
    assert ops[..i][..i - 1] == ops[..i - 1] && ops[..i + 1][..i] == ops[..i];
    var db := rollups[k := ops[i - 1].put.value];
    assert Old(db, Raw, ops[i].cutoff) == {k};
    OneOldPoint(db, Raw, ops[i].cutoff, k);
    assert db - {k} == rollups;
  }

  lemma TwiceTaken(first: Put, again: Put, cutoff: int, k: Key, dst: Key)
    requires again == first.(value := again.value) && first.ts < cutoff && k == Home(first, Raw) && dst == RollupOf(k)
    ensures var ops := Twice(first, again, cutoff);
            dst in After(ops) && Taken(ops, 1, dst) == Taken(ops, 3, dst) == {k}
  {
    var ops := Twice(first, again, cutoff);
    assert ops[..0] == [] && ops[..4] == ops;
    TakeOnly(ops, 1, map[], k);
    TakeOnly(ops, 3, map[dst := first.value], k);
  }

  lemma TwiceEver(first: Put, again: Put, cutoff: int, k: Key)
    requires again == first.(value := again.value) && k == Home(first, Raw)
    ensures EverBucket(Twice(first, again, cutoff), RollupOf(k)) == {k}
  {
    var ops := Twice(first, again, cutoff);
    WrittenIsEver(ops, 0, k);
    forall j | j in Ever(ops) ensures j == k { var w := LatestWrite(ops, j); }
  }

  /**
   * Putting the taken time again and taking it again is exact too, though something was put after a pass took the
   * bucket.
   */
  lemma PutAgain(first: Put, again: Put, cutoff: int)
    requires again == first.(value := again.value) && first.ts < cutoff
    ensures var (ops, dst) := (Twice(first, again, cutoff), Home(first, FiveMin));
            AlwaysExact(ops, dst) && !TakenForGood(ops, dst)
  {
    var (ops, k, dst) := (Twice(first, again, cutoff), Home(first, Raw), Home(first, FiveMin));
    HomeOfHome(first, Raw);
    TwiceTaken(first, again, cutoff, k, dst);
    TwiceEver(first, again, cutoff, k);
    assert Untouched(ops, 4, dst) && PutsInto(ops[2], dst);
    ExactRollup(ops, dst);
  }
}
