/** Keys that end in a zero-padded time: how they sort, how they parse, and what a scan between two of them returns. */
module TimeKeys {
  import Lex

  const INT64_MIN := -0x8000_0000_0000_0000
  const INT64_MAX := 0x7fff_ffff_ffff_ffff

  predicate IsInt64(n: int) {
    INT64_MIN <= n <= INT64_MAX
  }

  // ---- Fixed-width decimals ----

  const DIGITS: string := "0123456789"

  function Pow10(w: nat): nat {
    if w == 0 then 1 else 10 * Pow10(w - 1)
  }

  /** The last `w` decimal digits of `n`. */
  function Digits(n: nat, w: nat): (s: string)
    ensures |s| == w && forall c :: c in s ==> c in DIGITS
  {
    if w == 0 then "" else Digits(n / 10, w - 1) + [DIGITS[n % 10]]
  }

  /** The "%020d" of a 64-bit number: a sign takes one of the twenty places. */
  function Pad20(n: int): (s: string)
    requires IsInt64(n)
    ensures |s| == 20
  {
    if n < 0 then "-" + Digits(-n, 19) else Digits(n, 20)
  }

  function TsKey(prefix: string, ts: int): string
    requires IsInt64(ts)
  {
    prefix + Pad20(ts)
  }

  lemma {:induction false} LessOfAppend(x: string, y: string, c: char, d: char)
    requires |x| == |y|
    ensures Lex.Less(x + [c], y + [d]) <==> Lex.Less(x, y) || (x == y && c < d)
  {
    if x != "" {
      assert (x + [c])[1..] == x[1..] + [c] && (y + [d])[1..] == y[1..] + [d];
      assert x == [x[0]] + x[1..] && y == [y[0]] + y[1..];
      LessOfAppend(x[1..], y[1..], c, d);
    }
  }

  lemma DigitOrder(i: nat, j: nat)
    requires i < 10 && j < 10
    ensures DIGITS[i] < DIGITS[j] <==> i < j
    ensures DIGITS[i] == DIGITS[j] <==> i == j
  {
    assert DIGITS[i] as int == '0' as int + i && DIGITS[j] as int == '0' as int + j;
  }

  /** Fixed-width decimals sort as their numbers. */
  lemma {:induction false} DigitsOrder(a: nat, b: nat, w: nat)
    requires a < Pow10(w) && b < Pow10(w)
    ensures Lex.Less(Digits(a, w), Digits(b, w)) <==> a < b
    ensures Digits(a, w) == Digits(b, w) <==> a == b
  {
    if w > 0 {
      var (x, y) := (Digits(a / 10, w - 1), Digits(b / 10, w - 1));
      DigitsOrder(a / 10, b / 10, w - 1);
      DigitOrder(a % 10, b % 10);
      LessOfAppend(x, y, DIGITS[a % 10], DIGITS[b % 10]);
      assert (x + [DIGITS[a % 10]])[..w - 1] == x && (y + [DIGITS[b % 10]])[..w - 1] == y;
      assert (x + [DIGITS[a % 10]])[w - 1] == DIGITS[a % 10] && (y + [DIGITS[b % 10]])[w - 1] == DIGITS[b % 10];
    }
  }

  lemma Int64Width()
    ensures Pow10(19) > -INT64_MIN && Pow10(20) > INT64_MAX
  {
    assert Pow10(5) == 100_000;
    assert Pow10(10) == 10_000_000_000;
    assert Pow10(15) == 1_000_000_000_000_000;
    assert Pow10(19) == 10_000_000_000_000_000_000;
  }

  lemma AfterSign(x: string, y: string)
    requires !Lex.Less(x, y) && x != y
    ensures !Lex.Less("-" + x, "-" + y) && "-" + x != "-" + y
  {
    Lex.CommonPrefix("-", x, y);
    assert ("-" + x)[1..] == x && ("-" + y)[1..] == y;
  }

  lemma NegativesReversed(a: int, b: int)
    requires INT64_MIN <= a < b < 0
    ensures !Lex.Less(Pad20(a), Pad20(b)) && Pad20(a) != Pad20(b)
  {
    Int64Width();
    DigitsOrder(-a, -b, 19);
    AfterSign(Digits(-a, 19), Digits(-b, 19));
  }

  lemma SignFirst(a: int, b: int)
    requires INT64_MIN <= a < 0 <= b <= INT64_MAX
    ensures Lex.Less(Pad20(a), Pad20(b)) && Pad20(a) != Pad20(b)
  {
    var c := Pad20(b)[0];
    assert c in Digits(b, 20);
    assert Pad20(a)[0] == '-' < c by { assert forall d :: d in DIGITS ==> '-' < d; }
  }

  /** Of two different times, the keys sort as the times exactly when the later one is not negative. */
  lemma KeyOrder(prefix: string, a: int, b: int)
    requires IsInt64(a) && IsInt64(b) && a < b
    ensures Lex.Less(TsKey(prefix, a), TsKey(prefix, b)) <==> b >= 0
    ensures TsKey(prefix, a) != TsKey(prefix, b)
  {
    if b < 0 {
      NegativesReversed(a, b);
    } else if a < 0 {
      SignFirst(a, b);
    } else {
      Int64Width();
      DigitsOrder(a, b, 20);
    }
    Lex.CommonPrefix(prefix, Pad20(a), Pad20(b));
    assert TsKey(prefix, a)[|prefix|..] == Pad20(a) && TsKey(prefix, b)[|prefix|..] == Pad20(b);
  }

  // ---- Reading the number back ----

  function DigitValue(c: char): nat
    requires c in DIGITS
  {
    c as int - '0' as int
  }

  function ParseDigits(s: string): nat
    requires forall c :: c in s ==> c in DIGITS
  {
    if s == "" then 0 else
      assert s[|s| - 1] in s;
      10 * ParseDigits(s[..|s| - 1]) + DigitValue(s[|s| - 1])
  }

  predicate AllDigits(s: string) {
    s != "" && forall c :: c in s ==> c in DIGITS
  }

  function Clamp64(n: int): int {
    if n < INT64_MIN then INT64_MIN else if n > INT64_MAX then INT64_MAX else n
  }

  /** strconv.ParseInt with its error ignored: 0 for bad syntax, the nearest bound when out of range. */
  function ParseInt(s: string): int {
    if AllDigits(s) then Clamp64(ParseDigits(s))
    else if s != "" && s[0] == '-' && AllDigits(s[1..]) then Clamp64(0 - ParseDigits(s[1..]))
    else if s != "" && s[0] == '+' && AllDigits(s[1..]) then Clamp64(ParseDigits(s[1..]))
    else 0
  }

  lemma {:induction false} ParseOfDigits(n: nat, w: nat)
    requires n < Pow10(w)
    ensures ParseDigits(Digits(n, w)) == n
  {
    if w > 0 {
      var s := Digits(n, w);
      assert s[..w - 1] == Digits(n / 10, w - 1) && s[w - 1] == DIGITS[n % 10];
      assert DIGITS[n % 10] as int == '0' as int + n % 10;
      ParseOfDigits(n / 10, w - 1);
    }
  }

  lemma MinusParse(s: string, x: string)
    requires s == ['-'] + x && AllDigits(x)
    ensures ParseInt(s) == Clamp64(0 - ParseDigits(x))
  {
    assert s[0] in s && '-' !in DIGITS;
    assert s[1..] == x;
  }

  lemma NegativeRoundTrip(n: int)
    requires INT64_MIN <= n < 0
    ensures ParseInt(Pad20(n)) == n
  {
    Int64Width();
    ParseOfDigits(-n, 19);
    MinusParse(Pad20(n), Digits(-n, 19));
  }

  /** The padded number reads back, negative or not. */
  lemma PadRoundTrip(n: int)
    requires IsInt64(n)
    ensures ParseInt(Pad20(n)) == n
  {
    if n < 0 {
      NegativeRoundTrip(n);
    } else {
      Int64Width();
      ParseOfDigits(n, 20);
    }
  }

  // ---- Range scans ----

  datatype Sample = Sample(ts: int, value: real)

  ghost predicate StrictlySorted(s: seq<string>) {
    forall i, j :: 0 <= i < j < |s| ==> Lex.Less(s[i], s[j])
  }

  /** The store's keys in iteration order. */
  method OrderedKeys(db: map<string, real>) returns (ks: seq<string>)
    ensures StrictlySorted(ks) && forall k :: k in ks <==> k in db
  {
    var todo, listed := db.Keys, [];
    while todo != {}
      invariant todo <= db.Keys && forall k :: k in listed <==> k in db && k !in todo
      invariant forall i, j :: 0 <= i < j < |listed| ==> listed[i] != listed[j]
    {
      var k :| k in todo;
      todo := todo - {k};
      listed := listed + [k];
    }
    ks := Lex.Sort(listed);
    SortedDistinct(listed, ks);
  }

  lemma SortedDistinct(s: seq<string>, r: seq<string>)
    requires (forall i, j :: 0 <= i < j < |s| ==> s[i] != s[j]) && Lex.Sorted(r) && multiset(r) == multiset(s)
    ensures StrictlySorted(r) && forall k :: k in r <==> k in s
  {
    forall k ensures k in r <==> k in s { assert k in multiset(r) <==> k in multiset(s); }
    forall i, j | 0 <= i < j < |r| ensures Lex.Less(r[i], r[j]) {
      Lex.Total(r[i], r[j]);
      if r[i] == r[j] {
        assert r == r[..j] + r[j..] && r[i] == r[..j][i] && r[j] == r[j..][0];
        assert r[i] in r[..j] && r[i] in r[j..];
        assert multiset(r) == multiset(r[..j]) + multiset(r[j..]);
        OnceEach(s, r[i]);
      }
    }
  }

  lemma {:induction false} OnceEach(s: seq<string>, k: string)
    requires forall i, j :: 0 <= i < j < |s| ==> s[i] != s[j]
    ensures multiset(s)[k] <= 1
  {
    if s != [] {
      var n := |s| - 1;
      assert s == s[..n] + [s[n]];
      OnceEach(s[..n], k);
      assert s[n] !in s[..n];
    }
  }

  /** `k` lies between the two keys, both included. */
  predicate Between(k: string, first: string, last: string) {
    !Lex.Less(k, first) && !Lex.Less(last, k)
  }

  /** `results` lists the stored keys between the keys of `from` and `to`, in key order, decoded. */
  ghost predicate Scanned(db: map<string, real>, prefix: string, from: int, to: int, keys: seq<string>,
                          results: seq<Sample>)
    requires IsInt64(from) && IsInt64(to)
  {
    && StrictlySorted(keys)
    && (forall k :: k in keys <==> k in db && Between(k, TsKey(prefix, from), TsKey(prefix, to)))
    && |results| == |keys|
    && forall i :: 0 <= i < |keys| ==>
         prefix <= keys[i] && keys[i] in db && results[i] == Sample(ParseInt(keys[i][|prefix|..]), db[keys[i]])
  }

  /** The position of the first key that is not before `seekKey`. */
  method Seek(ks: seq<string>, seekKey: string) returns (start: nat)
    ensures start <= |ks| && (forall j :: 0 <= j < start ==> Lex.Less(ks[j], seekKey))
    ensures start < |ks| ==> !Lex.Less(ks[start], seekKey)
  {
    start := 0;
    while start < |ks| && Lex.Less(ks[start], seekKey)
      invariant start <= |ks| && forall j :: 0 <= j < start ==> Lex.Less(ks[j], seekKey)
    {
      start := start + 1;
    }
  }

  /** Seek to the first key, walk in order, stop past the last key or outside the prefix. */
  method RangeQuery(db: map<string, real>, prefix: string, from: int, to: int) returns (results: seq<Sample>)
    requires IsInt64(from) && IsInt64(to)
    ensures exists keys :: Scanned(db, prefix, from, to, keys, results)
  {
    var ks := OrderedKeys(db);
    var start := Seek(ks, TsKey(prefix, from));
    var end;
    end, results := Walk(db, prefix, Pad20(from), Pad20(to), ks, start);
    ghost var keys := ks[start..end];
    SliceIsScan(ks, start, end, TsKey(prefix, from), TsKey(prefix, to));
    assert Scanned(db, prefix, from, to, keys, results);
  }

  method Walk(db: map<string, real>, prefix: string, ghost low: string, high: string, ks: seq<string>, start: nat)
    returns (i: nat, results: seq<Sample>)
    requires StrictlySorted(ks) && (forall k :: k in ks <==> k in db)
    requires start <= |ks| && (start < |ks| ==> !Lex.Less(ks[start], prefix + low))
    ensures start <= i <= |ks| && |results| == i - start && (i < |ks| ==> Lex.Less(prefix + high, ks[i]))
    ensures forall j :: start <= j < i ==> !Lex.Less(prefix + high, ks[j])
    ensures forall j :: start <= j < i ==>
              prefix <= ks[j] && results[j - start] == Sample(ParseInt(ks[j][|prefix|..]), db[ks[j]])
  {
    i, results := start, [];
    while i < |ks|
      invariant start <= i <= |ks| && |results| == i - start
      invariant forall j :: start <= j < i ==> !Lex.Less(prefix + high, ks[j])
      invariant forall j :: start <= j < i ==>
                  prefix <= ks[j] && results[j - start] == Sample(ParseInt(ks[j][|prefix|..]), db[ks[j]])
    {
      var k := ks[i];
      NotBefore(ks, start, i, prefix + low);
      if !Lex.Less(prefix + high, k) { Lex.BetweenSharesPrefix(prefix, low, k, high); }
      if Lex.Less(prefix + high, k) || !(prefix <= k) { break; }
      results := results + [Sample(ParseInt(k[|prefix|..]), db[k])];
      i := i + 1;
    }
  }

  lemma NotBefore(ks: seq<string>, start: nat, i: nat, first: string)
    requires StrictlySorted(ks) && start <= i < |ks| && !Lex.Less(ks[start], first)
    ensures !Lex.Less(ks[i], first)
  {
    if start < i && Lex.Less(ks[i], first) { Lex.Transitive(ks[start], ks[i], first); }
  }

  lemma SliceIsScan(ks: seq<string>, start: nat, end: nat, first: string, last: string)
    requires StrictlySorted(ks) && start <= end <= |ks|
    requires forall j :: 0 <= j < start ==> Lex.Less(ks[j], first)
    requires start < |ks| ==> !Lex.Less(ks[start], first)
    requires forall j :: start <= j < end ==> !Lex.Less(last, ks[j])
    requires end < |ks| ==> Lex.Less(last, ks[end])
    ensures StrictlySorted(ks[start..end])
    ensures forall k :: k in ks[start..end] <==> k in ks && Between(k, first, last)
  {
    forall k ensures k in ks[start..end] <==> k in ks && Between(k, first, last) {
      if k in ks[start..end] {
        var j :| start <= j < end && ks[j] == k;
        NotBefore(ks, start, j, first);
      }
      if k in ks && Between(k, first, last) {
        var j :| 0 <= j < |ks| && ks[j] == k;
        if j > end { Lex.Transitive(last, ks[end], ks[j]); }
        assert start <= j < end;
        assert ks[start..end][j - start] == k;
      }
    }
  }

  /** Every key of the series was written for a time that is not negative. */
  ghost predicate TimeKeyed(db: map<string, real>, prefix: string) {
    forall k :: k in db && prefix <= k ==> exists t :: 0 <= t <= INT64_MAX && k == TsKey(prefix, t)
  }

  lemma BetweenTimes(prefix: string, from: int, t: int, to: int)
    requires IsInt64(from) && IsInt64(to) && 0 <= t <= INT64_MAX
    ensures Between(TsKey(prefix, t), TsKey(prefix, from), TsKey(prefix, to)) <==> from <= t <= to
  {
    KeyNotBefore(prefix, t, from);
    KeyNotBefore(prefix, to, t);
  }

  /** When the later time of a pair is not negative, one key is before the other exactly when its time is. */
  lemma KeyNotBefore(prefix: string, a: int, b: int)
    requires IsInt64(a) && IsInt64(b) && (a >= 0 || b >= 0)
    ensures Lex.Less(TsKey(prefix, a), TsKey(prefix, b)) <==> a < b
  {
    Lex.Total(TsKey(prefix, a), TsKey(prefix, b));
    if a < b { KeyOrder(prefix, a, b); } else if b < a { KeyOrder(prefix, b, a); }
  }

  lemma ScannedInOrder(db: map<string, real>, prefix: string, from: int, to: int, keys: seq<string>,
                       results: seq<Sample>)
    requires IsInt64(from) && IsInt64(to) && TimeKeyed(db, prefix) && Scanned(db, prefix, from, to, keys, results)
    ensures forall i :: 0 <= i < |keys| ==>
              0 <= results[i].ts <= INT64_MAX && keys[i] == TsKey(prefix, results[i].ts) && from <= results[i].ts <= to
  {
    forall i | 0 <= i < |keys|
      ensures 0 <= results[i].ts <= INT64_MAX && keys[i] == TsKey(prefix, results[i].ts) && from <= results[i].ts <= to
    {
      var t :| 0 <= t <= INT64_MAX && keys[i] == TsKey(prefix, t);
      assert keys[i][|prefix|..] == Pad20(t);
      PadRoundTrip(t);
      BetweenTimes(prefix, from, t, to);
      assert keys[i] in keys;
    }
  }

  /** On a series keyed by time, a scan returns exactly the points from `from` to `to`, in time order. */
  lemma ScanIsRange(db: map<string, real>, prefix: string, from: int, to: int, results: seq<Sample>)
    requires IsInt64(from) && IsInt64(to) && TimeKeyed(db, prefix)
    requires exists keys :: Scanned(db, prefix, from, to, keys, results)
    ensures forall i, j :: 0 <= i < j < |results| ==> results[i].ts < results[j].ts
    ensures forall t, v :: Sample(t, v) in results <==>
              0 <= t <= INT64_MAX && from <= t <= to && TsKey(prefix, t) in db && db[TsKey(prefix, t)] == v
  {
    var keys :| Scanned(db, prefix, from, to, keys, results);
    ScannedInOrder(db, prefix, from, to, keys, results);
    forall i, j | 0 <= i < j < |results| ensures results[i].ts < results[j].ts {
      Lex.Total(keys[i], keys[j]);
      if results[j].ts < results[i].ts { KeyOrder(prefix, results[j].ts, results[i].ts); }
    }
    forall t, v | 0 <= t <= INT64_MAX && from <= t <= to && TsKey(prefix, t) in db && db[TsKey(prefix, t)] == v
      ensures Sample(t, v) in results
    {
      BetweenTimes(prefix, from, t, to);
      var i :| 0 <= i < |keys| && keys[i] == TsKey(prefix, t);
      assert keys[i][|prefix|..] == Pad20(t);
      PadRoundTrip(t);
      assert results[i] == Sample(t, v);
    }
  }
}
