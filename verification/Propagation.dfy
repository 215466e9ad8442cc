/** Failure pressure over an acyclic graph of object groups, and blast radius. */
module Propagation {

  datatype Group = Workload | Network | Storage | ControlPlane | Admission | Operators | Tenancy | Other(name: string)

  datatype Edge = Edge(from: Group, to: Group, omega: real)

  const KAPPA := 0.5
  const THETA := 0.2

  const CANONICAL_EDGES: seq<Edge> := [
    Edge(ControlPlane, Workload, 1.0),
    Edge(ControlPlane, Network, 0.9),
    Edge(Network, Workload, 0.9),
    Edge(Storage, Workload, 0.8),
    Edge(Admission, Workload, 0.7),
    Edge(Admission, Network, 0.6),
    Edge(Operators, Storage, 0.6),
    Edge(Operators, Network, 0.6),
    Edge(Operators, Workload, 0.5)]

  const TOPO_ORDER: seq<Group> := [ControlPlane, Operators, Admission, Tenancy, Storage, Network, Workload]

  type Levels = map<Group, real>

  /** A group absent from a map reads as zero. */
  function Get(m: Levels, g: Group): real {
    if g in m then m[g] else 0.0
  }

  function Max(x: real, y: real): real {
    if x < y then y else x
  }

  function Min(x: real, y: real): real {
    if x < y then x else y
  }

  /** What an edge whose source is at level `a` passes on. */
  function Contribution(a: real, e: Edge, gni: Levels): real {
    a * e.omega * (1.0 + KAPPA * Get(gni, e.from))
  }

  /** A group's own activation or the pressure it received, whichever is larger. */
  function Effective(activation: Levels, pressure: Levels, g: Group): real {
    if g in pressure then Max(Get(activation, g), pressure[g]) else Get(activation, g)
  }

  /** The largest of `m` and, when edge `e` leads to `t`, what it passes on from level `a`. */
  function Offered(m: real, a: real, e: Edge, gni: Levels, t: Group): real {
    if e.to == t then Max(m, Contribution(a, e, gni)) else m
  }

  /** The largest contribution of an edge into `t`, and at least zero. */
  function Incoming(edges: seq<Edge>, activation: Levels, gni: Levels, pressure: Levels, t: Group): real {
    if edges == [] then 0.0
    else
      var (rest, e) := (edges[..|edges| - 1], edges[|edges| - 1]);
      var m := Incoming(rest, activation, gni, pressure, t);
      Offered(m, Effective(activation, pressure, e.from), e, gni, t)
  }

  /** The pressures after visiting the groups in order. */
  function Pressure(order: seq<Group>, edges: seq<Edge>, activation: Levels, gni: Levels): (p: Levels)
    ensures forall g :: g in p <==> g in order
  {
    if order == [] then map[]
    else
      var (before, t) := (order[..|order| - 1], order[|order| - 1]);
      var p := Pressure(before, edges, activation, gni);
      assert forall g :: g in order <==> g in before || g == t;
      p[t := Min(Incoming(edges, activation, gni, p, t), 1.0)]
  }

  lemma IncomingNext(edges: seq<Edge>, j: nat, activation: Levels, gni: Levels, pressure: Levels, t: Group)
    requires j < |edges|
    ensures var m := Incoming(edges[..j], activation, gni, pressure, t);
            Incoming(edges[..j + 1], activation, gni, pressure, t) ==
            Offered(m, Effective(activation, pressure, edges[j].from), edges[j], gni, t)
  {
    var pre := edges[..j + 1];
    assert pre[..|pre| - 1] == edges[..j] && pre[|pre| - 1] == edges[j];
  }

  lemma PressureNext(order: seq<Group>, i: nat, edges: seq<Edge>, activation: Levels, gni: Levels)
    requires i < |order|
    ensures var p := Pressure(order[..i], edges, activation, gni);
            Pressure(order[..i + 1], edges, activation, gni) ==
              p[order[i] := Min(Incoming(edges, activation, gni, p, order[i]), 1.0)]
  {
    var pre := order[..i + 1];
    assert pre[..|pre| - 1] == order[..i] && pre[|pre| - 1] == order[i];
  }

  lemma RaisedLevel(effective: Levels, activation: Levels, p: Levels, t: Group, x: real)
    requires t !in p && forall g :: Get(effective, g) == Effective(activation, p, g)
    ensures var raised := if x > Get(effective, t) then effective[t := x] else effective;
            forall g :: Get(raised, g) == Effective(activation, p[t := x], g)
  {
    var raised := if x > Get(effective, t) then effective[t := x] else effective;
    forall g ensures Get(raised, g) == Effective(activation, p[t := x], g) {
      assert Get(effective, g) == Effective(activation, p, g);
    }
  }

  predicate Distinct(s: seq<Group>) {
    forall i, j :: 0 <= i < j < |s| ==> s[i] != s[j]
  }

  /** The inner loop: scans the edges into `tgt`. */
  method LargestContribution(effective: Levels, edges: seq<Edge>, gni: Levels, tgt: Group,
                             ghost activation: Levels, ghost pressure: Levels) returns (maxP: real)
    requires forall g :: Get(effective, g) == Effective(activation, pressure, g)
    ensures maxP == Incoming(edges, activation, gni, pressure, tgt)
  {
    maxP := 0.0;
    for j := 0 to |edges|
      invariant maxP == Incoming(edges[..j], activation, gni, pressure, tgt)
    {
      var e := edges[j];
      IncomingNext(edges, j, activation, gni, pressure, tgt);
      if e.to == tgt {
        var p := Contribution(Get(effective, e.from), e, gni);
        if p > maxP { maxP := p; }
      }
    }
    assert edges[..|edges|] == edges;
  }

  method ComputePropPressure(order: seq<Group>, edges: seq<Edge>, activation: Levels, gni: Levels)
    returns (result: Levels)
    requires Distinct(order)
    ensures result == Pressure(order, edges, activation, gni)
    ensures WellFormed(order, edges) ==> Documented(Groups(order), edges, activation, gni, result)
  {
    var effective := activation;
    result := map[];
    for i := 0 to |order|
      invariant result == Pressure(order[..i], edges, activation, gni)
      invariant forall g :: Get(effective, g) == Effective(activation, result, g)
    {
      var tgt := order[i];
      assert tgt !in order[..i];
      var maxP := LargestContribution(effective, edges, gni, tgt, activation, result);
      if maxP > 1.0 { maxP := 1.0; }
      PressureNext(order, i, edges, activation, gni);
      RaisedLevel(effective, activation, result, tgt, maxP);
      result := result[tgt := maxP];
      if maxP > Get(effective, tgt) { effective := effective[tgt := maxP]; }
    }
    assert order[..|order|] == order;
    if WellFormed(order, edges) { PressureIsDocumented(order, edges, activation, gni, result); }
  }

  // ---- The documented equation and its solution ----

  /** Every group is listed once, after the sources of its edges, and edges lead to listed groups. */
  ghost predicate WellFormed(order: seq<Group>, edges: seq<Edge>) {
    && Distinct(order)
    && (forall e :: e in edges ==> e.to in order)
    && forall e, i :: e in edges && 0 <= i < |order| && order[i] == e.to ==> e.from in order[..i]
  }

  /** Each group's pressure is the largest contribution of its edges, clamped to [0, 1]. */
  ghost predicate IsSolution(groups: set<Group>, edges: seq<Edge>, activation: Levels, gni: Levels, p: Levels) {
    && p.Keys == groups
    && forall t :: t in groups ==> p[t] == Min(Incoming(edges, activation, gni, p, t), 1.0)
  }

  function Groups(order: seq<Group>): set<Group> {
    set g | g in order
  }

  lemma {:induction false} IncomingAgrees(edges: seq<Edge>, activation: Levels, gni: Levels, p: Levels, q: Levels,
                                          t: Group)
    requires forall e :: e in edges && e.to == t ==>
             Effective(activation, p, e.from) == Effective(activation, q, e.from)
    ensures Incoming(edges, activation, gni, p, t) == Incoming(edges, activation, gni, q, t)
  {
    if edges != [] {
      assert edges[|edges| - 1] in edges;
      IncomingAgrees(edges[..|edges| - 1], activation, gni, p, q, t);
    }
  }

  lemma {:induction false} PrefixPressure(order: seq<Group>, i: nat, edges: seq<Edge>, activation: Levels, gni: Levels)
    requires Distinct(order) && i <= |order|
    ensures forall g :: g in order[..i] ==>
            Pressure(order[..i], edges, activation, gni)[g] == Pressure(order, edges, activation, gni)[g]
  {
    if i < |order| {
      var n := |order| - 1;
      PrefixPressure(order[..n], i, edges, activation, gni);
      assert order[..n][..i] == order[..i];
      PressureNext(order, n, edges, activation, gni);
      assert order[..n + 1] == order;
    } else {
      assert order[..i] == order;
    }
  }

  lemma SolvesAt(order: seq<Group>, i: nat, edges: seq<Edge>, activation: Levels, gni: Levels)
    requires WellFormed(order, edges) && i < |order|
    ensures var p := Pressure(order, edges, activation, gni);
            p[order[i]] == Min(Incoming(edges, activation, gni, p, order[i]), 1.0)
  {
    var p := Pressure(order, edges, activation, gni);
    var before := Pressure(order[..i], edges, activation, gni);
    PrefixPressure(order, i, edges, activation, gni);
    PrefixPressure(order, i + 1, edges, activation, gni);
    PressureNext(order, i, edges, activation, gni);
    assert order[..i + 1][i] == order[i];
    IncomingAgrees(edges, activation, gni, before, p, order[i]);
  }

  /** The pass over the groups solves the equation. */
  lemma PressureSolves(order: seq<Group>, edges: seq<Edge>, activation: Levels, gni: Levels)
    requires WellFormed(order, edges)
    ensures IsSolution(Groups(order), edges, activation, gni, Pressure(order, edges, activation, gni))
  {
    var p := Pressure(order, edges, activation, gni);
    forall t | t in order ensures p[t] == Min(Incoming(edges, activation, gni, p, t), 1.0) {
      var i :| 0 <= i < |order| && order[i] == t;
      SolvesAt(order, i, edges, activation, gni);
    }
  }

  lemma {:induction false} SolutionsAgree(order: seq<Group>, i: nat, edges: seq<Edge>, activation: Levels,
                                          gni: Levels, p: Levels, q: Levels)
    requires WellFormed(order, edges) && i <= |order|
    requires IsSolution(Groups(order), edges, activation, gni, p)
             && IsSolution(Groups(order), edges, activation, gni, q)
    ensures forall g :: g in order[..i] ==> p[g] == q[g]
  {
    if i > 0 {
      SolutionsAgree(order, i - 1, edges, activation, gni, p, q);
      IncomingAgrees(edges, activation, gni, p, q, order[i - 1]);
    }
  }

  lemma SolutionsEqual(order: seq<Group>, edges: seq<Edge>, activation: Levels, gni: Levels, p: Levels, q: Levels)
    requires WellFormed(order, edges)
    requires IsSolution(Groups(order), edges, activation, gni, p)
             && IsSolution(Groups(order), edges, activation, gni, q)
    ensures p == q
  {
    SolutionsAgree(order, |order|, edges, activation, gni, p, q);
    assert order[..|order|] == order;
  }

  /** The equation has one solution, and the pass finds it. */
  lemma UniqueSolution(order: seq<Group>, edges: seq<Edge>, activation: Levels, gni: Levels, p: Levels)
    requires WellFormed(order, edges)
    ensures IsSolution(Groups(order), edges, activation, gni, p) <==> p == Pressure(order, edges, activation, gni)
  {
    PressureSolves(order, edges, activation, gni);
    if IsSolution(Groups(order), edges, activation, gni, p) {
      SolutionsEqual(order, edges, activation, gni, p, Pressure(order, edges, activation, gni));
    }
  }

  /** What the documented equation has an edge pass on: its source's level, times its weight, amplified by the noise. */
  ghost function PassedDown(e: Edge, activation: Levels, gni: Levels, p: Levels): real {
    var own := if e.from in activation then activation[e.from] else 0.0;
    var level := if e.from in p && p[e.from] > own then p[e.from] else own;
    var noise := if e.from in gni then gni[e.from] else 0.0;
    level * e.omega * (1.0 + 0.5 * noise)
  }

  /** Each group is at the largest of what its edges pass on, at least 0 and at most 1. */
  ghost predicate Documented(groups: set<Group>, edges: seq<Edge>, activation: Levels, gni: Levels, p: Levels) {
    && p.Keys == groups
    && forall t :: t in groups ==> IsClampedMax(p[t], edges, activation, gni, p, t)
  }

  ghost predicate IsClampedMax(x: real, edges: seq<Edge>, activation: Levels, gni: Levels, p: Levels, t: Group) {
    && 0.0 <= x <= 1.0
    && (forall e :: e in edges && e.to == t ==> x == 1.0 || x >= PassedDown(e, activation, gni, p))
    && (x == 0.0
        || exists e ::
             e in edges && e.to == t
             && (x == PassedDown(e, activation, gni, p) || 1.0 == x < PassedDown(e, activation, gni, p)))
  }

  lemma {:induction false} IncomingIsMax(edges: seq<Edge>, activation: Levels, gni: Levels, p: Levels, t: Group)
    ensures var m := Incoming(edges, activation, gni, p, t);
            && m >= 0.0
            && (forall e :: e in edges && e.to == t ==> m >= PassedDown(e, activation, gni, p))
            && (m == 0.0 || exists e :: e in edges && e.to == t && m == PassedDown(e, activation, gni, p))
  {
    if edges != [] {
      var (rest, e) := (edges[..|edges| - 1], edges[|edges| - 1]);
      IncomingIsMax(rest, activation, gni, p, t);
      assert Contribution(Effective(activation, p, e.from), e, gni) == PassedDown(e, activation, gni, p);
      assert edges == rest + [e];
    }
  }

  lemma ClampedMaxIsIncoming(x: real, edges: seq<Edge>, activation: Levels, gni: Levels, p: Levels, t: Group)
    ensures IsClampedMax(x, edges, activation, gni, p, t) <==> x == Min(Incoming(edges, activation, gni, p, t), 1.0)
  {
    IncomingIsMax(edges, activation, gni, p, t);
  }

  /** The documented equation has one solution, and it is what the pass computes. */
  lemma PressureIsDocumented(order: seq<Group>, edges: seq<Edge>, activation: Levels, gni: Levels, p: Levels)
    requires WellFormed(order, edges)
    ensures Documented(Groups(order), edges, activation, gni, p) <==> p == Pressure(order, edges, activation, gni)
  {
    UniqueSolution(order, edges, activation, gni, p);
    forall t | t in p ensures IsClampedMax(p[t], edges, activation, gni, p, t) <==>
        p[t] == Min(Incoming(edges, activation, gni, p, t), 1.0)
    {
      ClampedMaxIsIncoming(p[t], edges, activation, gni, p, t);
    }
  }

  /** Any topological order of the same groups gives the same pressures. */
  lemma OrderIrrelevant(order: seq<Group>, other: seq<Group>, edges: seq<Edge>, activation: Levels, gni: Levels)
    requires WellFormed(order, edges) && WellFormed(other, edges) && Groups(order) == Groups(other)
    ensures Pressure(order, edges, activation, gni) == Pressure(other, edges, activation, gni)
  {
    PressureSolves(other, edges, activation, gni);
    UniqueSolution(order, edges, activation, gni, Pressure(other, edges, activation, gni));
  }

  ghost predicate EdgeInOrder(order: seq<Group>, e: Edge) {
    e.to in order && forall i :: 0 <= i < |order| && order[i] == e.to ==> e.from in order[..i]
  }

  lemma EdgeGoesForward(order: seq<Group>, e: Edge, from: nat, to: nat)
    requires Distinct(order) && from < to < |order| && order[from] == e.from && order[to] == e.to
    ensures EdgeInOrder(order, e)
  {
    assert order[..to][from] == e.from;
  }

  lemma CanonicalEdgesForward(o: seq<Group>, e: seq<Edge>)
    requires Distinct(o) && o == TOPO_ORDER && e == CANONICAL_EDGES
    ensures forall k {:trigger e[k]} :: 0 <= k < |e| ==> EdgeInOrder(o, e[k])
  {
    EdgeGoesForward(o, e[0], 0, 6);
    EdgeGoesForward(o, e[1], 0, 5);
    EdgeGoesForward(o, e[2], 5, 6);
    EdgeGoesForward(o, e[3], 4, 6);
    EdgeGoesForward(o, e[4], 2, 6);
    EdgeGoesForward(o, e[5], 2, 5);
    EdgeGoesForward(o, e[6], 1, 4);
    EdgeGoesForward(o, e[7], 1, 5);
    EdgeGoesForward(o, e[8], 1, 6);
  }

  /** The fixed order and the fixed edges meet the requirement. */
  lemma CanonicalIsWellFormed()
    ensures WellFormed(TOPO_ORDER, CANONICAL_EDGES)
  {
    CanonicalEdgesForward(TOPO_ORDER, CANONICAL_EDGES);
  }

  // ---- Superposition ----

  /** What an edge multiplies its source's level by. */
  function Gain(e: Edge, gni: Levels): (k: real)
    ensures forall a :: Contribution(a, e, gni) == a * k
  {
    e.omega * (1.0 + KAPPA * Get(gni, e.from))
  }

  ghost predicate NonNegativeGains(edges: seq<Edge>, gni: Levels) {
    forall e :: e in edges ==> Gain(e, gni) >= 0.0
  }

  ghost predicate NonNegative(m: Levels) {
    forall g :: g in m ==> m[g] >= 0.0
  }

  ghost predicate IsJoin(a: Levels, b: Levels, c: Levels) {
    forall g :: Get(c, g) == Max(Get(a, g), Get(b, g))
  }

  lemma ContributionOfMax(x: real, y: real, e: Edge, gni: Levels)
    requires Gain(e, gni) >= 0.0
    ensures Contribution(Max(x, y), e, gni) == Max(Contribution(x, e, gni), Contribution(y, e, gni))
  {
    var k := Gain(e, gni);
    if x < y { assert x * k <= y * k; } else { assert y * k <= x * k; }
  }

  lemma OfferedOfMax(m: real, n: real, x: real, y: real, e: Edge, gni: Levels, t: Group)
    requires Gain(e, gni) >= 0.0
    ensures Offered(Max(m, n), Max(x, y), e, gni, t) == Max(Offered(m, x, e, gni, t), Offered(n, y, e, gni, t))
  {
    ContributionOfMax(x, y, e, gni);
  }

  lemma {:induction false} IncomingOfJoin(edges: seq<Edge>, gni: Levels, a: Levels, b: Levels, c: Levels, p: Levels,
                                          q: Levels, r: Levels, t: Group)
    requires NonNegativeGains(edges, gni)
    requires forall g :: Effective(c, r, g) == Max(Effective(a, p, g), Effective(b, q, g))
    ensures Incoming(edges, c, gni, r, t) == Max(Incoming(edges, a, gni, p, t), Incoming(edges, b, gni, q, t))
  {
    if edges != [] {
      var (rest, e) := (edges[..|edges| - 1], edges[|edges| - 1]);
      assert e in edges && forall x :: x in rest ==> x in edges;
      IncomingOfJoin(rest, gni, a, b, c, p, q, r, t);
      OfferedOfMax(Incoming(rest, a, gni, p, t), Incoming(rest, b, gni, q, t),
                   Effective(a, p, e.from), Effective(b, q, e.from), e, gni, t);
    }
  }

  lemma EffectiveOfJoin(a: Levels, b: Levels, c: Levels, p: Levels, q: Levels, r: Levels)
    requires IsJoin(a, b, c) && p.Keys == q.Keys == r.Keys && forall g :: g in r ==> r[g] == Max(p[g], q[g])
    ensures forall g :: Effective(c, r, g) == Max(Effective(a, p, g), Effective(b, q, g))
  {
  }

  /** The pressure of two activations taken together is the larger of their pressures. */
  lemma Superposition(order: seq<Group>, edges: seq<Edge>, gni: Levels, a: Levels, b: Levels, c: Levels)
    requires WellFormed(order, edges) && NonNegativeGains(edges, gni) && IsJoin(a, b, c)
    ensures forall g :: g in order ==>
              Pressure(order, edges, c, gni)[g] ==
                Max(Pressure(order, edges, a, gni)[g], Pressure(order, edges, b, gni)[g])
  {
    var p, q := Pressure(order, edges, a, gni), Pressure(order, edges, b, gni);
    var r := map g | g in Groups(order) :: Max(p[g], q[g]);
    PressureSolves(order, edges, a, gni);
    PressureSolves(order, edges, b, gni);
    EffectiveOfJoin(a, b, c, p, q, r);
    forall t | t in Groups(order) ensures r[t] == Min(Incoming(edges, c, gni, r, t), 1.0) {
      IncomingOfJoin(edges, gni, a, b, c, p, q, r, t);
    }
    UniqueSolution(order, edges, c, gni, r);
  }

  /** The pressure at `g` when only `s` is active. */
  function Alone(order: seq<Group>, edges: seq<Edge>, gni: Levels, s: Group, a: real, g: Group): real {
    Get(Pressure(order, edges, map[s := a], gni), g)
  }

  lemma {:induction false} NoContribution(edges: seq<Edge>, activation: Levels, gni: Levels, p: Levels, t: Group)
    requires forall e :: e in edges && e.to == t ==> Effective(activation, p, e.from) == 0.0
    ensures Incoming(edges, activation, gni, p, t) == 0.0
  {
    if edges != [] {
      assert edges[|edges| - 1] in edges;
      NoContribution(edges[..|edges| - 1], activation, gni, p, t);
    }
  }

  /** Nothing is under pressure ahead of the first active group, nor is that group itself. */
  lemma {:induction false} QuietUpTo(order: seq<Group>, i: nat, edges: seq<Edge>, activation: Levels, gni: Levels,
                                     p: Levels)
    requires WellFormed(order, edges) && i < |order| && IsSolution(Groups(order), edges, activation, gni, p)
    requires forall k :: 0 <= k < i ==> Get(activation, order[k]) == 0.0
    ensures forall k :: 0 <= k <= i ==> p[order[k]] == 0.0
  {
    if i > 0 { QuietUpTo(order, i - 1, edges, activation, gni, p); }
    forall e | e in edges && e.to == order[i] ensures Effective(activation, p, e.from) == 0.0 {
      assert e.from in order[..i];
    }
    NoContribution(edges, activation, gni, p, order[i]);
  }

  /** A source alone puts no pressure on itself. */
  lemma NoSelfPressure(order: seq<Group>, edges: seq<Edge>, gni: Levels, s: Group, a: real)
    requires WellFormed(order, edges) && s in order
    ensures Alone(order, edges, gni, s, a, s) == 0.0
  {
    var i :| 0 <= i < |order| && order[i] == s;
    PressureSolves(order, edges, map[s := a], gni);
    QuietUpTo(order, i, edges, map[s := a], gni, Pressure(order, edges, map[s := a], gni));
  }

  lemma {:induction false} SomeSource(order: seq<Group>, edges: seq<Edge>, activation: Levels, gni: Levels, g: Group)
    returns (s: Group)
    requires WellFormed(order, edges) && NonNegativeGains(edges, gni) && NonNegative(activation) && g in order
    ensures var p := Pressure(order, edges, activation, gni)[g];
            p == 0.0 || (s in activation && Alone(order, edges, gni, s, activation[s], g) == p)
    decreases |activation|
  {
    if activation == map[] {
      var i :| 0 <= i < |order| && order[i] == g;
      PressureSolves(order, edges, map[], gni);
      QuietUpTo(order, i, edges, map[], gni, Pressure(order, edges, map[], gni));
      s := g;
    } else {
      var last :| last in activation;
      var rest := activation - {last};
      assert rest.Keys == activation.Keys - {last};
      s := SomeSource(order, edges, rest, gni, g);
      Superposition(order, edges, gni, rest, map[last := activation[last]], activation);
      if Pressure(order, edges, activation, gni)[g] != Pressure(order, edges, rest, gni)[g] { s := last; }
    }
  }

  /** Pressure is the pointwise maximum over the sources taken alone. */
  lemma PressureIsMaxOfSources(order: seq<Group>, edges: seq<Edge>, activation: Levels, gni: Levels, g: Group)
    requires WellFormed(order, edges) && NonNegativeGains(edges, gni) && NonNegative(activation) && g in order
    ensures var p := Pressure(order, edges, activation, gni)[g];
            && (forall s :: s in activation ==> Alone(order, edges, gni, s, activation[s], g) <= p)
            && (p == 0.0 || exists s :: s in activation && Alone(order, edges, gni, s, activation[s], g) == p)
  {
    forall s | s in activation
      ensures Alone(order, edges, gni, s, activation[s], g) <= Pressure(order, edges, activation, gni)[g]
    {
      Superposition(order, edges, gni, activation, map[s := activation[s]], activation);
    }
    var s := SomeSource(order, edges, activation, gni, g);
  }

  // ---- Blast radius ----

  /** `g` is in the blast set of `s`: `s` is active enough to radiate and its pressure alone reaches `g`. */
  predicate InBlast(order: seq<Group>, edges: seq<Edge>, activation: Levels, gni: Levels, s: Group, g: Group) {
    && s in order && Get(activation, s) >= THETA
    && g != s && g in order && Alone(order, edges, gni, s, Get(activation, s), g) >= THETA
  }

  ghost predicate InSomeBlast(order: seq<Group>, edges: seq<Edge>, activation: Levels, gni: Levels, g: Group) {
    exists s :: InBlast(order, edges, activation, gni, s, g)
  }

  /** A group is under threshold pressure exactly when some source's blast set names it. */
  ghost predicate BlastComplete(order: seq<Group>, edges: seq<Edge>, activation: Levels, gni: Levels) {
    forall g :: g in order ==>
      (Pressure(order, edges, activation, gni)[g] >= THETA <==> InSomeBlast(order, edges, activation, gni, g))
  }

  /** No edge passes on more than its source's level. */
  ghost predicate Attenuating(edges: seq<Edge>, gni: Levels) {
    forall e :: e in edges ==> Gain(e, gni) <= 1.0
  }

  lemma Attenuated(x: real, e: Edge, gni: Levels, bound: real)
    requires 0.0 <= x <= bound && 0.0 <= Gain(e, gni) <= 1.0
    ensures Contribution(x, e, gni) <= bound
  {
    var k := Gain(e, gni);
    assert x * k <= x * 1.0;
  }

  lemma {:induction false} IncomingBounded(edges: seq<Edge>, activation: Levels, gni: Levels, p: Levels, t: Group,
                                           bound: real)
    requires NonNegativeGains(edges, gni) && Attenuating(edges, gni) && bound >= 0.0
    requires forall e :: e in edges && e.to == t ==> 0.0 <= Effective(activation, p, e.from) <= bound
    ensures Incoming(edges, activation, gni, p, t) <= bound
  {
    if edges != [] {
      var (rest, e) := (edges[..|edges| - 1], edges[|edges| - 1]);
      assert e in edges && forall x :: x in rest ==> x in edges;
      if e.to == t { Attenuated(Effective(activation, p, e.from), e, gni, bound); }
      IncomingBounded(rest, activation, gni, p, t, bound);
    }
  }

  lemma {:induction false} IncomingNonNegative(edges: seq<Edge>, activation: Levels, gni: Levels, p: Levels, t: Group)
    ensures Incoming(edges, activation, gni, p, t) >= 0.0
  {
    if edges != [] { IncomingNonNegative(edges[..|edges| - 1], activation, gni, p, t); }
  }

  lemma {:induction false} AttenuatedUpTo(order: seq<Group>, i: nat, edges: seq<Edge>, gni: Levels, s: Group, a: real,
                                          p: Levels)
    requires WellFormed(order, edges) && NonNegativeGains(edges, gni) && Attenuating(edges, gni) && a >= 0.0
             && i <= |order|
    requires IsSolution(Groups(order), edges, map[s := a], gni, p)
    ensures forall k :: 0 <= k < i ==> 0.0 <= p[order[k]] <= a
  {
    if i > 0 {
      var t := order[i - 1];
      AttenuatedUpTo(order, i - 1, edges, gni, s, a, p);
      forall e | e in edges && e.to == t ensures 0.0 <= Effective(map[s := a], p, e.from) <= a {
        assert order[i - 1] == e.to && e.from in order[..i - 1];
      }
      assert p[t] == Min(Incoming(edges, map[s := a], gni, p, t), 1.0) by { assert t in Groups(order); }
      IncomingBounded(edges, map[s := a], gni, p, t, a);
      IncomingNonNegative(edges, map[s := a], gni, p, t);
    }
  }

  lemma AttenuatedPressure(order: seq<Group>, edges: seq<Edge>, gni: Levels, s: Group, a: real, g: Group)
    requires WellFormed(order, edges) && NonNegativeGains(edges, gni) && Attenuating(edges, gni) && a >= 0.0
             && g in order
    ensures Alone(order, edges, gni, s, a, g) <= a
  {
    PressureSolves(order, edges, map[s := a], gni);
    AttenuatedUpTo(order, |order|, edges, gni, s, a, Pressure(order, edges, map[s := a], gni));
  }

  /** A source that is not listed puts no pressure on a listed group. */
  lemma UnlistedSource(order: seq<Group>, edges: seq<Edge>, gni: Levels, s: Group, a: real, g: Group)
    requires WellFormed(order, edges) && s !in order && g in order
    ensures Alone(order, edges, gni, s, a, g) == 0.0
  {
    var i :| 0 <= i < |order| && order[i] == g;
    PressureSolves(order, edges, map[s := a], gni);
    QuietUpTo(order, i, edges, map[s := a], gni, Pressure(order, edges, map[s := a], gni));
  }

  lemma ReachedIsBlasted(order: seq<Group>, edges: seq<Edge>, activation: Levels, gni: Levels, g: Group)
    requires WellFormed(order, edges) && NonNegativeGains(edges, gni) && NonNegative(activation)
    requires Attenuating(edges, gni) && g in order
    ensures Pressure(order, edges, activation, gni)[g] >= THETA ==> InSomeBlast(order, edges, activation, gni, g)
  {
    if Pressure(order, edges, activation, gni)[g] >= THETA {
      var s := SomeSource(order, edges, activation, gni, g);
      if s !in order { UnlistedSource(order, edges, gni, s, activation[s], g); }
      NoSelfPressure(order, edges, gni, s, activation[s]);
      AttenuatedPressure(order, edges, gni, s, activation[s], g);
      assert InBlast(order, edges, activation, gni, s, g);
    }
  }

  lemma BlastedIsReached(order: seq<Group>, edges: seq<Edge>, activation: Levels, gni: Levels, g: Group)
    requires WellFormed(order, edges) && NonNegativeGains(edges, gni) && NonNegative(activation) && g in order
    ensures InSomeBlast(order, edges, activation, gni, g) ==> Pressure(order, edges, activation, gni)[g] >= THETA
  {
    if s :| InBlast(order, edges, activation, gni, s, g) {
      Superposition(order, edges, gni, activation, map[s := activation[s]], activation);
    }
  }

  /** Without amplification the blast sets name every group under threshold pressure, and no other. */
  lemma BlastIsComplete(order: seq<Group>, edges: seq<Edge>, activation: Levels, gni: Levels)
    requires WellFormed(order, edges) && NonNegativeGains(edges, gni) && NonNegative(activation)
    requires Attenuating(edges, gni)
    ensures BlastComplete(order, edges, activation, gni)
  {
    forall g | g in order
      ensures Pressure(order, edges, activation, gni)[g] >= THETA <==> InSomeBlast(order, edges, activation, gni, g)
    {
      ReachedIsBlasted(order, edges, activation, gni, g);
      BlastedIsReached(order, edges, activation, gni, g);
    }
  }

  lemma {:induction false} IncomingAtLeast(edges: seq<Edge>, activation: Levels, gni: Levels, p: Levels, e: Edge)
    requires e in edges
    ensures Incoming(edges, activation, gni, p, e.to) >= Contribution(Effective(activation, p, e.from), e, gni)
  {
    if e != edges[|edges| - 1] { IncomingAtLeast(edges[..|edges| - 1], activation, gni, p, e); }
  }

  lemma JustBelowThreshold(k: real) returns (a: real)
    requires k > 1.0
    ensures 0.0 < a < THETA && a * k == THETA
  {
    a := THETA / k;
  }

  lemma SourceIsListed(order: seq<Group>, edges: seq<Edge>, e: Edge)
    requires WellFormed(order, edges) && e in edges
    ensures e.from in order && e.to in order
  {
    var i :| 0 <= i < |order| && order[i] == e.to;
    assert e.from in order[..i];
  }

  lemma PassedOn(groups: set<Group>, edges: seq<Edge>, gni: Levels, e: Edge, a: real, p: Levels)
    requires IsSolution(groups, edges, map[e.from := a], gni, p) && e in edges && e.to in groups
    requires a * Gain(e, gni) == THETA && a > 0.0 && Get(p, e.from) == 0.0
    ensures p[e.to] >= THETA
  {
    IncomingAtLeast(edges, map[e.from := a], gni, p, e);
    ContributionIs(a, e, gni, THETA);
  }

  lemma ContributionIs(a: real, e: Edge, gni: Levels, c: real)
    requires a * Gain(e, gni) == c
    ensures Contribution(a, e, gni) == c
  {
  }

  /** An amplifying edge lets a source too weak to be evaluated push its target over the threshold. */
  lemma WeakSourceMissed(order: seq<Group>, edges: seq<Edge>, gni: Levels, e: Edge) returns (activation: Levels)
    requires WellFormed(order, edges) && e in edges && Gain(e, gni) > 1.0
    ensures NonNegative(activation) && activation.Keys <= Groups(order) && !BlastComplete(order, edges, activation, gni)
  {
    var a := JustBelowThreshold(Gain(e, gni));
    activation := map[e.from := a];
    SourceIsListed(order, edges, e);
    PressureSolves(order, edges, activation, gni);
    NoSelfPressure(order, edges, gni, e.from, a);
    PassedOn(Groups(order), edges, gni, e, a, Pressure(order, edges, activation, gni));
    assert !InSomeBlast(order, edges, activation, gni, e.to);
  }

  /** The blast sets are complete for every activation exactly when no edge amplifies. */
  lemma BlastCompleteness(order: seq<Group>, edges: seq<Edge>, gni: Levels)
    requires WellFormed(order, edges) && NonNegativeGains(edges, gni)
    ensures Attenuating(edges, gni) <==>
            forall activation: Levels :: NonNegative(activation) ==> BlastComplete(order, edges, activation, gni)
  {
    if Attenuating(edges, gni) {
      forall activation: Levels | NonNegative(activation)
        ensures BlastComplete(order, edges, activation, gni)
      {
        BlastIsComplete(order, edges, activation, gni);
      }
    } else {
      var e :| e in edges && Gain(e, gni) > 1.0;
      var activation := WeakSourceMissed(order, edges, gni, e);
    }
  }

  ghost predicate Weighted(edges: seq<Edge>) {
    forall i {:trigger edges[i]} :: 0 <= i < |edges| ==> 0.0 <= edges[i].omega <= 1.0
  }

  /** Without noise, weights of at most 1 pass on no more than they receive. */
  lemma NoNoiseAttenuates(edges: seq<Edge>, gni: Levels)
    requires Weighted(edges) && forall g :: Get(gni, g) == 0.0
    ensures NonNegativeGains(edges, gni) && Attenuating(edges, gni)
  {
    forall e | e in edges ensures 0.0 <= Gain(e, gni) <= 1.0 {
      var i :| 0 <= i < |edges| && edges[i] == e;
      assert Gain(e, gni) == e.omega;
    }
  }

  /** On the fixed graph without noise, the blast sets name exactly the groups under threshold pressure. */
  lemma CanonicalBlast(order: seq<Group>, edges: seq<Edge>, activation: Levels)
    requires order == TOPO_ORDER && edges == CANONICAL_EDGES
    requires NonNegative(activation)
    ensures BlastComplete(order, edges, activation, map[])
  {
    CanonicalIsWellFormed();
    NoNoiseAttenuates(edges, map[]);
    BlastIsComplete(order, edges, activation, map[]);
  }

  /** Three decimals, rounded half up. */
  function Round3(x: real): real {
    (x * 1000.0 + 0.5).Floor as real / 1000.0
  }

  function Gap(x: real, y: real): real {
    if x < y then y - x else x - y
  }

  /** It is a multiple of a thousandth, and none is closer. */
  lemma Round3IsNearest(x: real, k: int)
    ensures (Round3(x) * 1000.0).Floor as real == Round3(x) * 1000.0
    ensures -0.0005 < Round3(x) - x <= 0.0005 && Gap(x, Round3(x)) <= Gap(x, k as real / 1000.0)
  {
    var n := (x * 1000.0 + 0.5).Floor;
    Apart(n, k);
    Thousandths(x, n as real, k as real);
    WholeAgain(n);
  }

  lemma WholeAgain(n: int)
    ensures (n as real / 1000.0 * 1000.0).Floor as real == n as real / 1000.0 * 1000.0
  {
    assert n as real / 1000.0 * 1000.0 == n as real;
  }

  lemma Apart(n: int, k: int)
    ensures k as real == n as real || k as real <= n as real - 1.0 || k as real >= n as real + 1.0
  {
    if k < n { assert k <= n - 1; } else if k > n { assert k >= n + 1; }
  }

  lemma Thousandths(x: real, n: real, k: real)
    requires n <= x * 1000.0 + 0.5 < n + 1.0 && (k == n || k <= n - 1.0 || k >= n + 1.0)
    ensures -0.0005 < n / 1000.0 - x <= 0.0005 && Gap(x, n / 1000.0) <= Gap(x, k / 1000.0)
  {
  }

  datatype BlastInfo = BlastInfo(groupsReached: nat, downstream: Levels)

  /** `info` describes the blast of source `s`. */
  ghost predicate Describes(info: BlastInfo, order: seq<Group>, edges: seq<Edge>, activation: Levels, gni: Levels,
                            s: Group)
  {
    && (forall g :: g in info.downstream <==> InBlast(order, edges, activation, gni, s, g))
    && (forall g :: g in info.downstream ==>
       info.downstream[g] == Round3(Alone(order, edges, gni, s, Get(activation, s), g)))
    && info.groupsReached == |info.downstream|
  }

  method BlastOf(order: seq<Group>, edges: seq<Edge>, activation: Levels, gni: Levels, src: Group)
    returns (info: BlastInfo)
    requires Distinct(order) && src in order && Get(activation, src) >= THETA
    ensures Describes(info, order, edges, activation, gni, src)
  {
    var pp := ComputePropPressure(order, edges, map[src := Get(activation, src)], gni);
    info := BlastInfo(0, map[]);
    var todo := pp.Keys;
    while todo != {}
      invariant todo <= pp.Keys
      invariant forall g :: g in info.downstream <==> g in pp && g !in todo && g != src && pp[g] >= THETA
      invariant forall g :: g in info.downstream ==> info.downstream[g] == Round3(pp[g])
      invariant info.groupsReached == |info.downstream|
    {
      var g :| g in todo;
      todo := todo - {g};
      if g != src && pp[g] >= THETA {
        info := BlastInfo(info.groupsReached + 1, info.downstream[g := Round3(pp[g])]);
      }
    }
  }

  method ComputeBlastRadius(order: seq<Group>, edges: seq<Edge>, activation: Levels, gni: Levels)
    returns (result: map<Group, BlastInfo>)
    requires Distinct(order)
    ensures forall s :: s in result <==> s in order && Get(activation, s) >= THETA
    ensures forall s :: s in result ==> Describes(result[s], order, edges, activation, gni, s)
  {
    result := map[];
    for i := 0 to |order|
      invariant forall s :: s in result <==> s in order[..i] && Get(activation, s) >= THETA
      invariant forall s :: s in result ==> Describes(result[s], order, edges, activation, gni, s)
    {
      var src := order[i];
      if Get(activation, src) >= THETA {
        var info := BlastOf(order, edges, activation, gni, src);
        result := result[src := info];
      }
    }
    assert order[..|order|] == order;
  }
}
