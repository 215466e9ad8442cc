/** The inferred call graph, and the search for all callers. */
module CallGraph {
  import Lex

  datatype Source = Env | Route | Ingress

  datatype Edge = Edge(from: string, to: string, source: Source, via: string)

  // ---- Callers ----

  ghost predicate Calls(edges: seq<Edge>, x: string, y: string) {
    exists e :: e in edges && e.source == Env && e.from == x && e.to == y
  }

  /** A path of `n` env edges leads from `x` to `t`. */
  ghost predicate Path(edges: seq<Edge>, x: string, t: string, n: nat)
    decreases n
  {
    if n == 0 then x == t else exists y :: Calls(edges, x, y) && Path(edges, y, t, n - 1)
  }

  ghost predicate Reaches(edges: seq<Edge>, x: string, t: string) {
    exists n: nat :: Path(edges, x, t, n)
  }

  /** `d` is the length of a shortest path from `x` to `t`. */
  ghost predicate Distance(edges: seq<Edge>, x: string, t: string, d: nat) {
    Path(edges, x, t, d) && forall m: nat :: m < d ==> !Path(edges, x, t, m)
  }

  ghost predicate Distinct(s: seq<string>) {
    forall i, j :: 0 <= i < j < |s| ==> s[i] != s[j]
  }

  /** All nodes found so far, in order, with distances; the callers of the first `p` have been found. */
  ghost predicate Frontier(edges: seq<Edge>, t: string, all: seq<string>, dist: seq<nat>, p: nat) {
    && |all| == |dist| && all != [] && all[0] == t && dist[0] == 0 && p <= |all|
    && Distinct(all)
    && (forall i :: 0 <= i < |all| ==> Distance(edges, all[i], t, dist[i]))
    && (forall i, j :: 0 <= i <= j < |all| ==> dist[i] <= dist[j])
    && (forall i :: p < |all| && 0 <= i < |all| ==> dist[i] <= dist[p] + 1)
    && (forall i, x :: 0 <= i < p && Calls(edges, x, all[i]) ==> FoundBy(all, dist, x, dist[i] + 1))
  }

  ghost predicate FoundBy(all: seq<string>, dist: seq<nat>, x: string, d: nat)
    requires |all| == |dist|
  {
    exists j :: 0 <= j < |all| && all[j] == x && dist[j] <= d
  }

  /** Everything within the distance being expanded has been found. */
  lemma {:induction false} FoundWithin(edges: seq<Edge>, t: string, all: seq<string>, dist: seq<nat>, p: nat,
                                       x: string, m: nat)
    requires Frontier(edges, t, all, dist, p) && Path(edges, x, t, m)
    requires p < |all| ==> m <= dist[p]
    ensures FoundBy(all, dist, x, m)
    decreases m
  {
    if m > 0 {
      var y :| Calls(edges, x, y) && Path(edges, y, t, m - 1);
      FoundWithin(edges, t, all, dist, p, y, m - 1);
      var j :| 0 <= j < |all| && all[j] == y && dist[j] <= m - 1;
      assert FoundBy(all, dist, x, dist[j] + 1);
    }
  }

  /** A caller of the node being expanded that has not been found is one step further away. */
  lemma Discover(edges: seq<Edge>, t: string, all: seq<string>, dist: seq<nat>, p: nat, c: string)
    requires Frontier(edges, t, all, dist, p) && p < |all| && Calls(edges, c, all[p]) && c !in all
    ensures Frontier(edges, t, all + [c], dist + [dist[p] + 1], p)
  {
    var d := dist[p] + 1;
    assert Path(edges, c, t, d);
    forall m: nat | m < d ensures !Path(edges, c, t, m) {
      if Path(edges, c, t, m) { FoundWithin(edges, t, all, dist, p, c, m); }
    }
    var all', dist' := all + [c], dist + [d];
    forall i, x | 0 <= i < p && Calls(edges, x, all'[i]) ensures FoundBy(all', dist', x, dist'[i] + 1) {
      assert FoundBy(all, dist, x, dist[i] + 1);
      var j :| 0 <= j < |all| && all[j] == x && dist[j] <= dist[i] + 1;
      assert all'[j] == x && dist'[j] == dist[j];
    }
  }

  /** Once all callers of a node are found, the next node can be expanded. */
  lemma Advance(edges: seq<Edge>, t: string, all: seq<string>, dist: seq<nat>, p: nat)
    requires Frontier(edges, t, all, dist, p) && p < |all| && forall x :: Calls(edges, x, all[p]) ==> x in all
    ensures Frontier(edges, t, all, dist, p + 1)
  {
    forall x | Calls(edges, x, all[p]) ensures FoundBy(all, dist, x, dist[p] + 1) {
      var j :| 0 <= j < |all| && all[j] == x;
    }
  }

  /** A complete search has found exactly the nodes that reach the target. */
  lemma Complete(edges: seq<Edge>, t: string, all: seq<string>, dist: seq<nat>)
    requires Frontier(edges, t, all, dist, |all|)
    ensures forall x :: x in all <==> Reaches(edges, x, t)
  {
    forall x ensures x in all <==> Reaches(edges, x, t) {
      if x in all {
        var j :| 0 <= j < |all| && all[j] == x;
        assert Path(edges, x, t, dist[j]);
      }
      if Reaches(edges, x, t) {
        var n: nat :| Path(edges, x, t, n);
        FoundWithin(edges, t, all, dist, |all|, x, n);
      }
    }
  }

  ghost function Nodes(edges: seq<Edge>, t: string): set<string> {
    (set e | e in edges :: e.from) + {t}
  }

  lemma {:induction false} DistinctAtMost(s: seq<string>, u: set<string>)
    requires Distinct(s) && forall x :: x in s ==> x in u
    ensures |s| <= |u|
  {
    if s != [] {
      var last := s[|s| - 1];
      DistinctAtMost(s[..|s| - 1], u - {last});
    }
  }

  lemma FoundAreNodes(edges: seq<Edge>, t: string, all: seq<string>, dist: seq<nat>, p: nat)
    requires Frontier(edges, t, all, dist, p)
    ensures |all| <= |Nodes(edges, t)|
  {
    forall x | x in all ensures x in Nodes(edges, t) {
      var j :| 0 <= j < |all| && all[j] == x;
      if dist[j] > 0 {
        var y :| Calls(edges, x, y);
        var e :| e in edges && e.source == Env && e.from == x && e.to == y;
      }
    }
    DistinctAtMost(all, Nodes(edges, t));
  }

  /** `incoming` lists `x` among the callers of `y`. */
  predicate Lists(incoming: map<string, seq<string>>, x: string, y: string) {
    y in incoming && x in incoming[y]
  }

  function Listed(incoming: map<string, seq<string>>, y: string): seq<string> {
    if y in incoming then incoming[y] else []
  }

  /** The env callers of each node, in edge order. */
  method IncomingEdges(edges: seq<Edge>) returns (incoming: map<string, seq<string>>)
    ensures forall x, y :: Lists(incoming, x, y) <==> Calls(edges, x, y)
  {
    incoming := map[];
    for i := 0 to |edges|
      invariant forall x, y :: Lists(incoming, x, y) <==> Calls(edges[..i], x, y)
    {
      var e := edges[i];
      if e.source == Env {
        ghost var before := incoming;
        incoming := incoming[e.to := Listed(incoming, e.to) + [e.from]];
        assert forall x, y :: Lists(incoming, x, y) <==> Lists(before, x, y) || (x == e.from && y == e.to);
      }
    }
    assert edges[..|edges|] == edges;
  }

  /** The search's own variables agree with the list of nodes found. */
  ghost predicate Tracks(target: string, all: seq<string>, p: nat, seen: set<string>, queue: seq<string>,
                         found: seq<string>)
  {
    && all == [target] + found
    && p <= |all| && queue == all[p..]
    && forall x :: x in seen <==> x in all
  }

  /** Enqueues the callers of `all[p]` that have not been seen. */
  method Expand(edges: seq<Edge>, target: string, callers: seq<string>, seen0: set<string>, queue0: seq<string>,
                found0: seq<string>, ghost all0: seq<string>, ghost dist0: seq<nat>, ghost p: nat)
    returns (seen: set<string>, queue: seq<string>, found: seq<string>, ghost all: seq<string>, ghost dist: seq<nat>)
    requires Frontier(edges, target, all0, dist0, p) && p < |all0| && Tracks(target, all0, p + 1, seen0, queue0, found0)
    requires forall x :: x in callers <==> Calls(edges, x, all0[p])
    ensures Frontier(edges, target, all, dist, p + 1) && Tracks(target, all, p + 1, seen, queue, found)
  {
    seen, queue, found, all, dist := seen0, queue0, found0, all0, dist0;
    for i := 0 to |callers|
      invariant p < |all| && all[p] == all0[p] && Frontier(edges, target, all, dist, p)
      invariant Tracks(target, all, p + 1, seen, queue, found)
      invariant forall k :: 0 <= k < i ==> callers[k] in all
    {
      var c := callers[i];
      if c !in seen {
        Discover(edges, target, all, dist, p, c);
        seen := seen + {c};
        found := found + [c];
        queue := queue + [c];
        all, dist := all + [c], dist + [dist[p] + 1];
      }
    }
    Advance(edges, target, all, dist, p);
  }

  /** Every node other than `target` that reaches it, once each, nearest first. */
  method Callers(edges: seq<Edge>, target: string) returns (found: seq<string>)
    ensures forall x :: x in found <==> x != target && Reaches(edges, x, target)
    ensures Distinct(found)
    ensures NearestFirst(edges, target, found)
  {
    var incoming := IncomingEdges(edges);
    var seen, queue := {target}, [target];
    found := [];
    ghost var all: seq<string>, dist: seq<nat>, p: nat := [target], [0], 0;
    while |queue| > 0
      invariant Frontier(edges, target, all, dist, p) && Tracks(target, all, p, seen, queue, found)
      decreases |Nodes(edges, target)| - p
    {
      var next := queue[0];
      queue := queue[1..];
      var callers := Lex.Sort(Listed(incoming, next));
      assert forall x :: x in callers <==> Lists(incoming, x, next) by {
        assert forall x :: x in callers <==> x in multiset(callers);
      }
      FoundAreNodes(edges, target, all, dist, p);
      seen, queue, found, all, dist := Expand(edges, target, callers, seen, queue, found, all, dist, p);
      p := p + 1;
    }
    Complete(edges, target, all, dist);
    InDistanceOrder(edges, target, all, dist, found);
  }

  ghost predicate NearestFirst(edges: seq<Edge>, target: string, found: seq<string>) {
    forall i, j, d: nat, d': nat :: 0 <= i < j < |found| ==>
      Distance(edges, found[i], target, d) && Distance(edges, found[j], target, d') ==> d <= d'
  }

  lemma InDistanceOrder(edges: seq<Edge>, t: string, all: seq<string>, dist: seq<nat>, found: seq<string>)
    requires Frontier(edges, t, all, dist, |all|) && all == [t] + found
    ensures Distinct(found) && t !in found && NearestFirst(edges, t, found)
  {
    forall i, j | 0 <= i < j < |found| ensures found[i] != found[j] {
      assert all[i + 1] == found[i] && all[j + 1] == found[j];
    }
    forall i | 0 <= i < |found| ensures found[i] != t { assert all[i + 1] == found[i]; }
    forall i, j, d: nat, d': nat | 0 <= i < j < |found| && Distance(edges, found[i], t, d)
      && Distance(edges, found[j], t, d')
      ensures d <= d'
    {
      assert all[i + 1] == found[i] && all[j + 1] == found[j];
      assert d == dist[i + 1] && d' == dist[j + 1];
    }
  }
}
