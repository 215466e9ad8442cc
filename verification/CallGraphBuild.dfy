/** Building the call graph: which edges the declared workloads, services and entries give rise to. */
module CallGraphBuild {
  import opened CallGraph
  import opened Options
  import Lex
  import Sorting

  datatype EnvVar = EnvVar(name: string, value: string)

  datatype Workload = Workload(ns: string, kind: string, name: string, labels: map<string, string>, env: seq<EnvVar>) {
    function ID(): string { ns + "/" + kind + "/" + name }
  }

  datatype Service = Service(ns: string, name: string, selector: map<string, string>) {
    function Key(): string { ns + "/" + name }
  }

  datatype Entry = Entry(kind: string, ns: string, name: string, host: string, service: string) {
    function ID(): string { ns + "/" + kind + "/" + name }
    function ServiceKey(): string { ns + "/" + service }
    function Source(): Source { if kind == "Route" then Route else Ingress }
  }

  datatype Graph = Graph(edges: seq<Edge>, entries: seq<Entry>)

  // ---- Host names ----

  /** strings.Split(s, ".") */
  function Split(s: string): (r: seq<string>)
    ensures r != []
  {
    if s == "" then [""]
    else
      var rest := Split(s[1..]);
      if s[0] == '.' then [""] + rest else [[s[0]] + rest[0]] + rest[1..]
  }

  /** The service a host stands for: one label stays in `ns`, a second label replaces it, a third one must be `svc`. */
  function ServiceKey(host: string, ns: string): Option<string> {
    var parts := Split(host);
    if |parts| == 1 then Some(ns + "/" + parts[0])
    else if |parts| == 2 || parts[2] == "svc" then Some(parts[1] + "/" + parts[0])
    else None
  }

  predicate DotFree(s: string) {
    '.' !in s
  }

  lemma {:induction false} SplitLabel(a: string, rest: string)
    requires DotFree(a)
    ensures Split(a) == [a] && Split(a + "." + rest) == [a] + Split(rest)
  {
    if a == "" {
      assert a + "." + rest == "." + rest && ("." + rest)[1..] == rest;
    } else {
      SplitLabel(a[1..], rest);
      assert (a + "." + rest)[1..] == a[1..] + "." + rest;
      assert [a[0]] + a[1..] == a;
    }
  }

  /** How each form of host name resolves. */
  lemma HostForms(a: string, b: string, c: string, domain: string, ns: string)
    requires DotFree(a) && DotFree(b) && DotFree(c)
    ensures ServiceKey(a, ns) == Some(ns + "/" + a)
    ensures ServiceKey(a + "." + b, ns) == Some(b + "/" + a)
    ensures ServiceKey(a + "." + (b + "." + c), ns) == if c == "svc" then Some(b + "/" + a) else None
    ensures ServiceKey(a + "." + (b + "." + (c + "." + domain)), ns) == if c == "svc" then Some(b + "/" + a) else None
  {
    SplitLabel(a, b);
    SplitLabel(a, b + "." + c);
    SplitLabel(a, b + "." + (c + "." + domain));
    SplitLabel(b, c);
    SplitLabel(b, c + "." + domain);
    SplitLabel(c, domain);
  }

  // ---- Backends ----

  function Label(labels: map<string, string>, k: string): string {
    if k in labels then labels[k] else ""
  }

  ghost predicate Selects(selector: map<string, string>, labels: map<string, string>) {
    selector != map[] && forall k :: k in selector ==> Label(labels, k) == selector[k]
  }

  method SelectsLabels(selector: map<string, string>, labels: map<string, string>) returns (ok: bool)
    ensures ok <==> Selects(selector, labels)
  {
    if |selector| == 0 { return false; }
    var todo := selector.Keys;
    while todo != {}
      invariant todo <= selector.Keys
      invariant forall k :: k in selector && k !in todo ==> Label(labels, k) == selector[k]
    {
      var k :| k in todo;
      if Label(labels, k) != selector[k] { return false; }
      todo := todo - {k};
    }
    ok := true;
  }

  /** A service named `key` selects the workload with this ID. */
  ghost predicate Backs(services: seq<Service>, workloads: seq<Workload>, key: string, id: string) {
    exists s, w :: s in services && w in workloads && BackedBy(s, w, key, id)
  }

  ghost predicate BackedBy(s: Service, w: Workload, key: string, id: string) {
    s.Key() == key && w.ns == s.ns && Selects(s.selector, w.labels) && w.ID() == id
  }

  method Backends(services: seq<Service>, workloads: seq<Workload>) returns (backends: map<string, seq<string>>)
    ensures forall key, id :: Lists(backends, id, key) <==> Backs(services, workloads, key, id)
  {
    backends := map[];
    for i := 0 to |services|
      invariant forall key, id :: Lists(backends, id, key) <==> Backs(services[..i], workloads, key, id)
    {
      var s := services[i];
      ghost var before := backends;
      for j := 0 to |workloads|
        invariant forall key, id :: Lists(backends, id, key) <==>
                    Lists(before, id, key) || exists w :: w in workloads[..j] && BackedBy(s, w, key, id)
      {
        var w := workloads[j];
        ghost var earlier := backends;
        assert workloads[..j + 1] == workloads[..j] + [w];
        var selected := SelectsLabels(s.selector, w.labels);
        if w.ns == s.ns && selected {
          backends := backends[s.Key() := Listed(backends, s.Key()) + [w.ID()]];
        }
        assert forall key, id :: Lists(backends, id, key) <==> Lists(earlier, id, key) || BackedBy(s, w, key, id);
      }
      assert workloads[..|workloads|] == workloads;
    }
    assert services[..|services|] == services;
  }

  // ---- Edges on offer ----

  function FlatMap<A, B>(s: seq<A>, f: A -> seq<B>): seq<B> {
    if s == [] then [] else FlatMap(s[..|s| - 1], f) + f(s[|s| - 1])
  }

  lemma OfferNext<A, B>(offered: seq<B>, before: seq<B>, s: seq<A>, i: nat, f: A -> seq<B>)
    requires i < |s| && offered == before + FlatMap(s[..i], f) + f(s[i])
    ensures offered == before + FlatMap(s[..i + 1], f)
  {
    assert s[..i + 1][..i] == s[..i];
  }

  lemma {:induction false} FlatMapMember<A, B>(s: seq<A>, f: A -> seq<B>, x: B)
    ensures x in FlatMap(s, f) <==> exists a :: a in s && x in f(a)
  {
    if s != [] {
      var (rest, last) := (s[..|s| - 1], s[|s| - 1]);
      FlatMapMember(rest, f, x);
      assert s == rest + [last];
    }
  }

  type Backing = map<string, seq<string>>

  function ToTarget(from: string, source: Source, via: string): string -> seq<Edge> {
    (target: string) => [Edge(from, target, source, via)]
  }

  function OfHost(w: Workload, env: EnvVar, backends: Backing): string -> seq<Edge> {
    (host: string) =>
      match ServiceKey(host, w.ns)
      case None => []
      case Some(key) => FlatMap(Listed(backends, key), ToTarget(w.ID(), Env, env.name))
  }

  function OfEnv(w: Workload, backends: Backing, hosts: string -> seq<string>): EnvVar -> seq<Edge> {
    (env: EnvVar) => FlatMap(hosts(env.value), OfHost(w, env, backends))
  }

  function OfWorkload(backends: Backing, hosts: string -> seq<string>): Workload -> seq<Edge> {
    (w: Workload) => FlatMap(w.env, OfEnv(w, backends, hosts))
  }

  function OfEntry(backends: Backing): Entry -> seq<Edge> {
    (entry: Entry) => FlatMap(Listed(backends, entry.ServiceKey()), ToTarget(entry.ID(), entry.Source(), entry.host))
  }

  function SourceName(source: Source): string {
    match source case Env => "env" case Route => "route" case Ingress => "ingress"
  }

  /** The text under which an edge is remembered as already added. */
  function DedupKey(e: Edge): string {
    e.from + "|" + e.to + "|" + SourceName(e.source)
  }

  ghost predicate UniqueKeys(edges: seq<Edge>) {
    forall i, j :: 0 <= i < j < |edges| ==> DedupKey(edges[i]) != DedupKey(edges[j])
  }

  /** `edges` keeps one edge per key of the edges on offer, leaving out self calls. */
  ghost predicate Represents(edges: seq<Edge>, offered: seq<Edge>) {
    && UniqueKeys(edges)
    && (forall e :: e in edges ==> e in offered && e.from != e.to)
    && forall o :: o in offered && o.from != o.to ==> HasKey(edges, DedupKey(o))
  }

  ghost predicate HasKey(edges: seq<Edge>, key: string) {
    exists e :: e in edges && DedupKey(e) == key
  }

  lemma KeepEdge(edges: seq<Edge>, offered: seq<Edge>, e: Edge)
    requires Represents(edges, offered) && e.from != e.to && !HasKey(edges, DedupKey(e))
    ensures Represents(edges + [e], offered + [e])
    ensures forall k :: HasKey(edges + [e], k) <==> HasKey(edges, k) || k == DedupKey(e)
  {
    var more := edges + [e];
    assert e in more;
    forall x | x in edges ensures x in more && DedupKey(x) != DedupKey(e) { assert HasKey(edges, DedupKey(x)); }
    forall k ensures HasKey(more, k) <==> HasKey(edges, k) || k == DedupKey(e) {
      if HasKey(edges, k) {
        var x :| x in edges && DedupKey(x) == k;
        assert x in more;
      }
    }
    forall o | o in offered + [e] && o.from != o.to ensures HasKey(more, DedupKey(o)) {
      if o in offered { assert HasKey(edges, DedupKey(o)); }
    }
  }

  /** What is kept of the edges on offer: of each key the first that is no self call. */
  ghost function Kept(offered: seq<Edge>): seq<Edge> {
    if offered == [] then []
    else
      var (before, e) := (Kept(offered[..|offered| - 1]), offered[|offered| - 1]);
      if e.from == e.to || HasKey(before, DedupKey(e)) then before else before + [e]
  }

  lemma {:induction false} KeptRepresents(offered: seq<Edge>)
    ensures Represents(Kept(offered), offered)
  {
    if offered != [] {
      var (init, e) := (offered[..|offered| - 1], offered[|offered| - 1]);
      KeptRepresents(init);
      assert offered == init + [e];
      if !(e.from == e.to || HasKey(Kept(init), DedupKey(e))) { KeepEdge(Kept(init), init, e); }
    }
  }

  /** No edge offered before position `i`, self calls aside, has the key. */
  ghost predicate NewAt(offered: seq<Edge>, i: nat, key: string) {
    forall j :: 0 <= j < i && j < |offered| && offered[j].from != offered[j].to ==> DedupKey(offered[j]) != key
  }

  /** `e` is no self call and the first such edge offered under its key. */
  ghost predicate IsFirst(offered: seq<Edge>, e: Edge) {
    e.from != e.to && exists i: nat :: i < |offered| && offered[i] == e && NewAt(offered, i, DedupKey(e))
  }

  /** Exactly the first edges are kept, each with its own `via`. */
  lemma {:induction false} KeptIsFirst(offered: seq<Edge>, e: Edge)
    ensures e in Kept(offered) <==> IsFirst(offered, e)
  {
    if offered != [] {
      var n := |offered| - 1;
      var (init, last) := (offered[..n], offered[n]);
      KeptIsFirst(init, e);
      KeptRepresents(init);
      FirstNext(init, last, e, offered);
    }
  }

  lemma FirstNext(init: seq<Edge>, last: Edge, e: Edge, offered: seq<Edge>)
    requires offered == init + [last]
    ensures IsFirst(offered, e) <==>
            IsFirst(init, e) || (e == last && e.from != e.to && NewAt(init, |init|, DedupKey(e)))
  {
    forall i: nat, key | i <= |init| ensures NewAt(offered, i, key) <==> NewAt(init, i, key) {
      assert forall j :: 0 <= j < i ==> offered[j] == init[j];
    }
    if IsFirst(init, e) {
      var i: nat :| i < |init| && init[i] == e && NewAt(init, i, DedupKey(e));
      assert offered[i] == e;
    }
    if e == last { assert offered[|init|] == e; }
  }

  class EdgeSet {
    var seen: set<string>
    var edges: seq<Edge>
    ghost var offered: seq<Edge>

    ghost predicate Valid()
      reads this
    {
      edges == Kept(offered) && forall k :: k in seen <==> HasKey(edges, k)
    }

    constructor ()
      ensures Valid() && offered == []
    {
      seen, edges, offered := {}, [], [];
    }

    method Add(e: Edge)
      requires Valid()
      modifies this
      ensures Valid() && offered == old(offered) + [e]
    {
      var key := DedupKey(e);
      assert (offered + [e])[..|offered|] == offered;
      KeptRepresents(offered);
      if e.from == e.to || key in seen {
        offered := offered + [e];
        return;
      }
      KeepEdge(edges, offered, e);
      seen := seen + {key};
      edges := edges + [e];
      offered := offered + [e];
    }

    method AddTargets(from: string, targets: seq<string>, source: Source, via: string)
      requires Valid()
      modifies this
      ensures Valid() && offered == old(offered) + FlatMap(targets, ToTarget(from, source, via))
    {
      ghost var f := ToTarget(from, source, via);
      for i := 0 to |targets|
        invariant Valid() && offered == old(offered) + FlatMap(targets[..i], f)
      {
        Add(Edge(from, targets[i], source, via));
        OfferNext(offered, old(offered), targets, i, f);
      }
      assert targets[..|targets|] == targets;
    }

    method AddHost(w: Workload, env: EnvVar, host: string, backends: Backing)
      requires Valid()
      modifies this
      ensures Valid() && offered == old(offered) + OfHost(w, env, backends)(host)
    {
      var key := ServiceKey(host, w.ns);
      if key.Some? { AddTargets(w.ID(), Listed(backends, key.value), Env, env.name); }
    }

    method AddHosts(w: Workload, env: EnvVar, found: seq<string>, backends: Backing)
      requires Valid()
      modifies this
      ensures Valid() && offered == old(offered) + FlatMap(found, OfHost(w, env, backends))
    {
      for j := 0 to |found|
        invariant Valid() && offered == old(offered) + FlatMap(found[..j], OfHost(w, env, backends))
      {
        AddHost(w, env, found[j], backends);
        OfferNext(offered, old(offered), found, j, OfHost(w, env, backends));
      }
      assert found[..|found|] == found;
    }

    method AddWorkload(w: Workload, backends: Backing, hosts: string -> seq<string>)
      requires Valid()
      modifies this
      ensures Valid() && offered == old(offered) + OfWorkload(backends, hosts)(w)
    {
      ghost var f := OfEnv(w, backends, hosts);
      for i := 0 to |w.env|
        invariant Valid() && offered == old(offered) + FlatMap(w.env[..i], f)
      {
        AddHosts(w, w.env[i], hosts(w.env[i].value), backends);
        OfferNext(offered, old(offered), w.env, i, f);
      }
      assert w.env[..|w.env|] == w.env;
    }

    method AddEntry(entry: Entry, backends: Backing)
      requires Valid()
      modifies this
      ensures Valid() && offered == old(offered) + OfEntry(backends)(entry)
    {
      AddTargets(entry.ID(), Listed(backends, entry.ServiceKey()), entry.Source(), entry.host);
    }
  }

  // ---- The graph ----

  /** What the declarations say calls what. */
  ghost predicate Declared(workloads: seq<Workload>, services: seq<Service>, entries: seq<Entry>,
                           hosts: string -> seq<string>, e: Edge)
  {
    || (exists w, env, host ::
          && w in workloads && env in w.env && host in hosts(env.value)
          && ServiceKey(host, w.ns).Some? && Backs(services, workloads, ServiceKey(host, w.ns).value, e.to)
          && e == Edge(w.ID(), e.to, Env, env.name))
    || (exists entry ::
          && entry in entries && Backs(services, workloads, entry.ServiceKey(), e.to)
          && e == Edge(entry.ID(), e.to, entry.Source(), entry.host))
  }

  /** Some pair of the selector is there, and the workload has every pair as a label, or an empty value without one. */
  ghost predicate PicksLabels(selector: map<string, string>, labels: map<string, string>) {
    && (exists k :: k in selector)
    && forall k :: k in selector ==> if k in labels then labels[k] == selector[k] else selector[k] == ""
  }

  /** A service of this key picks the workload that stands at `to`, in its namespace. */
  ghost predicate LeadsTo(s: Service, u: Workload, key: string, to: string) {
    && key == s.ns + "/" + s.name && u.ns == s.ns && PicksLabels(s.selector, u.labels)
    && to == u.ns + "/" + u.kind + "/" + u.name
  }

  /** The host in this variable of the workload names a service that leads to the edge's end. */
  ghost predicate EnvEdge(w: Workload, env: EnvVar, host: string, s: Service, u: Workload, e: Edge) {
    && ServiceKey(host, w.ns).Some? && LeadsTo(s, u, ServiceKey(host, w.ns).value, e.to)
    && e.from == w.ns + "/" + w.kind + "/" + w.name && e.source == Env && e.via == env.name
  }

  ghost predicate EntryEdge(entry: Entry, s: Service, u: Workload, e: Edge) {
    && LeadsTo(s, u, entry.ns + "/" + entry.service, e.to)
    && e.from == entry.ns + "/" + entry.kind + "/" + entry.name && e.via == entry.host
    && e.source == if entry.kind == "Route" then Route else Ingress
  }

  lemma BacksMeans(services: seq<Service>, workloads: seq<Workload>, key: string, id: string)
    ensures Backs(services, workloads, key, id) <==>
            exists s, u :: s in services && u in workloads && LeadsTo(s, u, key, id)
  {
    forall s: Service, u: Workload ensures BackedBy(s, u, key, id) <==> LeadsTo(s, u, key, id) {
      assert s.selector != map[] <==> exists k :: k in s.selector;
    }
  }

  /** An edge is declared exactly by a variable or an entry that names a service, and a workload this service picks. */
  lemma DeclaredMeans(workloads: seq<Workload>, services: seq<Service>, entries: seq<Entry>,
                      hosts: string -> seq<string>, e: Edge)
    ensures Declared(workloads, services, entries, hosts, e) <==>
            || (exists w, env, host, s, u ::
                  && w in workloads && env in w.env && host in hosts(env.value) && s in services && u in workloads
                  && EnvEdge(w, env, host, s, u, e))
            || (exists entry, s, u ::
                  entry in entries && s in services && u in workloads && EntryEdge(entry, s, u, e))
  {
    forall key ensures Backs(services, workloads, key, e.to) <==>
        exists s, u :: s in services && u in workloads && LeadsTo(s, u, key, e.to)
    {
      BacksMeans(services, workloads, key, e.to);
    }
  }

  /** The edges on offer are the declared ones. */
  lemma OfferedIsDeclared(workloads: seq<Workload>, services: seq<Service>, entries: seq<Entry>,
                          hosts: string -> seq<string>, backends: Backing, e: Edge)
    requires forall key, id :: Lists(backends, id, key) <==> Backs(services, workloads, key, id)
    ensures e in FlatMap(workloads, OfWorkload(backends, hosts)) + FlatMap(entries, OfEntry(backends))
            <==> Declared(workloads, services, entries, hosts, e)
  {
    FlatMapMember(workloads, OfWorkload(backends, hosts), e);
    FlatMapMember(entries, OfEntry(backends), e);
    forall w ensures e in OfWorkload(backends, hosts)(w) <==> exists env, host ::
        env in w.env && host in hosts(env.value) && ServiceKey(host, w.ns).Some?
        && Lists(backends, e.to, ServiceKey(host, w.ns).value) && e == Edge(w.ID(), e.to, Env, env.name)
    {
      WorkloadOffers(w, backends, hosts, e);
    }
    forall entry: Entry ensures e in OfEntry(backends)(entry) <==>
        Lists(backends, e.to, entry.ServiceKey()) && e == Edge(entry.ID(), e.to, entry.Source(), entry.host)
    {
      TargetOffers(Listed(backends, entry.ServiceKey()), entry.ID(), entry.Source(), entry.host, e);
    }
  }

  lemma TargetOffers(targets: seq<string>, from: string, source: Source, via: string, e: Edge)
    ensures e in FlatMap(targets, ToTarget(from, source, via)) <==>
            e.to in targets && e == Edge(from, e.to, source, via)
  {
    FlatMapMember(targets, ToTarget(from, source, via), e);
    assert forall t :: e in ToTarget(from, source, via)(t) <==> e == Edge(from, t, source, via);
  }

  lemma WorkloadOffers(w: Workload, backends: Backing, hosts: string -> seq<string>, e: Edge)
    ensures e in OfWorkload(backends, hosts)(w) <==> exists env, host ::
        env in w.env && host in hosts(env.value) && ServiceKey(host, w.ns).Some?
        && Lists(backends, e.to, ServiceKey(host, w.ns).value) && e == Edge(w.ID(), e.to, Env, env.name)
  {
    FlatMapMember(w.env, OfEnv(w, backends, hosts), e);
    forall env: EnvVar ensures e in OfEnv(w, backends, hosts)(env) <==> exists host ::
        host in hosts(env.value) && ServiceKey(host, w.ns).Some?
        && Lists(backends, e.to, ServiceKey(host, w.ns).value) && e == Edge(w.ID(), e.to, Env, env.name)
    {
      FlatMapMember(hosts(env.value), OfHost(w, env, backends), e);
      forall host: string ensures e in OfHost(w, env, backends)(host) <==>
          ServiceKey(host, w.ns).Some?
          && Lists(backends, e.to, ServiceKey(host, w.ns).value) && e == Edge(w.ID(), e.to, Env, env.name)
      {
        var key := ServiceKey(host, w.ns);
        if key.Some? { TargetOffers(Listed(backends, key.value), w.ID(), Env, env.name, e); }
      }
    }
  }

  predicate EdgeLess(a: Edge, b: Edge) {
    if a.from != b.from then Lex.Less(a.from, b.from) else Lex.Less(a.to, b.to)
  }

  ghost predicate SortedEdges(s: seq<Edge>) {
    forall i, j :: 0 <= i < j < |s| ==> !EdgeLess(s[j], s[i])
  }

  lemma EdgeChain(a: Edge, b: Edge, c: Edge)
    requires !EdgeLess(b, a) && EdgeLess(b, c)
    ensures EdgeLess(a, c)
  {
    Lex.Total(a.from, b.from);
    Lex.Total(a.to, b.to);
    if a.from != b.from && b.from != c.from { Lex.Transitive(a.from, b.from, c.from); }
    if a.from == b.from == c.from && a.to != b.to { Lex.Transitive(a.to, b.to, c.to); }
  }

  lemma EdgeOrder()
    ensures Sorting.IsOrder(EdgeLess)
  {
    forall a, b | EdgeLess(a, b) ensures !EdgeLess(b, a) {
      Lex.Total(a.from, b.from);
      Lex.Total(a.to, b.to);
    }
    forall a, b, c | !EdgeLess(b, a) && EdgeLess(b, c) ensures EdgeLess(a, c) { EdgeChain(a, b, c); }
  }

  function SortEdges(s: seq<Edge>): (r: seq<Edge>)
    ensures SortedEdges(r) && multiset(r) == multiset(s)
  {
    EdgeOrder();
    Sorting.Sort(s, EdgeLess)
  }

  ghost predicate Served(services: seq<Service>, workloads: seq<Workload>, entry: Entry) {
    exists id :: Backs(services, workloads, entry.ServiceKey(), id)
  }

  ghost function KeptEntries(entries: seq<Entry>, services: seq<Service>, workloads: seq<Workload>): seq<Entry> {
    if entries == [] then []
    else
      var (rest, last) := (entries[..|entries| - 1], entries[|entries| - 1]);
      KeptEntries(rest, services, workloads) + if Served(services, workloads, last) then [last] else []
  }

  /**
   * The edges are declared ones, sorted, at most one per from, to and source, and none with a fresh key is left out.
   */
  ghost predicate IsGraph(g: Graph, workloads: seq<Workload>, services: seq<Service>, entries: seq<Entry>,
                          hosts: string -> seq<string>)
  {
    && SortedEdges(g.edges) && UniqueKeys(g.edges)
    && (forall e :: e in g.edges ==> Declared(workloads, services, entries, hosts, e) && e.from != e.to)
    && (forall e :: Declared(workloads, services, entries, hosts, e) && e.from != e.to ==> HasKey(g.edges, DedupKey(e)))
    && g.entries == KeptEntries(entries, services, workloads)
  }

  /** The edges on offer, in the order of the declarations. */
  function Offers(workloads: seq<Workload>, entries: seq<Entry>, hosts: string -> seq<string>,
                  backends: Backing): seq<Edge>
  {
    FlatMap(workloads, OfWorkload(backends, hosts)) + FlatMap(entries, OfEntry(backends))
  }

  /** Of the edges on offer, exactly the first under each key are in the graph. */
  ghost predicate KeepsFirst(g: Graph, workloads: seq<Workload>, services: seq<Service>, entries: seq<Entry>,
                             hosts: string -> seq<string>) {
    exists backends: Backing ::
      && (forall key, id :: Lists(backends, id, key) <==> Backs(services, workloads, key, id))
      && forall e :: e in g.edges <==> IsFirst(Offers(workloads, entries, hosts, backends), e)
  }

  method Build(workloads: seq<Workload>, services: seq<Service>, entries: seq<Entry>, hosts: string -> seq<string>)
    returns (g: Graph)
    ensures IsGraph(g, workloads, services, entries, hosts) && KeepsFirst(g, workloads, services, entries, hosts)
  {
    var backends := Backends(services, workloads);
    var edgeSet := new EdgeSet();
    for i := 0 to |workloads|
      invariant fresh(edgeSet) && edgeSet.Valid()
                && edgeSet.offered == FlatMap(workloads[..i], OfWorkload(backends, hosts))
    {
      edgeSet.AddWorkload(workloads[i], backends, hosts);
      OfferNext(edgeSet.offered, [], workloads, i, OfWorkload(backends, hosts));
    }
    assert workloads[..|workloads|] == workloads;
    var kept := AddEntries(edgeSet, entries, services, workloads, backends);
    g := Graph(SortEdges(edgeSet.edges), kept);
    KeptRepresents(edgeSet.offered);
    SortedIsGraph(g, edgeSet.edges, edgeSet.offered, workloads, services, entries, hosts, backends);
    SortedKeepsFirst(g, edgeSet.offered, workloads, services, entries, hosts, backends);
  }

  lemma SortedKeepsFirst(g: Graph, offered: seq<Edge>, workloads: seq<Workload>, services: seq<Service>,
                         entries: seq<Entry>, hosts: string -> seq<string>, backends: Backing)
    requires forall key, id :: Lists(backends, id, key) <==> Backs(services, workloads, key, id)
    requires offered == Offers(workloads, entries, hosts, backends) && multiset(g.edges) == multiset(Kept(offered))
    ensures KeepsFirst(g, workloads, services, entries, hosts)
  {
    forall e ensures e in g.edges <==> IsFirst(offered, e) {
      KeptIsFirst(offered, e);
      assert e in multiset(g.edges) <==> e in multiset(Kept(offered));
    }
  }

  method AddEntries(edgeSet: EdgeSet, entries: seq<Entry>, ghost services: seq<Service>,
                    ghost workloads: seq<Workload>, backends: Backing)
    returns (kept: seq<Entry>)
    requires edgeSet.Valid()
    requires forall key, id :: Lists(backends, id, key) <==> Backs(services, workloads, key, id)
    modifies edgeSet
    ensures edgeSet.Valid() && edgeSet.offered == old(edgeSet.offered) + FlatMap(entries, OfEntry(backends))
    ensures kept == KeptEntries(entries, services, workloads)
  {
    kept := [];
    ghost var f := OfEntry(backends);
    for i := 0 to |entries|
      invariant edgeSet.Valid() && edgeSet.offered == old(edgeSet.offered) + FlatMap(entries[..i], f)
      invariant kept == KeptEntries(entries[..i], services, workloads)
    {
      ServedNext(entries, i, services, workloads, backends);
      if |Listed(backends, entries[i].ServiceKey())| > 0 { kept := kept + [entries[i]]; }
      edgeSet.AddEntry(entries[i], backends);
      OfferNext(edgeSet.offered, old(edgeSet.offered), entries, i, f);
    }
    assert entries[..|entries|] == entries;
  }

  lemma ServedNext(entries: seq<Entry>, i: nat, services: seq<Service>, workloads: seq<Workload>, backends: Backing)
    requires i < |entries|
    requires forall key, id :: Lists(backends, id, key) <==> Backs(services, workloads, key, id)
    ensures KeptEntries(entries[..i + 1], services, workloads) ==
            KeptEntries(entries[..i], services, workloads)
              + if |Listed(backends, entries[i].ServiceKey())| > 0 then [entries[i]] else []
  {
    var targets := Listed(backends, entries[i].ServiceKey());
    assert entries[..i + 1][..i] == entries[..i];
    if |targets| > 0 { assert Lists(backends, targets[0], entries[i].ServiceKey()); }
  }

  lemma SortedIsGraph(g: Graph, edges: seq<Edge>, offered: seq<Edge>, workloads: seq<Workload>, services: seq<Service>,
                      entries: seq<Entry>, hosts: string -> seq<string>, backends: Backing)
    requires forall key, id :: Lists(backends, id, key) <==> Backs(services, workloads, key, id)
    requires Represents(edges, offered)
    requires offered == FlatMap(workloads, OfWorkload(backends, hosts)) + FlatMap(entries, OfEntry(backends))
    requires g == Graph(SortEdges(edges), KeptEntries(entries, services, workloads))
    ensures IsGraph(g, workloads, services, entries, hosts)
  {
    SortedRepresents(edges, g.edges, offered);
    forall e ensures e in offered <==> Declared(workloads, services, entries, hosts, e) {
      OfferedIsDeclared(workloads, services, entries, hosts, backends, e);
    }
  }

  /** Rearranging edges does not change what they represent. */
  lemma SortedRepresents(edges: seq<Edge>, sorted: seq<Edge>, offered: seq<Edge>)
    requires Represents(edges, offered) && multiset(edges) == multiset(sorted)
    ensures Represents(sorted, offered)
  {
    SameKeys(edges, sorted);
    forall e ensures e in sorted <==> e in edges { assert e in multiset(sorted) <==> e in multiset(edges); }
    forall o | o in offered && o.from != o.to ensures HasKey(sorted, DedupKey(o)) {
      var x :| x in edges && DedupKey(x) == DedupKey(o);
      assert x in sorted;
    }
  }

  /** Rearranging edges keeps their keys distinct. */
  lemma SameKeys(edges: seq<Edge>, sorted: seq<Edge>)
    requires UniqueKeys(edges) && multiset(edges) == multiset(sorted)
    ensures UniqueKeys(sorted)
  {
    forall i, j | 0 <= i < j < |sorted| ensures DedupKey(sorted[i]) != DedupKey(sorted[j]) {
      if DedupKey(sorted[i]) == DedupKey(sorted[j]) {
        assert sorted[i] in multiset(edges) && sorted[j] in multiset(edges);
        var a :| 0 <= a < |edges| && edges[a] == sorted[i];
        var b :| 0 <= b < |edges| && edges[b] == sorted[j];
        assert sorted[i] == sorted[j];
        TwoOccurrences(sorted, i, j);
        OneOccurrence(edges, a);
      }
    }
  }

  lemma TwoOccurrences(s: seq<Edge>, i: nat, j: nat)
    requires i < j < |s| && s[i] == s[j]
    ensures multiset(s)[s[i]] >= 2
  {
    assert s == s[..j] + s[j..] && s[i] == s[..j][i] && s[j] == s[j..][0];
    assert s[i] in s[..j] && s[i] in s[j..];
    assert multiset(s) == multiset(s[..j]) + multiset(s[j..]);
  }

  lemma {:induction false} OneOccurrence(s: seq<Edge>, a: nat)
    requires UniqueKeys(s) && a < |s|
    ensures multiset(s)[s[a]] == 1
  {
    var n := |s| - 1;
    assert s == s[..n] + [s[n]];
    assert forall x :: x in s[..n] ==> DedupKey(x) != DedupKey(s[n]);
    assert s[n] !in multiset(s[..n]);
    if a < n { OneOccurrence(s[..n], a); }
  }

  predicate BarFree(s: string) {
    '|' !in s
  }

  lemma {:induction false} CutAtBar(a: string, b: string, x: string, y: string)
    requires BarFree(a) && BarFree(b) && a + "|" + x == b + "|" + y
    ensures a == b && x == y
  {
    var s, t := a + "|" + x, b + "|" + y;
    assert s[0] == if a == "" then '|' else a[0];
    assert t[0] == if b == "" then '|' else b[0];
    if a == "" {
      assert s[1..] == x && t[1..] == y;
    } else {
      assert a == [a[0]] + a[1..] && b == [b[0]] + b[1..];
      assert s[1..] == a[1..] + "|" + x && t[1..] == b[1..] + "|" + y;
      CutAtBar(a[1..], b[1..], x, y);
    }
  }

  lemma KeyParts(e: Edge, rest: string)
    requires rest == e.to + "|" + SourceName(e.source)
    ensures DedupKey(e) == e.from + "|" + rest
  {
    assert e.from + "|" + rest == DedupKey(e);
  }

  /** Without bars in the names, an edge's key determines its ends and its source. */
  lemma KeyDetermines(e: Edge, f: Edge)
    requires BarFree(e.from) && BarFree(e.to) && BarFree(f.from) && BarFree(f.to) && DedupKey(e) == DedupKey(f)
    ensures e.from == f.from && e.to == f.to && e.source == f.source
  {
    var (x, y) := (e.to + "|" + SourceName(e.source), f.to + "|" + SourceName(f.source));
    KeyParts(e, x);
    KeyParts(f, y);
    CutAtBar(e.from, f.from, x, y);
    CutAtBar(e.to, f.to, SourceName(e.source), SourceName(f.source));
    assert SourceName(e.source)[0] == SourceName(f.source)[0];
  }

  /** With bar-free names, the graph's env calls are the declared calls between different workloads. */
  lemma GraphCalls(g: Graph, workloads: seq<Workload>, services: seq<Service>, entries: seq<Entry>,
                   hosts: string -> seq<string>, x: string, y: string)
    requires IsGraph(g, workloads, services, entries, hosts)
    requires forall e :: Declared(workloads, services, entries, hosts, e) ==> BarFree(e.from) && BarFree(e.to)
    ensures Calls(g.edges, x, y) <==>
            x != y && exists via :: Declared(workloads, services, entries, hosts, Edge(x, y, Env, via))
  {
    if Calls(g.edges, x, y) {
      var e :| e in g.edges && e.source == Env && e.from == x && e.to == y;
      assert e == Edge(x, y, Env, e.via);
    }
    if via :| x != y && Declared(workloads, services, entries, hosts, Edge(x, y, Env, via)) {
      var e :| e in g.edges && DedupKey(e) == DedupKey(Edge(x, y, Env, via));
      KeyDetermines(e, Edge(x, y, Env, via));
    }
  }
}
