/** The registry's path-count sweep accepts exactly the catalogs with at most one upcast route per pair. */
module Routes {
  import opened Ordering
  import opened Versions
  import opened Catalogs
  import opened Registry

  // ---------------------------------------------------------------- routes

  /** `route` leads from `source` to `end`, edge by edge; the empty route stays. */
  ghost predicate Route(us: seq<Upcaster>, source: SchemaRef, route: seq<Upcaster>, end: SchemaRef)
  {
    if route == [] then source == end
    else
      var last := route[|route| - 1];
      last in us && last.target == end && Route(us, source, route[..|route| - 1], last.source)
  }

  /** No two different routes join `source` to the same version. */
  ghost predicate OneRouteEach(us: seq<Upcaster>, source: SchemaRef)
  {
    forall a, b, end {:trigger Route(us, source, a, end), Route(us, source, b, end)} ::
      Route(us, source, a, end) && Route(us, source, b, end) ==> a == b
  }

  ghost predicate NoRepeats(refs: seq<SchemaRef>) { forall i, j | 0 <= i < j < |refs| :: refs[i] != refs[j] }

  ghost function Index(order: seq<SchemaRef>, r: SchemaRef): (i: nat)
    requires r in order
    ensures i < |order| && order[i] == r
  {
    if order[0] == r then 0 else 1 + Index(order[1..], r)
  }

  lemma IndexIs(order: seq<SchemaRef>, i: nat)
    requires NoRepeats(order) && i < |order|
    ensures Index(order, order[i]) == i
  {
  }

  /** Every edge leads forward in the order, and no two edges join the same pair. */
  ghost predicate Topological(us: seq<Upcaster>, order: seq<SchemaRef>)
  {
    && NoRepeats(order)
    && (forall u | u in us :: u.source in order && u.target in order && Index(order, u.source) < Index(order, u.target))
    && (forall i, j | 0 <= i < j < |us| :: us[i].source != us[j].source || us[i].target != us[j].target)
  }

  lemma ForwardEdge(us: seq<Upcaster>, order: seq<SchemaRef>, u: Upcaster)
    requires Topological(us, order) && u in us
    ensures u.source in order && u.target in order && Index(order, u.source) < Index(order, u.target)
  {
  }

  /** The edges of a route start before its end. */
  ghost predicate SourcesBefore(order: seq<SchemaRef>, route: seq<Upcaster>, k: nat)
  {
    forall u | u in route :: u.source in order && Index(order, u.source) < k
  }

  lemma {:induction false} RouteSources(us: seq<Upcaster>, order: seq<SchemaRef>, source: SchemaRef,
      route: seq<Upcaster>, end: SchemaRef)
    requires Topological(us, order) && Route(us, source, route, end) && end in order
    ensures SourcesBefore(order, route, Index(order, end))
    decreases |route|
  {
    hide Topological, Index;
    if route != [] {
      var n := |route| - 1;
      ForwardEdge(us, order, route[n]);
      RouteSources(us, order, source, route[..n], route[n].source);
      assert route == route[..n] + [route[n]];
    }
  }

  lemma RouteExtends(us: seq<Upcaster>, source: SchemaRef, route: seq<Upcaster>, u: Upcaster)
    requires u in us && Route(us, source, route, u.source)
    ensures Route(us, source, route + [u], u.target)
  {
  }

  // ---------------------------------------------------------------- spreading from one node

  ghost predicate AllOne(counts: Counts) { forall r | r in counts :: counts[r] == 1 }

  lemma {:induction false} SpreadGives(counts: Counts, targets: seq<SchemaRef>)
    requires AllOne(counts)
    ensures Spread(counts, 1, targets).Some? <==> NoRepeats(targets) && forall t | t in targets :: t !in counts
    ensures Spread(counts, 1, targets).Some? ==>
              && AllOne(Spread(counts, 1, targets).value)
              && Spread(counts, 1, targets).value.Keys == counts.Keys + set t | t in targets
    decreases |targets|
  {
    if targets != [] {
      assert targets == [targets[0]] + targets[1..];
      if targets[0] !in counts {
        SpreadGives(counts[targets[0] := 1], targets[1..]);
        NoRepeatsTail(targets);
      }
    }
  }

  lemma NoRepeatsTail(refs: seq<SchemaRef>)
    requires refs != []
    ensures NoRepeats(refs) <==> NoRepeats(refs[1..]) && refs[0] !in refs[1..]
  {
  }

  lemma {:induction false} OutgoingMember(us: seq<Upcaster>, node: SchemaRef, t: SchemaRef)
    ensures t in Outgoing(us, node) <==> exists u :: u in us && u.source == node && u.target == t
  {
    if us != [] {
      OutgoingMember(us[1..], node, t);
      assert us == [us[0]] + us[1..];
      if us[0].source == node && us[0].target == t {
        assert us[0] in us;
      }
    }
  }

  lemma {:induction false} OutgoingNoRepeats(us: seq<Upcaster>, node: SchemaRef)
    requires forall i, j | 0 <= i < j < |us| :: us[i].source != us[j].source || us[i].target != us[j].target
    ensures NoRepeats(Outgoing(us, node))
  {
    if us != [] {
      OutgoingNoRepeats(us[1..], node);
      if us[0].source == node {
        OutgoingMember(us[1..], node, us[0].target);
        forall u | u in us[1..]
          ensures u.source != us[0].source || u.target != us[0].target
        {
          var i :| 0 <= i < |us[1..]| && us[1..][i] == u;
          assert us[i + 1] == u;
        }
        var all := [us[0].target] + Outgoing(us[1..], node);
        assert all[1..] == Outgoing(us[1..], node);
        NoRepeatsTail(all);
      } else {
        assert [] + Outgoing(us[1..], node) == Outgoing(us[1..], node);
      }
    }
  }

  // ---------------------------------------------------------------- the sweep

  ghost predicate Reached(us: seq<Upcaster>, order: seq<SchemaRef>, source: SchemaRef, k: nat, end: SchemaRef)
  {
    exists route :: Route(us, source, route, end) && SourcesBefore(order, route, k)
  }

  /** After the first `k` nodes: the counted versions are those reached through them, each by one route. */
  ghost predicate Swept(us: seq<Upcaster>, order: seq<SchemaRef>, source: SchemaRef, k: nat, counts: Counts)
  {
    && AllOne(counts)
    && (forall end :: end in counts <==> Reached(us, order, source, k, end))
    && (forall a, b, end {:trigger Route(us, source, a, end), Route(us, source, b, end)} ::
          && Route(us, source, a, end) && SourcesBefore(order, a, k)
          && Route(us, source, b, end) && SourcesBefore(order, b, k)
          ==> a == b)
  }

  lemma SomeSourceBefore(order: seq<SchemaRef>, route: seq<Upcaster>, k: nat)
    requires route != []
    ensures SourcesBefore(order, route, k) ==> k > 0
  {
    hide Index;
    if SourcesBefore(order, route, k) {
      assert route[0] in route;
    }
  }

  lemma SweptAtFirst(us: seq<Upcaster>, order: seq<SchemaRef>, source: SchemaRef)
    ensures Swept(us, order, source, 0, map[source := 1])
  {
    hide Index;
    forall route, end | Route(us, source, route, end) && SourcesBefore(order, route, 0)
      ensures route == [] && end == source
    {
      if route != [] {
        SomeSourceBefore(order, route, 0);
      }
    }
    assert Route(us, source, [], source) && SourcesBefore(order, [], 0);
  }

  /** A route through the first k+1 nodes uses node k, if at all, only for its last edge. */
  lemma LastEdgeOnly(us: seq<Upcaster>, order: seq<SchemaRef>, source: SchemaRef, k: nat, route: seq<Upcaster>,
      end: SchemaRef)
    requires Topological(us, order) && k < |order| && Route(us, source, route, end) &&
             SourcesBefore(order, route, k + 1)
    ensures SourcesBefore(order, route, k) ||
            (route != [] && route[|route| - 1].source == order[k] && route[|route| - 1] in us
             && route[|route| - 1].target == end && Route(us, source, route[..|route| - 1], order[k]))
  {
  }

  /** Every route to node k already passes only through earlier nodes. */
  lemma RoutesToNode(us: seq<Upcaster>, order: seq<SchemaRef>, source: SchemaRef, k: nat, route: seq<Upcaster>)
    requires Topological(us, order) && k < |order| && Route(us, source, route, order[k])
    ensures SourcesBefore(order, route, k)
  {
    RouteSources(us, order, source, route, order[k]);
    IndexIs(order, k);
  }

  lemma RouteMeansReached(us: seq<Upcaster>, order: seq<SchemaRef>, source: SchemaRef, k: nat, route: seq<Upcaster>)
    requires Topological(us, order) && k < |order|
    ensures Route(us, source, route, order[k]) ==> Reached(us, order, source, k, order[k])
  {
    hide Topological, Index;
    if Route(us, source, route, order[k]) {
      RoutesToNode(us, order, source, k, route);
    }
  }

  lemma SourcesLater(order: seq<SchemaRef>, route: seq<Upcaster>, k: nat)
    requires SourcesBefore(order, route, k)
    ensures SourcesBefore(order, route, k + 1)
  {
  }

  lemma SourcesSnoc(order: seq<SchemaRef>, route: seq<Upcaster>, k: nat, u: Upcaster)
    requires SourcesBefore(order, route, k) && NoRepeats(order) && k < |order| && u.source == order[k]
    ensures SourcesBefore(order, route + [u], k + 1)
  {
  }

  /** An unreached node adds nothing. */
  lemma SkipNode(us: seq<Upcaster>, order: seq<SchemaRef>, source: SchemaRef, k: nat, counts: Counts)
    requires Topological(us, order) && k < |order| && Swept(us, order, source, k, counts) && order[k] !in counts
    ensures Swept(us, order, source, k + 1, counts)
  {
    hide Topological, Index;
    forall route, end | Route(us, source, route, end) && SourcesBefore(order, route, k + 1)
      ensures SourcesBefore(order, route, k)
    {
      LastEdgeOnly(us, order, source, k, route, end);
      if route != [] {
        RouteMeansReached(us, order, source, k, route[..|route| - 1]);
      }
    }
    forall end
      ensures Reached(us, order, source, k + 1, end) <==> Reached(us, order, source, k, end)
    {
      if Reached(us, order, source, k, end) {
        var route :| Route(us, source, route, end) && SourcesBefore(order, route, k);
        SourcesLater(order, route, k);
      }
    }
  }

  /** A counted node hands its route on to each of its targets. */
  lemma SpreadReached(us: seq<Upcaster>, order: seq<SchemaRef>, source: SchemaRef, k: nat, counts: Counts,
      end: SchemaRef)
    requires Topological(us, order) && k < |order| && Swept(us, order, source, k, counts) && order[k] in counts
    ensures Reached(us, order, source, k + 1, end) <==> end in counts || end in Outgoing(us, order[k])
  {
    hide Topological, Index, Route, SourcesBefore, Outgoing;
    OutgoingMember(us, order[k], end);
    assert Reached(us, order, source, k, order[k]);
    var to :| Route(us, source, to, order[k]) && SourcesBefore(order, to, k);
    if Reached(us, order, source, k + 1, end) {
      var route :| Route(us, source, route, end) && SourcesBefore(order, route, k + 1);
      LastEdgeOnly(us, order, source, k, route, end);
      if SourcesBefore(order, route, k) {
        assert Reached(us, order, source, k, end);
      }
    }
    if end in counts {
      assert Reached(us, order, source, k, end);
      var route :| Route(us, source, route, end) && SourcesBefore(order, route, k);
      SourcesLater(order, route, k);
    }
    if end in Outgoing(us, order[k]) {
      var u :| u in us && u.source == order[k] && u.target == end;
      RouteExtends(us, source, to, u);
      TopologicalParts(us, order);
      SourcesSnoc(order, to, k, u);
    }
  }

  lemma TopologicalParts(us: seq<Upcaster>, order: seq<SchemaRef>)
    requires Topological(us, order)
    ensures NoRepeats(order)
    ensures forall i, j | 0 <= i < j < |us| :: us[i].source != us[j].source || us[i].target != us[j].target
  {
  }

  lemma SameEdge(us: seq<Upcaster>, order: seq<SchemaRef>, u: Upcaster, v: Upcaster)
    requires Topological(us, order) && u in us && v in us && u.source == v.source && u.target == v.target
    ensures u == v
  {
  }

  /** The route takes node k only for its last edge, or not at all. */
  ghost predicate ThroughLast(us: seq<Upcaster>, order: seq<SchemaRef>, source: SchemaRef, k: nat,
      route: seq<Upcaster>, end: SchemaRef)
    requires k < |order|
  {
    && route != [] && route[|route| - 1].source == order[k] && route[|route| - 1] in us
    && route[|route| - 1].target == end && Route(us, source, route[..|route| - 1], order[k])
  }

  lemma ThroughLastUnique(us: seq<Upcaster>, order: seq<SchemaRef>, source: SchemaRef, k: nat, counts: Counts,
                          a: seq<Upcaster>, b: seq<Upcaster>, end: SchemaRef)
    requires Topological(us, order) && k < |order| && Swept(us, order, source, k, counts)
    requires ThroughLast(us, order, source, k, a, end) && ThroughLast(us, order, source, k, b, end)
    ensures a == b
  {
    var m, n := |a| - 1, |b| - 1;
    SameEdge(us, order, a[m], b[n]);
    RoutesToNode(us, order, source, k, a[..m]);
    RoutesToNode(us, order, source, k, b[..n]);
    hide Topological, Index, Reached, SourcesBefore;
    assert a[..m] == b[..n];
    assert a == a[..m] + [a[m]] && b == b[..n] + [b[n]];
  }

  /** With fresh targets no version gets a second route. */
  lemma SpreadUnique(us: seq<Upcaster>, order: seq<SchemaRef>, source: SchemaRef, k: nat, counts: Counts,
                     a: seq<Upcaster>, b: seq<Upcaster>, end: SchemaRef)
    requires Topological(us, order) && k < |order| && Swept(us, order, source, k, counts)
    requires forall t | t in Outgoing(us, order[k]) :: t !in counts
    requires Route(us, source, a, end) && SourcesBefore(order, a, k + 1)
    requires Route(us, source, b, end) && SourcesBefore(order, b, k + 1)
    ensures a == b
  {
    LastEdgeOnly(us, order, source, k, a, end);
    LastEdgeOnly(us, order, source, k, b, end);
    OutgoingMember(us, order[k], end);
    if SourcesBefore(order, a, k) || SourcesBefore(order, b, k) {
      hide Topological, Index, SourcesBefore, Outgoing;
      assert Reached(us, order, source, k, end);
      assert end in counts && end !in Outgoing(us, order[k]);
    } else {
      hide Index, SourcesBefore, Swept;
      ThroughLastUnique(us, order, source, k, counts, a, b, end);
    }
  }

  lemma SpreadNode(us: seq<Upcaster>, order: seq<SchemaRef>, source: SchemaRef, k: nat, counts: Counts)
    requires Topological(us, order) && k < |order| && Swept(us, order, source, k, counts) && order[k] in counts
    requires Spread(counts, 1, Outgoing(us, order[k])).Some?
    ensures Swept(us, order, source, k + 1, Spread(counts, 1, Outgoing(us, order[k])).value)
  {
    hide Topological, Index, Spread, Reached;
    SpreadGives(counts, Outgoing(us, order[k]));
    var after := Spread(counts, 1, Outgoing(us, order[k])).value;
    forall end
      ensures end in after <==> Reached(us, order, source, k + 1, end)
    {
      SpreadReached(us, order, source, k, counts, end);
    }
    forall a, b, end {:trigger Route(us, source, a, end), Route(us, source, b, end)}
      | && Route(us, source, a, end) && SourcesBefore(order, a, k + 1)
        && Route(us, source, b, end) && SourcesBefore(order, b, k + 1)
      ensures a == b
    {
      SpreadUnique(us, order, source, k, counts, a, b, end);
    }
  }

  /** A target counted before means a second route to it. */
  lemma SpreadConflict(us: seq<Upcaster>, order: seq<SchemaRef>, source: SchemaRef, k: nat, counts: Counts)
    requires Topological(us, order) && k < |order| && Swept(us, order, source, k, counts) && order[k] in counts
    requires Spread(counts, 1, Outgoing(us, order[k])).None?
    ensures !OneRouteEach(us, source)
  {
    hide Topological, Index, Spread, Reached, Route, SourcesBefore;
    SpreadGives(counts, Outgoing(us, order[k]));
    TopologicalParts(us, order);
    OutgoingNoRepeats(us, order[k]);
    var t :| t in Outgoing(us, order[k]) && t in counts;
    OutgoingMember(us, order[k], t);
    var u :| u in us && u.source == order[k] && u.target == t;
    TwoRoutes(us, order, source, k, u);
  }

  /** Two routes to the target of `u`: one known before node `k`, one over node `k`. */
  lemma TwoRoutes(us: seq<Upcaster>, order: seq<SchemaRef>, source: SchemaRef, k: nat, u: Upcaster)
    requires NoRepeats(order) && k < |order| && u in us && u.source == order[k]
    requires Reached(us, order, source, k, order[k]) && Reached(us, order, source, k, u.target)
    ensures !OneRouteEach(us, source)
  {
    hide Index, Route, SourcesBefore;
    var to :| Route(us, source, to, order[k]) && SourcesBefore(order, to, k);
    var a :| Route(us, source, a, u.target) && SourcesBefore(order, a, k);
    RouteExtends(us, source, to, u);
    LastSourceDiffers(order, a, k, to + [u]);
  }

  lemma LastSourceDiffers(order: seq<SchemaRef>, a: seq<Upcaster>, k: nat, b: seq<Upcaster>)
    requires NoRepeats(order) && k < |order| && SourcesBefore(order, a, k) && b != [] && b[|b| - 1].source == order[k]
    ensures a != b
  {
  }

  lemma SweptAll(us: seq<Upcaster>, order: seq<SchemaRef>, source: SchemaRef, counts: Counts)
    requires Topological(us, order) && Swept(us, order, source, |order|, counts)
    ensures OneRouteEach(us, source)
  {
    hide Topological, Index;
    forall route, end | Route(us, source, route, end)
      ensures SourcesBefore(order, route, |order|)
    {
      if route != [] {
        ForwardEdge(us, order, route[|route| - 1]);
        RouteSources(us, order, source, route, end);
      }
    }
  }

  /** The sweep from one source succeeds exactly when no version has two routes from it. */
  lemma {:induction false} SweepDecides(us: seq<Upcaster>, order: seq<SchemaRef>, source: SchemaRef, k: nat,
      counts: Counts)
    requires Topological(us, order) && k <= |order| && Swept(us, order, source, k, counts)
    ensures Sweep(us, order[k..], counts).Some? <==> OneRouteEach(us, source)
    decreases |order| - k
  {
    hide Topological, Swept, OneRouteEach, Spread, Outgoing;
    if k == |order| {
      SweptAll(us, order, source, counts);
    } else {
      var nodes := order[k..];
      assert nodes[0] == order[k] && nodes[1..] == order[k + 1..];
      CountIsOne(us, order, source, k, counts);
      if order[k] !in counts {
        SkipNode(us, order, source, k, counts);
        SweepDecides(us, order, source, k + 1, counts);
      } else if Spread(counts, 1, Outgoing(us, order[k])).None? {
        SpreadConflict(us, order, source, k, counts);
      } else {
        SpreadNode(us, order, source, k, counts);
        SweepDecides(us, order, source, k + 1, Spread(counts, 1, Outgoing(us, order[k])).value);
      }
    }
  }

  lemma CountIsOne(us: seq<Upcaster>, order: seq<SchemaRef>, source: SchemaRef, k: nat, counts: Counts)
    requires Swept(us, order, source, k, counts)
    ensures AllOne(counts)
  {
  }

  // ---------------------------------------------------------------- catalogs

  lemma VersionsOrdered(a: SchemaRef, b: SchemaRef)
    requires a.schemaId == b.schemaId && LowerVersion(a, b)
    ensures Before(NodeKey(a), NodeKey(b))
  {
    var x, y := VersionKey(a.version).value, VersionKey(b.version).value;
    BeforeShared(TextKey(a.schemaId), [x.major, x.minor, x.patch], [y.major, y.minor, y.patch]);
    TripleBefore(x, y);
  }

  lemma TripleBefore(x: Version, y: Version)
    requires Precedes(x, y)
    ensures Before([x.major, x.minor, x.patch], [y.major, y.minor, y.patch])
  {
  }

  lemma {:induction false} BeforeShared(prefix: Key, a: Key, b: Key)
    ensures Before(prefix + a, prefix + b) <==> Before(a, b)
  {
    if prefix == [] {
      assert prefix + a == a && prefix + b == b;
    } else {
      BeforeShared(prefix[1..], a, b);
      assert (prefix + a)[1..] == prefix[1..] + a && (prefix + b)[1..] == prefix[1..] + b;
    }
  }

  lemma KeysGiveOrder(order: seq<SchemaRef>, i: nat, j: nat)
    requires Ascending(order, NodeKey) && i < |order| && j < |order|
    ensures Before(NodeKey(order[i]), NodeKey(order[j])) ==> i < j
  {
    hide NodeKey;
    BeforeTotal(NodeKey(order[i]), NodeKey(order[j]));
    if j < i {
      assert !Before(NodeKey(order[i]), NodeKey(order[j]));
    }
  }

  lemma SortedInOrder(order: seq<SchemaRef>, a: SchemaRef, b: SchemaRef)
    requires Ascending(order, NodeKey) && a in order && b in order && Before(NodeKey(a), NodeKey(b))
    ensures Index(order, a) < Index(order, b)
  {
    KeysGiveOrder(order, Index(order, a), Index(order, b));
  }

  lemma NodeKeyInjective(a: SchemaRef, b: SchemaRef)
    requires VersionKey(a.version).Some? && VersionKey(b.version).Some?
    ensures NodeKey(a) == NodeKey(b) ==> RefKey(a) == RefKey(b)
  {
    hide VersionKey;
    if NodeKey(a) == NodeKey(b) {
      var x, y := VersionKey(a.version).value, VersionKey(b.version).value;
      var p: Key, q: Key := [x.major, x.minor, x.patch], [y.major, y.minor, y.patch];
      TextKeyPrefixFree(a.schemaId, p, b.schemaId, q);
      assert p[0] == q[0] && p[1] == q[1] && p[2] == q[2];
      VersionKeyInjective(a.version, b.version);
    }
  }

  /** What the registry has checked of the catalog before the sweep. */
  ghost predicate EdgesOK(w: World, c: Catalog)
  {
    && (forall i | 0 <= i < |c.schemas| :: EntryOK(w, c, c.schemas[i]))
    && (forall i, j | 0 <= i < j < |c.schemas| :: SeparateEntries(c.schemas[i], c.schemas[j]))
    && (forall i | 0 <= i < |c.upcasters| :: UpcasterOK(c, c.upcasters[i]))
    && (forall i, j | 0 <= i < j < |c.upcasters| :: SeparateUpcasters(c.upcasters[i], c.upcasters[j]))
  }

  lemma NodeInOrder(c: Catalog, r: SchemaRef)
    ensures r in OrderedNodes(c) <==> Resolves(c, r)
  {
    SortByMember(Refs(c.schemas), NodeKey, r);
    if Resolves(c, r) {
      var e :| e in c.schemas && e.ref == r;
      var i :| 0 <= i < |c.schemas| && c.schemas[i] == e;
      assert Refs(c.schemas)[i] == r;
    }
  }

  lemma EntriesDiffer(w: World, c: Catalog)
    requires EdgesOK(w, c)
    ensures forall i, j | 0 <= i < j < |c.schemas| :: RefKey(c.schemas[i].ref) != RefKey(c.schemas[j].ref)
    ensures forall e | e in c.schemas :: VersionKey(e.ref.version).Some?
  {
    hide UpcasterOK, SeparateUpcasters, VersionKey, RefKey, PinOK, IsScanned, InVersionDirectory, Resolves,
         LowerVersion;
    forall i, j | 0 <= i < j < |c.schemas|
      ensures RefKey(c.schemas[i].ref) != RefKey(c.schemas[j].ref)
    {
      assert SeparateEntries(c.schemas[i], c.schemas[j]);
    }
    forall e | e in c.schemas
      ensures VersionKey(e.ref.version).Some?
    {
      var i :| 0 <= i < |c.schemas| && c.schemas[i] == e;
      assert EntryOK(w, c, c.schemas[i]);
    }
  }

  /** Different references to entries of a valid catalog have different keys. */
  lemma NodesDiffer(w: World, c: Catalog, a: SchemaRef, b: SchemaRef)
    requires EdgesOK(w, c) && Resolves(c, a) && Resolves(c, b) && a != b
    ensures NodeKey(a) != NodeKey(b)
  {
    hide EdgesOK, NodeKey, RefKey, VersionKey;
    EntriesDiffer(w, c);
    var x :| x in c.schemas && x.ref == a;
    var y :| y in c.schemas && y.ref == b;
    var i :| 0 <= i < |c.schemas| && c.schemas[i] == x;
    var j :| 0 <= j < |c.schemas| && c.schemas[j] == y;
    NodeKeyInjective(a, b);
  }

  /** Any published versions that include both ends of every edge are topologically ordered by version. */
  lemma NodesAreTopological(w: World, c: Catalog, nodes: seq<SchemaRef>)
    requires EdgesOK(w, c) && NoRepeats(nodes) && forall r | r in nodes :: Resolves(c, r)
    requires forall u | u in c.upcasters :: u.source in nodes && u.target in nodes
    ensures Topological(c.upcasters, SortBy(nodes, NodeKey))
  {
    hide NodeKey, SortBy, EntryOK, LowerVersion, Index, Resolves;
    var order := SortBy(nodes, NodeKey);
    forall i, j | 0 <= i < j < |nodes|
      ensures NodeKey(nodes[i]) != NodeKey(nodes[j])
    {
      assert nodes[i] in nodes && nodes[j] in nodes;
      NodesDiffer(w, c, nodes[i], nodes[j]);
    }
    SortByKeeps(nodes, NodeKey);
    SortByDistinct(nodes, NodeKey);
    forall i, j | 0 <= i < j < |order|
      ensures order[i] != order[j]
    {
      assert NodeKey(order[i]) != NodeKey(order[j]);
    }
    forall u | u in c.upcasters
      ensures u.source in order && u.target in order && Index(order, u.source) < Index(order, u.target)
    {
      var i :| 0 <= i < |c.upcasters| && c.upcasters[i] == u;
      assert UpcasterOK(c, c.upcasters[i]);
      SortByMember(nodes, NodeKey, u.source);
      SortByMember(nodes, NodeKey, u.target);
      VersionsOrdered(u.source, u.target);
      SortedInOrder(order, u.source, u.target);
    }
  }

  lemma RefsAreNodes(w: World, c: Catalog)
    requires EdgesOK(w, c)
    ensures NoRepeats(Refs(c.schemas)) && forall r :: r in Refs(c.schemas) <==> Resolves(c, r)
  {
    hide EntryOK, UpcasterOK, SeparateUpcasters;
    var refs := Refs(c.schemas);
    forall i, j | 0 <= i < j < |refs|
      ensures refs[i] != refs[j]
    {
      assert SeparateEntries(c.schemas[i], c.schemas[j]);
    }
    forall r: SchemaRef
      ensures r in refs <==> Resolves(c, r)
    {
      SortByMember(refs, NodeKey, r);
      NodeInOrder(c, r);
    }
  }

  /** Version order is a topological order of the upcaster graph. */
  lemma VersionOrderIsTopological(w: World, c: Catalog)
    requires EdgesOK(w, c)
    ensures Topological(c.upcasters, OrderedNodes(c))
  {
    hide NodeKey, SortBy, EntryOK, LowerVersion, SeparateEntries, Topological;
    RefsAreNodes(w, c);
    forall u | u in c.upcasters
      ensures u.source in Refs(c.schemas) && u.target in Refs(c.schemas)
    {
      var i :| 0 <= i < |c.upcasters| && c.upcasters[i] == u;
      assert UpcasterOK(c, c.upcasters[i]);
    }
    NodesAreTopological(w, c, Refs(c.schemas));
  }

  /**
   * The path-count sweep over every source accepts a catalog exactly when no published version can be
   * upcast to another along two different routes.
   */
  lemma SweepMeansOneRoute(w: World, c: Catalog)
    requires EdgesOK(w, c)
    ensures SinglePaths(c) <==> forall r | Resolves(c, r) :: OneRouteEach(c.upcasters, r)
  {
    hide EdgesOK, Topological, OneRouteEach, Sweep, Resolves, Swept, OrderedNodes;
    var order := OrderedNodes(c);
    VersionOrderIsTopological(w, c);
    forall r: SchemaRef
      ensures Sweep(c.upcasters, order, map[r := 1]).Some? <==> OneRouteEach(c.upcasters, r)
      ensures r in order <==> Resolves(c, r)
    {
      SweptAtFirst(c.upcasters, order, r);
      assert order[0..] == order;
      SweepDecides(c.upcasters, order, r, 0, map[r := 1]);
      NodeInOrder(c, r);
    }
    if SinglePaths(c) {
      forall r | Resolves(c, r)
        ensures OneRouteEach(c.upcasters, r)
      {
        var i :| 0 <= i < |order| && order[i] == r;
      }
    }
    if forall r | Resolves(c, r) :: OneRouteEach(c.upcasters, r) {
      forall i | 0 <= i < |order|
        ensures Sweep(c.upcasters, order, map[order[i] := 1]).Some?
      {
        assert order[i] in order && Resolves(c, order[i]);
      }
    }
  }
}
