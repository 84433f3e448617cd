/** Finding the upcast route between two versions: `resolve_path`. */
module RouteSearch {
  import opened Text
  import opened Catalogs
  import opened Registry
  import opened UpcasterGraph
  import opened Routes
  import opened Registrars
  import opened RegistrarRuns
  import opened PublisherChecker

  datatype Resolution = Unregistered | NoRoute | Found(route: seq<Upcaster>)

  datatype Visit = Visit(node: SchemaRef, route: seq<Upcaster>)

  /** `_outgoing.get(node, ())`. */
  function OutEdges(us: seq<Upcaster>, node: SchemaRef): (edges: seq<Upcaster>)
  {
    if us == [] then []
    else (if us[0].source == node then [us[0]] else []) + OutEdges(us[1..], node)
  }

  lemma {:induction false} OutEdgeMember(us: seq<Upcaster>, node: SchemaRef, u: Upcaster)
    ensures u in OutEdges(us, node) <==> u in us && u.source == node
  {
    if us != [] {
      OutEdgeMember(us[1..], node, u);
      assert us == [us[0]] + us[1..];
    }
  }

  ghost function Nodes(us: seq<Upcaster>, source: SchemaRef): (nodes: set<SchemaRef>)
  {
    {source} + set u | u in us :: u.target
  }

  ghost predicate Waiting(queue: seq<Visit>, node: SchemaRef) { exists i :: 0 <= i < |queue| && queue[i].node == node }

  ghost predicate Expanded(us: seq<Upcaster>, visited: set<SchemaRef>, node: SchemaRef)
  {
    forall u | u in us && u.source == node :: u.target in visited
  }

  ghost predicate QueueOK(us: seq<Upcaster>, source: SchemaRef, queue: seq<Visit>, visited: set<SchemaRef>)
  {
    forall i | 0 <= i < |queue| :: queue[i].node in visited && Route(us, source, queue[i].route, queue[i].node)
  }

  /** Everything reachable stays inside a visited set that is closed under edges. */
  lemma {:induction false} ClosedContainsRoutes(us: seq<Upcaster>, source: SchemaRef, visited: set<SchemaRef>,
      route: seq<Upcaster>, end: SchemaRef)
    requires source in visited && (forall v | v in visited :: Expanded(us, visited, v)) && Route(us, source, route, end)
    ensures end in visited
    decreases |route|
  {
    if route != [] {
      var last := route[|route| - 1];
      ClosedContainsRoutes(us, source, visited, route[..|route| - 1], last.source);
      assert Expanded(us, visited, last.source);
    }
  }

  lemma NoRouteOutside(us: seq<Upcaster>, source: SchemaRef, visited: set<SchemaRef>, route: seq<Upcaster>,
      end: SchemaRef)
    requires source in visited && (forall v | v in visited :: Expanded(us, visited, v)) && end !in visited
    ensures !Route(us, source, route, end)
  {
    hide Route, Expanded;
    if Route(us, source, route, end) {
      ClosedContainsRoutes(us, source, visited, route, end);
    }
  }

  lemma MoreVisited(us: seq<Upcaster>, visited: set<SchemaRef>, t: SchemaRef, node: SchemaRef)
    requires Expanded(us, visited, node)
    ensures Expanded(us, visited + {t}, node)
  {
  }

  /** The search state between two expansions. */
  ghost predicate Searching(us: seq<Upcaster>, source: SchemaRef, target: SchemaRef, queue: seq<Visit>,
      visited: set<SchemaRef>)
  {
    && source in visited && target !in visited && visited <= Nodes(us, source)
    && QueueOK(us, source, queue, visited)
  }

  /** The same while `node` is being expanded. */
  ghost predicate Expanding(us: seq<Upcaster>, source: SchemaRef, target: SchemaRef, node: SchemaRef,
      queue: seq<Visit>, visited: set<SchemaRef>)
  {
    && Searching(us, source, target, queue, visited)
    && forall v | v in visited :: Waiting(queue, v) || v == node || Expanded(us, visited, v)
  }

  lemma Enqueue(us: seq<Upcaster>, source: SchemaRef, target: SchemaRef, visit: Visit, queue: seq<Visit>,
      visited: set<SchemaRef>, edge: Upcaster)
    requires Expanding(us, source, target, visit.node, queue, visited)
    requires edge in us && edge.source == visit.node && Route(us, source, visit.route, visit.node)
    requires edge.target != target && edge.target !in visited
    ensures Expanding(us, source, target, visit.node, queue + [Visit(edge.target, visit.route + [edge])],
                      visited + {edge.target})
    ensures |Nodes(us, source) - (visited + {edge.target})| < |Nodes(us, source) - visited|
  {
    hide Route, Waiting, Expanded, Nodes, Searching;
    RouteExtends(us, source, visit.route, edge);
    SearchingMore(us, source, target, queue, visited, Visit(edge.target, visit.route + [edge]), edge);
    WaitingMore(us, queue, visited, visit.node, Visit(edge.target, visit.route + [edge]));
  }

  lemma SearchingMore(us: seq<Upcaster>, source: SchemaRef, target: SchemaRef, queue: seq<Visit>,
      visited: set<SchemaRef>, more: Visit, edge: Upcaster)
    requires Searching(us, source, target, queue, visited) && Route(us, source, more.route, more.node)
    requires edge in us && more.node == edge.target != target && more.node !in visited
    ensures Searching(us, source, target, queue + [more], visited + {more.node})
    ensures |Nodes(us, source) - (visited + {more.node})| < |Nodes(us, source) - visited|
  {
  }

  lemma ExpandedNow(us: seq<Upcaster>, source: SchemaRef, target: SchemaRef, node: SchemaRef, queue: seq<Visit>,
      visited: set<SchemaRef>)
    requires Expanding(us, source, target, node, queue, visited)
    requires forall u | u in OutEdges(us, node) :: u.target in visited
    ensures Searching(us, source, target, queue, visited)
    ensures forall v | v in visited :: Waiting(queue, v) || Expanded(us, visited, v)
  {
    hide Searching, Waiting;
    forall u | u in us && u.source == node
      ensures u.target in visited
    {
      OutEdgeMember(us, node, u);
    }
  }

  /** The inner loop over one node's edges: the route if the target is met. */
  method Expand(us: seq<Upcaster>, source: SchemaRef, target: SchemaRef, visit: Visit, queue0: seq<Visit>,
      visited0: set<SchemaRef>)
    returns (found: Option<seq<Upcaster>>, queue: seq<Visit>, visited: set<SchemaRef>)
    requires Expanding(us, source, target, visit.node, queue0, visited0) && Route(us, source, visit.route, visit.node)
    ensures found.Some? ==> Route(us, source, found.value, target)
    ensures found.None? ==>
              && Searching(us, source, target, queue, visited)
              && (forall v | v in visited :: Waiting(queue, v) || Expanded(us, visited, v))
              && (if visited == visited0 then queue == queue0
                  else |Nodes(us, source) - visited| < |Nodes(us, source) - visited0|)
  {
    hide Route, Expanding, Searching, Waiting, Expanded, Nodes, OutEdges;
    var edges := OutEdges(us, visit.node);
    queue, visited, found := queue0, visited0, None;
    for j := 0 to |edges|
      invariant Expanding(us, source, target, visit.node, queue, visited)
      invariant forall k | 0 <= k < j :: edges[k].target in visited
      invariant if visited == visited0 then queue == queue0
                else |Nodes(us, source) - visited| < |Nodes(us, source) - visited0|
    {
      var edge := edges[j];
      OutEdgeMember(us, visit.node, edge);
      var candidate := visit.route + [edge];
      if edge.target == target {
        RouteExtends(us, source, visit.route, edge);
        return Some(candidate), queue, visited;
      }
      if edge.target !in visited {
        Enqueue(us, source, target, visit, queue, visited, edge);
        visited := visited + {edge.target};
        queue := queue + [Visit(edge.target, candidate)];
      }
    }
    ExpandedNow(us, source, target, visit.node, queue, visited);
  }

  lemma WaitingMore(us: seq<Upcaster>, queue: seq<Visit>, visited: set<SchemaRef>, node: SchemaRef, more: Visit)
    requires forall v | v in visited :: Waiting(queue, v) || v == node || Expanded(us, visited, v)
    ensures forall v | v in visited + {more.node} ::
              Waiting(queue + [more], v) || v == node || Expanded(us, visited + {more.node}, v)
  {
    forall v | v in visited + {more.node}
      ensures Waiting(queue + [more], v) || v == node || Expanded(us, visited + {more.node}, v)
    {
      if v == more.node {
        assert (queue + [more])[|queue|].node == v;
      } else if Waiting(queue, v) {
        var i :| 0 <= i < |queue| && queue[i].node == v;
        assert (queue + [more])[i].node == v;
      } else if v != node {
        MoreVisited(us, visited, more.node, v);
      }
    }
  }

  lemma PopKeeps(us: seq<Upcaster>, queue: seq<Visit>, visited: set<SchemaRef>)
    requires queue != [] && forall v | v in visited :: Waiting(queue, v) || Expanded(us, visited, v)
    ensures forall v | v in visited :: Waiting(queue[1..], v) || v == queue[0].node || Expanded(us, visited, v)
  {
  }

  /**
   * `resolve_path`: a route whenever there is one, and only then; in a catalog the registry accepts
   * it is the only route there is.
   */
  method ResolvePath(c: Catalog, source: SchemaRef, target: SchemaRef) returns (r: Resolution)
    ensures r.Unregistered? <==> !Resolves(c, source) || !Resolves(c, target)
    ensures r.Found? ==> Route(c.upcasters, source, r.route, target)
    ensures r.NoRoute? ==> forall route :: !Route(c.upcasters, source, route, target)
    ensures r.Found? && OneRouteEach(c.upcasters, source) ==>
              forall route :: Route(c.upcasters, source, route, target) ==> route == r.route
  {
    hide Resolves;
    if !Resolves(c, source) || !Resolves(c, target) {
      return Unregistered;
    }
    if source == target {
      return Found([]);
    }
    var us := c.upcasters;
    var queue := [Visit(source, [])];
    var visited := {source};
    assert queue[0].node == source;
    while queue != []
      invariant Searching(us, source, target, queue, visited)
      invariant forall v | v in visited :: Waiting(queue, v) || Expanded(us, visited, v)
      decreases |Nodes(us, source) - visited|, |queue|
    {
      hide Route;
      PopKeeps(us, queue, visited);
      var visit := queue[0];
      var found;
      ghost var before := visited;
      found, queue, visited := Expand(us, source, target, visit, queue[1..], visited);
      if found.Some? {
        return Found(found.value);
      }
    }
    assert forall v | v in visited :: !Waiting(queue, v);
    forall route
      ensures !Route(us, source, route, target)
    {
      NoRouteOutside(us, source, visited, route, target);
    }
    return NoRoute;
  }

  lemma CatalogHasOneRoute(w: World, c: Catalog, r: SchemaRef)
    requires CatalogOK(w, c)
    ensures OneRouteEach(c.upcasters, r)
  {
    hide EntryOK, SeparateEntries, UpcasterOK, SeparateUpcasters, SinglePaths, OneRouteEach, Resolves;
    assert EdgesOK(w, c);
    SweepMeansOneRoute(w, c);
    if !Resolves(c, r) {
      UnregisteredHasOneRoute(w, c, r);
    }
  }

  lemma UnregisteredHasOneRoute(w: World, c: Catalog, r: SchemaRef)
    requires CatalogOK(w, c) && !Resolves(c, r)
    ensures OneRouteEach(c.upcasters, r)
  {
    forall route, end | Route(c.upcasters, r, route, end)
      ensures route == []
    {
      StartsRegistered(w, c, r, route, end);
    }
  }

  lemma {:induction false} StartsRegistered(w: World, c: Catalog, r: SchemaRef, route: seq<Upcaster>, end: SchemaRef)
    requires CatalogOK(w, c) && Route(c.upcasters, r, route, end)
    ensures route == [] || Resolves(c, r)
    decreases |route|
  {
    hide CatalogOK;
    if route != [] {
      var last := route[|route| - 1];
      EdgeRaises(w, c, last);
      StartsRegistered(w, c, r, route[..|route| - 1], last.source);
    }
  }

  /** In every reachable tree there is at most one upcast route between any two versions. */
  lemma ReachableCatalogsHaveOneRoute(w: World, s: System, actions: seq<Action>, r: SchemaRef)
    requires CollisionFree(w) && Initial(w, s) && AdmissibleActions(w, s, actions)
    ensures OneRouteEach(Steps(w, s, actions).disk.catalog.upcasters, r)
  {
    hide CollisionFree, Initial, AdmissibleActions, Steps, RegistryOK, OneRouteEach;
    EveryInterleavingIsSerial(w, s, actions);
    RegistryCatalog(w, Steps(w, s, actions).disk);
    CatalogHasOneRoute(w, Steps(w, s, actions).disk.catalog, r);
  }
}
