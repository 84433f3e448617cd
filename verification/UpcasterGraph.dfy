/** The upcaster graph over every run: edges raise versions, walks end, published targets keep their edges. */
module UpcasterGraph {
  import opened Ordering
  import opened Catalogs
  import opened Registry
  import opened Planning
  import opened Registrars
  import opened RegistrarRuns
  import opened PublisherChecker

  /** The edges into one published version. */
  ghost function Incoming(c: Catalog, target: SchemaRef): (us: set<Upcaster>)
  {
    set u | u in c.upcasters && u.target == target
  }

  ghost function SourcesOf(us: set<Upcaster>): (refs: set<SchemaRef>) { set u | u in us :: u.source }

  ghost function PredecessorSet(e: SchemaEntry): (refs: set<SchemaRef>) { set p | p in e.predecessors }

  /** The supported predecessors of an entry are exactly the sources of its incoming edges. */
  ghost predicate ExactEntry(c: Catalog, e: SchemaEntry)
  {
    PredecessorSet(e) == SourcesOf(Incoming(c, e.ref))
  }

  ghost predicate Exact(c: Catalog) { forall e | e in c.schemas :: ExactEntry(c, e) }

  ghost predicate DistinctRefs(c: Catalog)
  {
    forall i, j | 0 <= i < j < |c.schemas| :: c.schemas[i].ref != c.schemas[j].ref
  }

  ghost predicate Grounded(c: Catalog)
  {
    forall u | u in c.upcasters :: exists e :: e in c.schemas && e.ref == u.target
  }

  lemma CatalogIsGrounded(w: World, c: Catalog)
    requires CatalogOK(w, c)
    ensures DistinctRefs(c) && Grounded(c)
  {
  }

  // ---------------------------------------------------------------- one committed request

  /** `d` adds to `c` entries and edges; every added edge leads to an added entry, which it explains exactly. */
  ghost predicate GraphExtends(c: Catalog, d: Catalog)
  {
    && c.schemas <= d.schemas && c.upcasters <= d.upcasters
    && (forall e | e in c.schemas :: Incoming(d, e.ref) == Incoming(c, e.ref))
    && (forall i | |c.schemas| <= i < |d.schemas| :: ExactEntry(d, d.schemas[i]))
  }

  lemma OldRefsAreOther(c: Catalog, d: Catalog, e: SchemaEntry, i: nat)
    requires c.schemas <= d.schemas && DistinctRefs(d) && e in c.schemas && |c.schemas| <= i < |d.schemas|
    ensures e.ref != d.schemas[i].ref
  {
  }

  lemma NoEdgesToNew(c: Catalog, d: Catalog, i: nat)
    requires c.schemas <= d.schemas && DistinctRefs(d) && Grounded(c) && |c.schemas| <= i < |d.schemas|
    ensures Incoming(c, d.schemas[i].ref) == {}
  {
  }

  /** Single and bundle registrations add entries without predecessors and no edge. */
  lemma PlainExtends(c: Catalog, d: Catalog)
    requires Grounded(c) && DistinctRefs(d)
    requires c.schemas <= d.schemas && d.upcasters == c.upcasters
    requires forall i | |c.schemas| <= i < |d.schemas| :: d.schemas[i].predecessors == []
    ensures GraphExtends(c, d) && Grounded(d)
  {
  }

  lemma SourcesOfEdges(w: World, edges: seq<Edge>, ref: SchemaRef, d: Catalog, c: Catalog)
    requires d.upcasters == c.upcasters + Upcasters(w, SortBy(edges, EdgeKey), ref)
    requires Incoming(c, ref) == {}
    ensures forall r :: r in SourcesOf(Incoming(d, ref)) <==> r in Sources(edges)
  {
    hide SortBy, UpcasterOf;
    var sorted := SortBy(edges, EdgeKey);
    var us := Upcasters(w, sorted, ref);
    forall r: SchemaRef
      ensures r in SourcesOf(Incoming(d, ref)) <==> r in Sources(edges)
    {
      if r in Sources(edges) {
        var i :| 0 <= i < |edges| && edges[i].source == r;
        SortByMember(edges, EdgeKey, edges[i]);
        var k :| 0 <= k < |sorted| && sorted[k] == edges[i];
        UpcasterEnds(w, sorted[k], ref);
        assert us[k] in Incoming(d, ref);
      }
      if r in SourcesOf(Incoming(d, ref)) {
        var u :| u in Incoming(d, ref) && u.source == r;
        assert u !in Incoming(c, ref);
        var k :| 0 <= k < |us| && us[k] == u;
        UpcasterEnds(w, sorted[k], ref);
        SortByMember(edges, EdgeKey, sorted[k]);
        var i :| 0 <= i < |edges| && edges[i] == sorted[k];
        assert Sources(edges)[i] == r;
      }
    }
  }

  lemma UpcasterEnds(w: World, e: Edge, ref: SchemaRef)
    ensures UpcasterOf(w, e, ref).source == e.source && UpcasterOf(w, e, ref).target == ref
  {
  }

  lemma NewTargetExact(w: World, c: Catalog, target: Candidate, edges: seq<Edge>)
    requires Incoming(c, CandidateRef(w, target)) == {}
    ensures ExactEntry(EvolutionTarget(w, c, target, edges), TargetEntry(w, target, edges))
  {
    hide SortBy, Upcasters, SourcesOf, Incoming;
    var d := EvolutionTarget(w, c, target, edges);
    var e := TargetEntry(w, target, edges);
    SourcesOfEdges(w, edges, CandidateRef(w, target), d, c);
    forall r: SchemaRef
      ensures r in e.predecessors <==> r in Sources(edges)
    {
      SortByMember(Sources(edges), PredecessorKey, r);
    }
  }

  lemma EvolutionEdges(w: World, c: Catalog, target: Candidate, edges: seq<Edge>, r: SchemaRef)
    requires r != CandidateRef(w, target)
    ensures Incoming(EvolutionTarget(w, c, target, edges), r) == Incoming(c, r)
  {
  }

  lemma EvolutionExtends(w: World, c: Catalog, target: Candidate, edges: seq<Edge>)
    requires Grounded(c) && DistinctRefs(EvolutionTarget(w, c, target, edges))
    ensures GraphExtends(c, EvolutionTarget(w, c, target, edges)) && Grounded(EvolutionTarget(w, c, target, edges))
  {
    hide SortBy, Incoming, ExactEntry;
    var d := EvolutionTarget(w, c, target, edges);
    var n := |c.schemas|;
    assert d.schemas[n] == TargetEntry(w, target, edges) && d.schemas[n].ref == CandidateRef(w, target);
    NoEdgesToNew(c, d, n);
    NewTargetExact(w, c, target, edges);
    forall e | e in c.schemas
      ensures Incoming(d, e.ref) == Incoming(c, e.ref)
    {
      OldRefsAreOther(c, d, e, n);
      EvolutionEdges(w, c, target, edges, e.ref);
    }
    EvolutionGrounded(w, c, target, edges);
  }

  lemma EvolutionGrounded(w: World, c: Catalog, target: Candidate, edges: seq<Edge>)
    requires Grounded(c)
    ensures Grounded(EvolutionTarget(w, c, target, edges))
  {
  }

  lemma AfterExtends(w: World, c: Catalog, request: Request)
    requires Grounded(c) && DistinctRefs(CatalogAfter(w, c, request))
    ensures GraphExtends(c, CatalogAfter(w, c, request)) && Grounded(CatalogAfter(w, c, request))
  {
    hide Grounded, DistinctRefs, GraphExtends, SortBy, Fresh;
    match request
    case Single(x) => PlainExtends(c, CatalogAfter(w, c, request));
    case Bundle(xs) => PlainExtends(c, CatalogAfter(w, c, request));
    case Evolution(target, edges) => EvolutionExtends(w, c, target, edges);
  }

  // ---------------------------------------------------------------- every run

  lemma GraphExtendsTransitive(c: Catalog, d: Catalog, f: Catalog)
    requires GraphExtends(c, d) && GraphExtends(d, f)
    ensures GraphExtends(c, f)
  {
  }

  lemma PrefixDistinct(c: Catalog, d: Catalog)
    requires c.schemas <= d.schemas && DistinctRefs(d)
    ensures DistinctRefs(c)
  {
  }

  lemma {:induction false} SerialExtends(w: World, c: Catalog, log: seq<Request>)
    requires Grounded(c) && DistinctRefs(Serial(w, c, log))
    ensures GraphExtends(c, Serial(w, c, log)) && Grounded(Serial(w, c, log))
  {
    if log == [] {
      GraphExtendsSelf(c);
    } else {
      hide Grounded, DistinctRefs, GraphExtends, CatalogAfter;
      var d := Serial(w, c, log[..|log| - 1]);
      AfterGrows(w, d, log[|log| - 1]);
      PrefixDistinct(d, Serial(w, c, log));
      SerialExtends(w, c, log[..|log| - 1]);
      AfterExtends(w, d, log[|log| - 1]);
      GraphExtendsTransitive(c, d, Serial(w, c, log));
    }
  }

  lemma GraphExtendsSelf(c: Catalog)
    ensures GraphExtends(c, c)
  {
  }

  lemma SameEdgesSameExact(c: Catalog, d: Catalog, e: SchemaEntry)
    requires Incoming(d, e.ref) == Incoming(c, e.ref)
    ensures ExactEntry(d, e) == ExactEntry(c, e)
  {
    hide Incoming, SourcesOf, PredecessorSet;
  }

  lemma ExactTransfers(c: Catalog, d: Catalog)
    requires GraphExtends(c, d)
    ensures Exact(d) <==> Exact(c)
  {
    hide Incoming, ExactEntry;
    var n := |c.schemas|;
    forall i | 0 <= i < n
      ensures d.schemas[i] == c.schemas[i] && d.schemas[i] in d.schemas && c.schemas[i] in c.schemas
      ensures ExactEntry(d, d.schemas[i]) == ExactEntry(c, c.schemas[i])
    {
      SameEdgesSameExact(c, d, c.schemas[i]);
    }
    if Exact(c) {
      forall e | e in d.schemas
        ensures ExactEntry(d, e)
      {
        var i :| 0 <= i < |d.schemas| && d.schemas[i] == e;
      }
    }
    if Exact(d) {
      forall e | e in c.schemas
        ensures ExactEntry(c, e)
      {
        var i :| 0 <= i < n && c.schemas[i] == e;
        assert ExactEntry(d, d.schemas[i]);
      }
    }
  }

  /**
   * From any reachable system with the lock free to any later one: no edge is added to a target
   * already published, every version published since has exactly its edges' sources as predecessors,
   * and so predecessors and incoming edges agree for the whole later catalog exactly when they did
   * for the earlier one.
   */
  lemma PublishedTargetsKeepTheirEdges(w: World, c: Catalog, s: System, actions: seq<Action>)
    requires CollisionFree(w) && SystemOK(w, c, s) && s.holder.None? && AdmissibleActions(w, s, actions)
    ensures var t := Steps(w, s, actions);
            && GraphExtends(s.disk.catalog, t.disk.catalog)
            && (Exact(t.disk.catalog) <==> Exact(s.disk.catalog))
  {
    hide CollisionFree, SystemOK, AdmissibleActions, Steps, Serial, Grounded, DistinctRefs, GraphExtends, RegistryOK,
         Exact;
    var t := Steps(w, s, actions);
    CommitsAreFinal(w, c, s, actions);
    SystemSteps(w, c, s, actions);
    SystemParts(w, c, s);
    SystemParts(w, c, t);
    Extends(w, c, s, t);
    RegistryCatalog(w, s.disk);
    RegistryCatalog(w, t.disk);
    CatalogIsGrounded(w, s.disk.catalog);
    CatalogIsGrounded(w, t.disk.catalog);
    SerialExtends(w, s.disk.catalog, t.log[|s.log|..]);
    ExactTransfers(s.disk.catalog, t.disk.catalog);
  }

  /** A catalog whose entries declare no predecessors and that has no upcasters is where exactness starts. */
  lemma PlainCatalogIsExact(c: Catalog)
    requires c.upcasters == [] && forall e | e in c.schemas :: e.predecessors == []
    ensures Exact(c)
  {
  }

  // ---------------------------------------------------------------- walks

  /** A walk: each edge starts where the previous one ended. */
  ghost predicate Walk(c: Catalog, walk: seq<Upcaster>)
  {
    && (forall i | 0 <= i < |walk| :: walk[i] in c.upcasters)
    && (forall i | 0 <= i < |walk| - 1 :: walk[i].target == walk[i + 1].source)
  }

  lemma EdgeRaises(w: World, c: Catalog, u: Upcaster)
    requires CatalogOK(w, c) && u in c.upcasters
    ensures u.source.schemaId == u.target.schemaId && LowerVersion(u.source, u.target)
    ensures Resolves(c, u.source) && Resolves(c, u.target)
  {
  }

  lemma LowerTransitive(a: SchemaRef, b: SchemaRef, c: SchemaRef)
    requires LowerVersion(a, b) && LowerVersion(b, c)
    ensures LowerVersion(a, c)
  {
  }

  lemma {:induction false} WalkRaises(w: World, c: Catalog, walk: seq<Upcaster>, i: nat, j: nat)
    requires CatalogOK(w, c) && Walk(c, walk) && i <= j < |walk|
    ensures walk[i].source.schemaId == walk[j].target.schemaId && LowerVersion(walk[i].source, walk[j].target)
    decreases j - i
  {
    hide CatalogOK, LowerVersion;
    EdgeRaises(w, c, walk[i]);
    if i < j {
      WalkRaises(w, c, walk, i + 1, j);
      LowerTransitive(walk[i].source, walk[i + 1].source, walk[j].target);
    }
  }

  lemma WalkSourcesDiffer(w: World, c: Catalog, walk: seq<Upcaster>, i: nat, j: nat)
    requires CatalogOK(w, c) && Walk(c, walk) && i < j < |walk|
    ensures walk[i].source != walk[j].source
  {
    hide CatalogOK;
    WalkRaises(w, c, walk, i, j - 1);
  }

  ghost function RefSet(c: Catalog): (refs: set<SchemaRef>) { set e | e in c.schemas :: e.ref }

  lemma {:induction false} RefSetSize(schemas: seq<SchemaEntry>)
    ensures |RefSet(Catalog(schemas, []))| <= |schemas|
  {
    if schemas != [] {
      var n := |schemas| - 1;
      RefSetSize(schemas[..n]);
      assert schemas == schemas[..n] + [schemas[n]];
      assert RefSet(Catalog(schemas, [])) == RefSet(Catalog(schemas[..n], [])) + {schemas[n].ref};
    }
  }

  lemma {:induction false} DistinctSourcesSize(walk: seq<Upcaster>)
    requires forall i, j | 0 <= i < j < |walk| :: walk[i].source != walk[j].source
    ensures |set u | u in walk :: u.source| == |walk|
  {
    if walk != [] {
      var n := |walk| - 1;
      var init := walk[..n];
      DistinctSourcesSize(init);
      assert walk == init + [walk[n]];
      assert (set u | u in walk :: u.source) == (set u | u in init :: u.source) + {walk[n].source};
      assert walk[n].source !in (set u | u in init :: u.source);
    }
  }

  lemma SubsetSize<T>(a: set<T>, b: set<T>)
    requires a <= b
    ensures |a| <= |b|
  {
    assert b == a + (b - a);
  }

  /** Every upcast walk is shorter than the number of published versions, so following edges always ends. */
  lemma WalksAreShort(w: World, c: Catalog, walk: seq<Upcaster>)
    requires CatalogOK(w, c) && Walk(c, walk) && walk != []
    ensures |walk| < |c.schemas|
  {
    hide CatalogOK;
    var n := |walk|;
    var sources := set u | u in walk :: u.source;
    var last := walk[n - 1].target;
    forall i, j | 0 <= i < j < n
      ensures walk[i].source != walk[j].source
    {
      WalkSourcesDiffer(w, c, walk, i, j);
    }
    DistinctSourcesSize(walk);
    WalkRefs(w, c, walk);
    hide RefSet, Walk;
    assert last !in sources;
    RefSetSize(c.schemas);
    SubsetSize(sources + {last}, RefSet(c));
  }

  lemma WalkRefs(w: World, c: Catalog, walk: seq<Upcaster>)
    requires CatalogOK(w, c) && Walk(c, walk) && walk != []
    ensures walk[|walk| - 1].target in RefSet(c)
    ensures forall u | u in walk :: u.source != walk[|walk| - 1].target && u.source in RefSet(c)
    ensures RefSet(c) == RefSet(Catalog(c.schemas, []))
  {
    hide CatalogOK;
    var n := |walk|;
    forall u | u in walk
      ensures u.source != walk[n - 1].target && u.source in RefSet(c)
    {
      var i :| 0 <= i < n && walk[i] == u;
      WalkRaises(w, c, walk, i, n - 1);
      EdgeRaises(w, c, walk[i]);
    }
    EdgeRaises(w, c, walk[n - 1]);
  }

  /** In every reachable tree, at any moment, all of this holds of the catalog on disk. */
  lemma ReachableWalksAreShort(w: World, s: System, actions: seq<Action>, walk: seq<Upcaster>)
    requires CollisionFree(w) && Initial(w, s) && AdmissibleActions(w, s, actions)
    requires Walk(Steps(w, s, actions).disk.catalog, walk) && walk != []
    ensures var c := Steps(w, s, actions).disk.catalog;
            && |walk| < |c.schemas|
            && walk[0].source.schemaId == walk[|walk| - 1].target.schemaId
            && LowerVersion(walk[0].source, walk[|walk| - 1].target)
  {
    hide CollisionFree, Initial, AdmissibleActions, Steps, RegistryOK, CatalogOK;
    EveryInterleavingIsSerial(w, s, actions);
    var c := Steps(w, s, actions).disk.catalog;
    RegistryCatalog(w, Steps(w, s, actions).disk);
    WalksAreShort(w, c, walk);
    WalkRaises(w, c, walk, 0, |walk| - 1);
  }
}
