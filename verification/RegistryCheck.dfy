/** The loops of `SchemaRegistry.__init__`, proved to accept exactly the trees the registry predicate describes. */
module RegistryCheck {
  import opened Text
  import opened Ordering
  import opened Versions
  import opened Catalogs
  import opened Registry
  import opened Routes

  // ---------------------------------------------------------------- schema entries

  /** One entry's file is there with the pinned digest, and its artifact id follows from the digest. */
  predicate EntryLoads(w: World, files: Files, e: SchemaEntry)
  {
    && e.artifactPath in files && w.sha(files[e.artifactPath]) == e.ref.sha256
    && e.ref.artifactId == w.artifactId(e.ref.sha256)
  }

  ghost predicate AllSeparate(schemas: seq<SchemaEntry>)
  {
    forall i, j | 0 <= i < j < |schemas| :: SeparateEntries(schemas[i], schemas[j])
  }

  /** The five indexes over the entries read so far. */
  datatype Indexes = Indexes(
    keys: map<(string, string), SchemaEntry>, artifactIds: set<string>, digests: set<Digest>,
    documentIds: set<string>, paths: set<Path>)

  ghost predicate Indexed(x: Indexes, schemas: seq<SchemaEntry>)
  {
    && (forall e | e in schemas :: RefKey(e.ref) in x.keys && x.keys[RefKey(e.ref)] == e)
    && (forall k | k in x.keys :: x.keys[k] in schemas && RefKey(x.keys[k].ref) == k)
    && x.artifactIds == (set e | e in schemas :: e.ref.artifactId)
    && x.digests == (set e | e in schemas :: e.ref.sha256)
    && x.documentIds == (set e | e in schemas :: e.documentId)
    && x.paths == (set e | e in schemas :: e.artifactPath)
  }

  /** An entry that collides with none of the indexes is separate from all entries before it. */
  lemma SeparateMore(x: Indexes, schemas: seq<SchemaEntry>, e: SchemaEntry)
    requires Indexed(x, schemas) && AllSeparate(schemas)
    ensures AllSeparate(schemas + [e]) <==>
              && RefKey(e.ref) !in x.keys && e.ref.artifactId !in x.artifactIds && e.ref.sha256 !in x.digests
              && e.documentId !in x.documentIds && e.artifactPath !in x.paths
  {
    hide RefKey;
    var more, n := schemas + [e], |schemas|;
    assert more[n] == e && forall i | 0 <= i < n :: more[i] == schemas[i] && schemas[i] in schemas;
    if AllSeparate(more) {
      forall y | y in schemas
        ensures SeparateEntries(y, e)
      {
        var i :| 0 <= i < n && schemas[i] == y;
        assert SeparateEntries(more[i], more[n]);
      }
    }
  }

  lemma IndexedMore(x: Indexes, schemas: seq<SchemaEntry>, e: SchemaEntry)
    requires Indexed(x, schemas) && RefKey(e.ref) !in x.keys
    ensures Indexed(Indexes(x.keys[RefKey(e.ref) := e], x.artifactIds + {e.ref.artifactId}, x.digests + {e.ref.sha256},
                            x.documentIds + {e.documentId}, x.paths + {e.artifactPath}), schemas + [e])
  {
    assert forall y :: y in schemas + [e] <==> y in schemas || y == e;
  }

  lemma SeparatePrefix(schemas: seq<SchemaEntry>, i: nat)
    requires i <= |schemas| && AllSeparate(schemas)
    ensures AllSeparate(schemas[..i])
  {
  }

  /** The first loop of `_load_catalog_entries`. */
  method LoadEntries(w: World, schemas: seq<SchemaEntry>, files: Files) returns (ok: bool, x: Indexes)
    ensures ok <==> AllSeparate(schemas) && forall e | e in schemas :: EntryLoads(w, files, e)
    ensures ok ==> Indexed(x, schemas)
  {
    hide AllSeparate, Indexed, EntryLoads;
    x := Indexes(map[], {}, {}, {}, {});
    NothingIndexed(x);
    for i := 0 to |schemas|
      invariant AllSeparate(schemas[..i]) && Indexed(x, schemas[..i])
      invariant forall e | e in schemas[..i] :: EntryLoads(w, files, e)
    {
      var e := schemas[i];
      assert schemas[..i + 1] == schemas[..i] + [e] && e in schemas;
      SeparateMore(x, schemas[..i], e);
      LoadMeans(w, files, e);
      if AllSeparate(schemas) { SeparatePrefix(schemas, i + 1); }
      var key := RefKey(e.ref);
      if key in x.keys { return false, x; }
      if e.artifactPath !in files { return false, x; }
      var digest := w.sha(files[e.artifactPath]);
      if digest != e.ref.sha256 { return false, x; }
      if e.ref.artifactId != w.artifactId(digest) { return false, x; }
      if e.ref.artifactId in x.artifactIds || e.ref.sha256 in x.digests { return false, x; }
      if e.documentId in x.documentIds || e.artifactPath in x.paths { return false, x; }
      IndexedMore(x, schemas[..i], e);
      x := Indexes(x.keys[key := e], x.artifactIds + {e.ref.artifactId}, x.digests + {e.ref.sha256},
                   x.documentIds + {e.documentId}, x.paths + {e.artifactPath});
    }
    assert schemas[..|schemas|] == schemas;
    ok := true;
  }

  lemma LoadMeans(w: World, files: Files, e: SchemaEntry)
    ensures EntryLoads(w, files, e) <==>
              && e.artifactPath in files && w.sha(files[e.artifactPath]) == e.ref.sha256
              && e.ref.artifactId == w.artifactId(e.ref.sha256)
  {
  }

  lemma NothingIndexed(x: Indexes)
    requires x == Indexes(map[], {}, {}, {}, {})
    ensures Indexed(x, []) && AllSeparate([])
  {
  }

  /** `resolve_exact`. */
  predicate Found(x: Indexes, r: SchemaRef) { RefKey(r) in x.keys && x.keys[RefKey(r)].ref == r }

  lemma FoundMeans(x: Indexes, c: Catalog, r: SchemaRef)
    requires Indexed(x, c.schemas)
    ensures Found(x, r) <==> Resolves(c, r)
  {
  }

  // ---------------------------------------------------------------- the closure scan

  /** Every file the scan looks at is in a version directory and catalogued or pending, and every entry is scanned. */
  ghost predicate Closed(d: Disk, pending: set<Path>)
  {
    && (forall p | p in d.files && IsScanned(p) ::
          InVersionDirectory(p) && (p in SchemaPaths(d.catalog) || p in pending))
    && (forall p | p in SchemaPaths(d.catalog) :: p in d.files && IsScanned(p))
  }

  lemma ScannedMeans(p: Path)
    ensures IsScanned(p) <==> EndsWith(p, ".schema.json") && p != "schema-catalog.schema.json"
  {
  }

  /** The scan of the tree; `tree` lists its files. */
  method ScanTree(d: Disk, tree: seq<Path>, cataloged: set<Path>, pending: set<Path>) returns (ok: bool)
    requires forall p :: p in tree <==> p in d.files
    requires cataloged == SchemaPaths(d.catalog)
    ensures ok <==> Closed(d, pending)
  {
    hide IsScanned, InVersionDirectory, SchemaPaths;
    var discovered: set<Path> := {};
    for i := 0 to |tree|
      invariant forall p :: p in discovered <==> p in tree[..i] && IsScanned(p)
      invariant forall p | p in discovered :: InVersionDirectory(p)
    {
      var p := tree[i];
      assert tree[..i + 1] == tree[..i] + [p] && p in tree;
      ScannedMeans(p);
      if EndsWith(p, ".schema.json") && p != "schema-catalog.schema.json" {
        if !InVersionDirectory(p) { return false; }
        discovered := discovered + {p};
      }
    }
    assert tree[..|tree|] == tree;
    var uncataloged := discovered - cataloged - pending;
    var nonexistent := cataloged - discovered;
    assert uncataloged == {} <==> forall p | p in d.files && IsScanned(p) :: p in cataloged || p in pending by {
      assert forall p :: p in uncataloged <==> p in d.files && IsScanned(p) && p !in cataloged && p !in pending;
    }
    assert nonexistent == {} <==> forall p | p in cataloged :: p in d.files && IsScanned(p) by {
      assert forall p :: p in nonexistent <==> p in cataloged && !(p in d.files && IsScanned(p));
    }
    return uncataloged == {} && nonexistent == {};
  }

  /** `_pending_publication_artifacts`: None where it raises. */
  method PendingArtifacts(w: World, d: Disk) returns (r: Option<set<Path>>)
    ensures r.Some? <==> MarkerOK(w, d)
    ensures r.Some? ==> r.value == Pending(w, d)
  {
    if d.marker.None? {
      return Some({});
    }
    var m := d.marker.value;
    var digest := CatalogDigest(w, d.catalog);
    if !MarkerShape(m) || (digest != m.originalSha && digest != m.newSha) {
      return None;
    }
    var pins := MarkerPins(m);
    hide MarkerPins, CatalogDigest, MarkerShape;
    var pending: set<Path> := {};
    for i := 0 to |pins|
      invariant forall k | 0 <= k < i ::
                  if pins[k].path in d.files then w.sha(d.files[pins[k].path]) == pins[k].sha else digest != m.newSha
      invariant digest == m.originalSha ==> forall p :: p in pending <==> p in PathsOf(pins[..i]) && p in d.files
      invariant digest != m.originalSha ==> pending == {}
    {
      var p := pins[i];
      assert pins[..i + 1] == pins[..i] + [p] && p in pins;
      PathsOfAppend(pins[..i], [p]);
      assert PathsOf([p]) == {p.path};
      if p.path !in d.files {
        if digest == m.newSha { return None; }
        continue;
      }
      if w.sha(d.files[p.path]) != p.sha { return None; }
      if digest == m.originalSha {
        pending := pending + {p.path};
      }
    }
    assert pins[..|pins|] == pins;
    return Some(pending);
  }

  // ---------------------------------------------------------------- predecessors and upcasters

  /** What the metadata loop asks of one entry. */
  ghost predicate PredecessorsOK(c: Catalog, e: SchemaEntry)
  {
    && (e.mode.NoCompatibility? <==> e.predecessors == [])
    && (forall i, j | 0 <= i < j < |e.predecessors| :: e.predecessors[i] != e.predecessors[j])
    && (forall p | p in e.predecessors ::
          Resolves(c, p) && p.schemaId == e.ref.schemaId && LowerVersion(p, e.ref))
  }

  method CheckPredecessors(c: Catalog, x: Indexes, e: SchemaEntry) returns (ok: bool)
    requires Indexed(x, c.schemas)
    ensures ok <==> PredecessorsOK(c, e)
  {
    hide Indexed, LowerVersion, Resolves, Found;
    if e.mode.NoCompatibility? {
      if e.predecessors != [] { return false; }
    } else if e.predecessors == [] {
      return false;
    }
    var seen: set<SchemaRef> := {};
    for i := 0 to |e.predecessors|
      invariant seen == set p | p in e.predecessors[..i]
      invariant forall k, l | 0 <= k < l < i :: e.predecessors[k] != e.predecessors[l]
    {
      var p := e.predecessors[i];
      assert e.predecessors[..i + 1] == e.predecessors[..i] + [p];
      if p in seen {
        var k :| 0 <= k < i && e.predecessors[k] == p;
        return false;
      }
      seen := seen + {p};
    }
    for i := 0 to |e.predecessors|
      invariant forall p | p in e.predecessors[..i] ::
                  Resolves(c, p) && p.schemaId == e.ref.schemaId && LowerVersion(p, e.ref)
    {
      var p := e.predecessors[i];
      assert e.predecessors[..i + 1] == e.predecessors[..i] + [p] && p in e.predecessors;
      FoundMeans(x, c, p);
      if !Found(x, p) { return false; }
      if p.schemaId != e.ref.schemaId || !LowerVersion(p, e.ref) { return false; }
    }
    assert e.predecessors[..|e.predecessors|] == e.predecessors;
    return true;
  }

  /** What the upcaster loop asks of one upcaster against the catalog. */
  ghost predicate EdgeChecks(c: Catalog, u: Upcaster)
  {
    && Resolves(c, u.source)
    && u.source.schemaId == u.target.schemaId
    && LowerVersion(u.source, u.target)
    && exists e :: e in c.schemas && e.ref == u.target && u.source in e.predecessors
  }

  lemma TargetFound(x: Indexes, c: Catalog, u: Upcaster)
    requires Indexed(x, c.schemas)
    ensures (exists e :: e in c.schemas && e.ref == u.target && u.source in e.predecessors) <==>
              Found(x, u.target) && u.source in x.keys[RefKey(u.target)].predecessors
  {
    if e :| e in c.schemas && e.ref == u.target && u.source in e.predecessors {
      assert x.keys[RefKey(u.target)] == e;
    }
  }

  ghost predicate UpcastersSeparate(us: seq<Upcaster>)
  {
    forall i, j | 0 <= i < j < |us| :: SeparateUpcasters(us[i], us[j])
  }

  /** The targets an upcaster leads to from each source, and every version some upcaster touches, once. */
  ghost predicate Graph(us: seq<Upcaster>, outgoing: map<SchemaRef, seq<SchemaRef>>, nodes: seq<SchemaRef>)
  {
    && (forall r :: (if r in outgoing then outgoing[r] else []) == Outgoing(us, r))
    && NoRepeats(nodes)
    && (forall r :: r in nodes <==> exists u :: u in us && (u.source == r || u.target == r))
  }

  lemma {:induction false} OutgoingSnoc(us: seq<Upcaster>, u: Upcaster, r: SchemaRef)
    ensures Outgoing(us + [u], r) == Outgoing(us, r) + (if u.source == r then [u.target] else [])
  {
    if us == [] {
      assert us + [u] == [u] && [u][1..] == [];
    } else {
      assert (us + [u])[0] == us[0] && (us + [u])[1..] == us[1..] + [u];
      OutgoingSnoc(us[1..], u, r);
    }
  }

  function Touched(nodes: seq<SchemaRef>, r: SchemaRef): seq<SchemaRef> { if r in nodes then nodes else nodes + [r] }

  lemma TouchedOnce(nodes: seq<SchemaRef>, r: SchemaRef)
    requires NoRepeats(nodes)
    ensures NoRepeats(Touched(nodes, r)) && forall x :: x in Touched(nodes, r) <==> x in nodes || x == r
  {
  }

  lemma GraphMore(us: seq<Upcaster>, outgoing: map<SchemaRef, seq<SchemaRef>>, nodes: seq<SchemaRef>, u: Upcaster)
    requires Graph(us, outgoing, nodes)
    ensures Graph(us + [u],
                  outgoing[u.source := (if u.source in outgoing then outgoing[u.source] else []) + [u.target]],
                  Touched(Touched(nodes, u.source), u.target))
  {
    hide Outgoing, NoRepeats, Touched;
    TouchedOnce(nodes, u.source);
    TouchedOnce(Touched(nodes, u.source), u.target);
    assert forall x :: x in us + [u] <==> x in us || x == u;
    forall r: SchemaRef
      ensures Outgoing(us + [u], r) == Outgoing(us, r) + (if u.source == r then [u.target] else [])
    {
      OutgoingSnoc(us, u, r);
    }
  }

  lemma SeparateMoreUpcasters(us: seq<Upcaster>, u: Upcaster, ids: set<string>, edges: set<(SchemaRef, SchemaRef)>)
    requires UpcastersSeparate(us)
    requires ids == (set v | v in us :: v.id) && edges == (set v | v in us :: (v.source, v.target))
    ensures UpcastersSeparate(us + [u]) <==> u.id !in ids && (u.source, u.target) !in edges
  {
    var more, n := us + [u], |us|;
    assert more[n] == u && forall i | 0 <= i < n :: more[i] == us[i] && us[i] in us;
    if UpcastersSeparate(more) {
      forall v | v in us
        ensures SeparateUpcasters(v, u)
      {
        var i :| 0 <= i < n && us[i] == v;
        assert SeparateUpcasters(more[i], more[n]);
      }
    }
  }

  lemma UpcastersSeparatePrefix(us: seq<Upcaster>, i: nat)
    requires i <= |us| && UpcastersSeparate(us)
    ensures UpcastersSeparate(us[..i])
  {
  }

  /** One upcaster against the catalog. */
  method CheckEdge(c: Catalog, x: Indexes, u: Upcaster) returns (ok: bool)
    requires Indexed(x, c.schemas)
    ensures ok <==> EdgeChecks(c, u)
  {
    hide Indexed, LowerVersion, Resolves, Found;
    FoundMeans(x, c, u.source);
    TargetFound(x, c, u);
    if !Found(x, u.source) || !Found(x, u.target) { return false; }
    if u.source.schemaId != u.target.schemaId { return false; }
    if !LowerVersion(u.source, u.target) { return false; }
    FoundKey(x, u.target);
    return u.source in x.keys[RefKey(u.target)].predecessors;
  }

  /** The loop over the catalog's upcasters. */
  method CheckUpcasters(c: Catalog, x: Indexes)
    returns (ok: bool, outgoing: map<SchemaRef, seq<SchemaRef>>, nodes: seq<SchemaRef>)
    requires Indexed(x, c.schemas)
    ensures ok <==> UpcastersSeparate(c.upcasters) && forall u | u in c.upcasters :: EdgeChecks(c, u)
    ensures ok ==> Graph(c.upcasters, outgoing, nodes)
  {
    hide Indexed, EdgeChecks, UpcastersSeparate, Graph, Touched;
    var us := c.upcasters;
    outgoing, nodes := map[], [];
    var ids: set<string> := {};
    var edges: set<(SchemaRef, SchemaRef)> := {};
    NoUpcasters();
    for i := 0 to |us|
      invariant UpcastersSeparate(us[..i]) && Graph(us[..i], outgoing, nodes)
      invariant ids == (set v | v in us[..i] :: v.id) && edges == (set v | v in us[..i] :: (v.source, v.target))
      invariant forall u | u in us[..i] :: EdgeChecks(c, u)
    {
      var u := us[i];
      assert us[..i + 1] == us[..i] + [u] && u in us;
      SeparateMoreUpcasters(us[..i], u, ids, edges);
      if UpcastersSeparate(us) { UpcastersSeparatePrefix(us, i + 1); }
      if u.id in ids { return false, outgoing, nodes; }
      if (u.source, u.target) in edges { return false, outgoing, nodes; }
      ids, edges := ids + {u.id}, edges + {(u.source, u.target)};
      GraphMore(us[..i], outgoing, nodes, u);
      outgoing := outgoing[u.source := (if u.source in outgoing then outgoing[u.source] else []) + [u.target]];
      nodes := Touched(Touched(nodes, u.source), u.target);
      var good := CheckEdge(c, x, u);
      if !good { return false, outgoing, nodes; }
    }
    assert us[..|us|] == us;
    ok := true;
  }

  lemma FoundKey(x: Indexes, r: SchemaRef)
    requires Found(x, r)
    ensures RefKey(r) in x.keys
  {
  }

  lemma NoUpcasters()
    ensures UpcastersSeparate([]) && Graph([], map[], [])
  {
  }

  // ---------------------------------------------------------------- the path counts

  /** The loops of the path count from one source: false where the source raises. */
  method CountFrom(us: seq<Upcaster>, outgoing: map<SchemaRef, seq<SchemaRef>>, ordered: seq<SchemaRef>,
      source: SchemaRef)
    returns (ok: bool)
    requires forall r :: (if r in outgoing then outgoing[r] else []) == Outgoing(us, r)
    ensures ok <==> Sweep(us, ordered, map[source := 1]).Some?
  {
    hide Outgoing, Sweep, Spread;
    var counts: Counts := map[source := 1];
    assert ordered[0..] == ordered;
    for k := 0 to |ordered|
      invariant Sweep(us, ordered, map[source := 1]) == Sweep(us, ordered[k..], counts)
    {
      var node := ordered[k];
      SweepNode(us, ordered[k..], counts);
      assert ordered[k..][1..] == ordered[k + 1..];
      var count := if node in counts then counts[node] else 0;
      if count == 0 { continue; }
      var targets := if node in outgoing then outgoing[node] else [];
      ghost var before := counts;
      assert targets[0..] == targets;
      for j := 0 to |targets|
        invariant Spread(before, count, targets) == Spread(counts, count, targets[j..])
      {
        var target := targets[j];
        SpreadTarget(counts, count, targets[j..]);
        assert targets[j..][1..] == targets[j + 1..];
        var sum := (if target in counts then counts[target] else 0) + count;
        counts := counts[target := if sum < 2 then sum else 2];
        if counts[target] > 1 { return false; }
      }
      SpreadNothing(counts, count, targets[|targets|..]);
    }
    SweepNothing(us, ordered[|ordered|..], counts);
    return true;
  }

  lemma SweepNode(us: seq<Upcaster>, nodes: seq<SchemaRef>, counts: Counts)
    requires nodes != []
    ensures var count := if nodes[0] in counts then counts[nodes[0]] else 0;
            Sweep(us, nodes, counts) ==
              if count == 0 then Sweep(us, nodes[1..], counts)
              else
                var spread := Spread(counts, count, Outgoing(us, nodes[0]));
                if spread.None? then None else Sweep(us, nodes[1..], spread.value)
  {
  }

  lemma SpreadTarget(counts: Counts, count: nat, targets: seq<SchemaRef>)
    requires targets != []
    ensures var sum := (if targets[0] in counts then counts[targets[0]] else 0) + count;
            Spread(counts, count, targets) ==
              if sum > 1 then None else Spread(counts[targets[0] := sum], count, targets[1..])
  {
  }

  lemma SpreadNothing(counts: Counts, count: nat, targets: seq<SchemaRef>)
    requires targets == []
    ensures Spread(counts, count, targets) == Some(counts)
  {
  }

  lemma SweepNothing(us: seq<Upcaster>, nodes: seq<SchemaRef>, counts: Counts)
    requires nodes == []
    ensures Sweep(us, nodes, counts) == Some(counts)
  {
  }

  lemma {:induction false} FirstSource(us: seq<Upcaster>, r: SchemaRef, route: seq<Upcaster>, end: SchemaRef)
    requires Route(us, r, route, end) && route != []
    ensures route[0] in us && route[0].source == r
    decreases |route|
  {
    var n := |route| - 1;
    if n > 0 {
      FirstSource(us, r, route[..n], route[n].source);
    }
  }

  lemma NoEdgeFrom(us: seq<Upcaster>, r: SchemaRef)
    requires forall u | u in us :: u.source != r
    ensures OneRouteEach(us, r)
  {
    hide Route;
    forall route, end | Route(us, r, route, end)
      ensures route == []
    {
      if route != [] {
        FirstSource(us, r, route, end);
      }
    }
  }

  /** The path count over the versions some upcaster touches, in version order. */
  method CheckPaths(us: seq<Upcaster>, outgoing: map<SchemaRef, seq<SchemaRef>>, nodes: seq<SchemaRef>)
    returns (ok: bool)
    requires Graph(us, outgoing, nodes) && Topological(us, SortBy(nodes, NodeKey))
    ensures ok <==> forall r :: OneRouteEach(us, r)
  {
    hide Outgoing, Sweep, OneRouteEach, Topological, SortBy, NoRepeats, Swept;
    var ordered := SortBy(nodes, NodeKey);
    for i := 0 to |ordered|
      invariant forall r | r in ordered[..i] :: OneRouteEach(us, r)
    {
      var source := ordered[i];
      assert ordered[..i + 1] == ordered[..i] + [source];
      SweptAtFirst(us, ordered, source);
      assert ordered[0..] == ordered;
      SweepDecides(us, ordered, source, 0, map[source := 1]);
      var one := CountFrom(us, outgoing, ordered, source);
      if !one { return false; }
    }
    assert ordered[..|ordered|] == ordered;
    forall r: SchemaRef
      ensures OneRouteEach(us, r)
    {
      SortByMember(nodes, NodeKey, r);
      if r !in nodes {
        NoEdgeFrom(us, r);
      }
    }
    return true;
  }

  // ---------------------------------------------------------------- upcaster artifacts

  ghost predicate PinsHold(w: World, files: Files, pins: seq<Pin>)
  {
    forall p | p in pins :: p.path in files && w.sha(files[p.path]) == p.sha
  }

  /** `_load_upcaster_artifacts`. */
  method LoadUpcasterArtifacts(w: World, us: seq<Upcaster>, files: Files) returns (ok: bool)
    ensures ok <==> forall u | u in us :: PinsHold(w, files, UpcasterPins(u))
  {
    hide UpcasterPins;
    for i := 0 to |us|
      invariant forall u | u in us[..i] :: PinsHold(w, files, UpcasterPins(u))
    {
      assert us[..i + 1] == us[..i] + [us[i]] && us[i] in us;
      var pins := UpcasterPins(us[i]);
      for k := 0 to |pins|
        invariant PinsHold(w, files, pins[..k])
      {
        var p := pins[k];
        assert pins[..k + 1] == pins[..k] + [p] && p in pins;
        if p.path !in files || w.sha(files[p.path]) != p.sha { return false; }
      }
      assert pins[..|pins|] == pins;
    }
    assert us[..|us|] == us;
    return true;
  }

  // ---------------------------------------------------------------- the whole construction

  /** 64 lower-case hexadecimal characters. */
  ghost predicate Sha256(d: Digest) { |d| == 64 && forall c | c in d :: '0' <= c <= '9' || 'a' <= c <= 'f' }

  lemma Sha256Means(d: Digest)
    ensures HexDigest(d) <==> Sha256(d)
  {
    if HexDigest(d) {
      forall c | c in d
        ensures '0' <= c <= '9' || 'a' <= c <= 'f'
      {
        var i :| 0 <= i < |d| && d[i] == c;
      }
    }
    if Sha256(d) {
      assert forall i | 0 <= i < |d| :: d[i] in d;
    }
  }

  /** Hyphen-separated words of lower-case letters and digits, the first beginning with a letter. */
  ghost predicate UpcasterName(id: string)
  {
    exists words: seq<string> ::
      && |words| >= 1 && Join(words, '-') == id && words[0] != "" && 'a' <= words[0][0] <= 'z'
      && forall i | 0 <= i < |words| :: words[i] != "" && forall c | c in words[i] :: 'a' <= c <= 'z' || '0' <= c <= '9'
  }

  lemma UpcasterNameMeans(id: string)
    ensures UpcasterIdOK(id) <==> UpcasterName(id)
  {
    hide Split, Join;
    var parts := Split(id, '-');
    JoinSplit(id, '-');
    if UpcasterIdOK(id) {
      forall i, c | 0 <= i < |parts| && c in parts[i]
        ensures 'a' <= c <= 'z' || '0' <= c <= '9'
      {
        var k :| 0 <= k < |parts[i]| && parts[i][k] == c;
      }
      FirstOfJoin(parts, '-');
    }
    if UpcasterName(id) {
      var words :|
        && |words| >= 1 && Join(words, '-') == id && words[0] != "" && 'a' <= words[0][0] <= 'z'
        && forall i | 0 <= i < |words| ::
             words[i] != "" && forall c | c in words[i] :: 'a' <= c <= 'z' || '0' <= c <= '9';
      forall i | 0 <= i < |words|
        ensures '-' !in words[i]
      {
      }
      SplitJoin(words, '-');
      FirstOfJoin(words, '-');
      assert forall i, k | 0 <= i < |words| && 0 <= k < |words[i]| :: words[i][k] in words[i];
    }
  }

  lemma FirstOfJoin(parts: seq<string>, sep: char)
    requires |parts| >= 1 && parts[0] != ""
    ensures Join(parts, sep) != "" && Join(parts, sep)[0] == parts[0][0]
  {
  }

  ghost predicate EntryForm(e: SchemaEntry)
  {
    VersionKey(e.ref.version).Some? && RegistryPath(e.artifactPath) && Sha256(e.ref.sha256)
  }

  ghost predicate UpcasterDocument(u: Upcaster)
  {
    && UpcasterName(u.id)
    && (forall p | p in UpcasterPins(u) :: RegistryPath(p.path) && Sha256(p.sha))
    && u.vectors != []
    && forall i, j | 0 <= i < j < |u.vectors| :: u.vectors[i] != u.vectors[j]
  }

  /** What the catalog's own schema, its models and the path check ask of the document alone. */
  ghost predicate DocumentForm(c: Catalog)
  {
    && c.schemas != []
    && (forall e | e in c.schemas :: EntryForm(e))
    && forall u | u in c.upcasters :: UpcasterDocument(u)
  }

  /** The same as the validators of the document and its models decide it. */
  predicate DocumentChecks(c: Catalog)
  {
    && c.schemas != []
    && (forall e | e in c.schemas :: VersionKey(e.ref.version).Some? && PinOK(SchemaPin(e)))
    && forall u | u in c.upcasters ::
         && UpcasterIdOK(u.id) && (forall p | p in UpcasterPins(u) :: PinOK(p)) && u.vectors != []
         && forall i, j | 0 <= i < j < |u.vectors| :: u.vectors[i] != u.vectors[j]
  }

  lemma DocumentMeans(c: Catalog)
    ensures DocumentChecks(c) <==> DocumentForm(c)
  {
    forall d: Digest
      ensures HexDigest(d) <==> Sha256(d)
    {
      Sha256Means(d);
    }
    forall id: string
      ensures UpcasterIdOK(id) <==> UpcasterName(id)
    {
      UpcasterNameMeans(id);
    }
    hide VersionKey, HexDigest, Sha256, UpcasterIdOK, UpcasterName, RegistryPath, UpcasterPins;
  }

  lemma EntryMeans(w: World, c: Catalog, e: SchemaEntry)
    ensures EntryOK(w, c, e) <==>
              && EntryForm(e) && e.ref.artifactId == w.artifactId(e.ref.sha256)
              && IsScanned(e.artifactPath) && InVersionDirectory(e.artifactPath) && PredecessorsOK(c, e)
  {
    Sha256Means(e.ref.sha256);
    hide VersionKey, RegistryPath, Sha256, HexDigest, IsScanned, InVersionDirectory, LowerVersion, Resolves;
  }

  lemma UpcasterMeans(c: Catalog, u: Upcaster)
    ensures UpcasterOK(c, u) <==> UpcasterDocument(u) && EdgeChecks(c, u)
  {
    UpcasterNameMeans(u.id);
    forall p: Pin
      ensures HexDigest(p.sha) <==> Sha256(p.sha)
    {
      Sha256Means(p.sha);
    }
    hide UpcasterIdOK, UpcasterName, RegistryPath, Sha256, HexDigest, LowerVersion, Resolves, UpcasterPins;
  }

  lemma AllPins(w: World, c: Catalog, files: Files)
    ensures Pinned(w, c, files) <==>
              && (forall e | e in c.schemas :: e.artifactPath in files && w.sha(files[e.artifactPath]) == e.ref.sha256)
              && forall u | u in c.upcasters :: PinsHold(w, files, UpcasterPins(u))
  {
    hide UpcasterPins;
    UpcasterPinMembers(w, c.upcasters, files);
    var pins := SchemaPins(c.schemas);
    assert forall i | 0 <= i < |pins| :: pins[i] == SchemaPin(c.schemas[i]);
    if Pinned(w, c, files) {
      forall e | e in c.schemas
        ensures e.artifactPath in files && w.sha(files[e.artifactPath]) == e.ref.sha256
      {
        var i :| 0 <= i < |c.schemas| && c.schemas[i] == e;
        assert pins[i] in Pins(c);
      }
      assert forall p | p in AllUpcasterPins(c.upcasters) :: p in Pins(c);
    }
    if forall e | e in c.schemas :: e.artifactPath in files && w.sha(files[e.artifactPath]) == e.ref.sha256 {
      forall p | p in pins
        ensures p.path in files && w.sha(files[p.path]) == p.sha
      {
        var i :| 0 <= i < |pins| && pins[i] == p;
        assert c.schemas[i] in c.schemas;
      }
    }
  }

  lemma {:induction false} UpcasterPinMembers(w: World, us: seq<Upcaster>, files: Files)
    ensures PinsHold(w, files, AllUpcasterPins(us)) <==> forall u | u in us :: PinsHold(w, files, UpcasterPins(u))
  {
    hide UpcasterPins;
    if us != [] {
      UpcasterPinMembers(w, us[1..], files);
      assert us == [us[0]] + us[1..];
      assert forall p :: p in AllUpcasterPins(us) <==> p in UpcasterPins(us[0]) || p in AllUpcasterPins(us[1..]);
    }
  }

  /** What the loops check before any upcaster artifact is read. */
  ghost predicate MetadataPass(w: World, d: Disk)
  {
    var c := d.catalog;
    && AllSeparate(c.schemas) && (forall e | e in c.schemas :: EntryLoads(w, d.files, e))
    && MarkerOK(w, d) && Closed(d, Pending(w, d))
    && (forall e | e in c.schemas :: PredecessorsOK(c, e))
    && UpcastersSeparate(c.upcasters) && (forall u | u in c.upcasters :: EdgeChecks(c, u))
  }

  /** What all the loops check together, apart from the path count and the documents. */
  ghost predicate LoopsPass(w: World, d: Disk)
  {
    MetadataPass(w, d) && forall u | u in d.catalog.upcasters :: PinsHold(w, d.files, UpcasterPins(u))
  }

  lemma ClosedMeans(w: World, d: Disk)
    ensures Closed(d, Pending(w, d)) && Pinned(w, d.catalog, d.files) <==>
              && SchemaClosed(w, d) && Pinned(w, d.catalog, d.files)
              && forall e | e in d.catalog.schemas :: IsScanned(e.artifactPath) && InVersionDirectory(e.artifactPath)
  {
    hide IsScanned, InVersionDirectory, Pending;
    forall p: Path
      ensures p in SchemaPaths(d.catalog) <==> exists e :: e in d.catalog.schemas && e.artifactPath == p
    {
      EntryPathMeans(d.catalog, p);
    }
    AllPins(w, d.catalog, d.files);
    hide Pinned, SchemaPaths;
  }

  lemma EntryPathMeans(c: Catalog, p: Path)
    ensures p in SchemaPaths(c) <==> exists e :: e in c.schemas && e.artifactPath == p
  {
    var pins := SchemaPins(c.schemas);
    if p in SchemaPaths(c) {
      var pin :| pin in pins && pin.path == p;
      var i :| 0 <= i < |pins| && pins[i] == pin;
      assert c.schemas[i] in c.schemas;
    }
    if e :| e in c.schemas && e.artifactPath == p {
      var i :| 0 <= i < |c.schemas| && c.schemas[i] == e;
      assert pins[i] == SchemaPin(e) && pins[i] in pins;
    }
  }

  lemma ClosedEntries(d: Disk, pending: set<Path>)
    requires Closed(d, pending)
    ensures forall e | e in d.catalog.schemas :: IsScanned(e.artifactPath) && InVersionDirectory(e.artifactPath)
  {
    hide IsScanned, InVersionDirectory;
    forall p: Path
      ensures p in SchemaPaths(d.catalog) <==> exists e :: e in d.catalog.schemas && e.artifactPath == p
    {
      EntryPathMeans(d.catalog, p);
    }
    hide SchemaPaths;
  }

  lemma EdgesMean(w: World, d: Disk)
    requires DocumentForm(d.catalog) && MetadataPass(w, d)
    ensures EdgesOK(w, d.catalog)
  {
    ClosedEntries(d, Pending(w, d));
    hide EntryOK, UpcasterOK, EntryForm, UpcasterDocument, PredecessorsOK, EdgeChecks, IsScanned, InVersionDirectory,
         SeparateEntries, SeparateUpcasters, MarkerOK, Closed;
    var c := d.catalog;
    forall i | 0 <= i < |c.schemas|
      ensures EntryOK(w, c, c.schemas[i])
    {
      assert c.schemas[i] in c.schemas;
      EntryMeans(w, c, c.schemas[i]);
    }
    forall i | 0 <= i < |c.upcasters|
      ensures UpcasterOK(c, c.upcasters[i])
    {
      assert c.upcasters[i] in c.upcasters;
      UpcasterMeans(c, c.upcasters[i]);
    }
  }

  lemma LoopParts(w: World, d: Disk)
    requires LoopsPass(w, d)
    ensures var c := d.catalog;
            && AllSeparate(c.schemas) && UpcastersSeparate(c.upcasters)
            && Pinned(w, c, d.files) && SchemaClosed(w, d) && MarkerOK(w, d)
            && (forall e | e in c.schemas ::
                  && e.ref.artifactId == w.artifactId(e.ref.sha256)
                  && IsScanned(e.artifactPath) && InVersionDirectory(e.artifactPath) && PredecessorsOK(c, e))
            && (forall u | u in c.upcasters :: EdgeChecks(c, u))
  {
    AllPins(w, d.catalog, d.files);
    ClosedMeans(w, d);
    hide AllSeparate, UpcastersSeparate, Pinned, SchemaClosed, MarkerOK, Closed, IsScanned, InVersionDirectory,
         PredecessorsOK, EdgeChecks, PinsHold, Pending;
  }

  lemma SinglePathsMean(w: World, c: Catalog)
    requires EdgesOK(w, c)
    ensures SinglePaths(c) <==> forall r :: OneRouteEach(c.upcasters, r)
  {
    hide EdgesOK, OneRouteEach, SinglePaths, Resolves;
    SweepMeansOneRoute(w, c);
    forall r: SchemaRef
      ensures !Resolves(c, r) ==> OneRouteEach(c.upcasters, r)
    {
      if !Resolves(c, r) {
        SourcesResolve(w, c);
        NoEdgeFrom(c.upcasters, r);
      }
    }
  }

  lemma SourcesResolve(w: World, c: Catalog)
    requires EdgesOK(w, c)
    ensures forall u | u in c.upcasters :: Resolves(c, u.source) && Resolves(c, u.target)
  {
    hide EntryOK, SeparateEntries, SeparateUpcasters;
    forall u | u in c.upcasters
      ensures Resolves(c, u.source) && Resolves(c, u.target)
    {
      var i :| 0 <= i < |c.upcasters| && c.upcasters[i] == u;
      assert UpcasterOK(c, c.upcasters[i]);
    }
  }

  /** The registry predicate says what document, loops, path count and document validation say. */
  lemma RegistryMeans(w: World, d: Disk)
    ensures RegistryOK(w, d) <==>
              && DocumentForm(d.catalog) && LoopsPass(w, d)
              && (forall r :: OneRouteEach(d.catalog.upcasters, r)) && Accepted(w, d.catalog, d.files)
  {
    hide OneRouteEach, Accepted;
    if RegistryOK(w, d) {
      RegistryMeansLoops(w, d);
      EdgesMean(w, d);
      SinglePathsMean(w, d.catalog);
      hide DocumentForm, LoopsPass, EdgesOK, Pinned, SchemaClosed, MarkerOK, SinglePaths;
    }
    if DocumentForm(d.catalog) && LoopsPass(w, d) {
      EdgesMean(w, d);
      LoopParts(w, d);
      SinglePathsMean(w, d.catalog);
      hide DocumentForm, LoopsPass, EntryOK, UpcasterOK, SeparateEntries, SeparateUpcasters, Pinned, SchemaClosed,
           MarkerOK, SinglePaths, AllSeparate, UpcastersSeparate, PredecessorsOK, EdgeChecks, IsScanned,
           InVersionDirectory;
    }
  }

  lemma RegistryMeansLoops(w: World, d: Disk)
    requires RegistryOK(w, d)
    ensures DocumentForm(d.catalog) && LoopsPass(w, d)
  {
    var c := d.catalog;
    hide EntryOK, UpcasterOK, SeparateEntries, SeparateUpcasters, Pinned, SchemaClosed, MarkerOK, SinglePaths, Accepted,
         EntryForm, UpcasterDocument, PredecessorsOK, EdgeChecks, IsScanned, InVersionDirectory, PinsHold, Closed,
         Pending;
    forall e | e in c.schemas
      ensures EntryForm(e) && e.ref.artifactId == w.artifactId(e.ref.sha256)
      ensures IsScanned(e.artifactPath) && InVersionDirectory(e.artifactPath) && PredecessorsOK(c, e)
    {
      var i :| 0 <= i < |c.schemas| && c.schemas[i] == e;
      assert EntryOK(w, c, c.schemas[i]);
      EntryMeans(w, c, e);
    }
    forall u | u in c.upcasters
      ensures UpcasterDocument(u) && EdgeChecks(c, u)
    {
      var i :| 0 <= i < |c.upcasters| && c.upcasters[i] == u;
      assert UpcasterOK(c, c.upcasters[i]);
      UpcasterMeans(c, u);
    }
    AllPins(w, c, d.files);
    ClosedMeans(w, d);
  }

  /**
   * `SchemaRegistry(catalog_path)`: the constructor succeeds exactly on the trees `RegistryOK` describes.
   * `tree` lists the files the scan finds.
   */
  method Construct(w: World, d: Disk, tree: seq<Path>) returns (ok: bool)
    requires forall p :: p in tree <==> p in d.files
    ensures ok <==> RegistryOK(w, d)
  {
    hide RegistryOK, DocumentForm, DocumentChecks, AllSeparate, EntryLoads, MarkerOK, Closed, PredecessorsOK,
         UpcastersSeparate, EdgeChecks, PinsHold, OneRouteEach, Accepted, Indexed, Graph, Topological, SchemaPaths,
         Pending, UpcasterPins, SortBy;
    var c := d.catalog;
    RegistryMeans(w, d);
    DocumentMeans(c);
    if !DocumentChecks(c) { return false; }
    var loaded, x := LoadEntries(w, c.schemas, d.files);
    if !loaded { return false; }
    IndexedPaths(x, c);
    var pending := PendingArtifacts(w, d);
    if pending.None? { return false; }
    var closed := ScanTree(d, tree, x.paths, pending.value);
    if !closed { return false; }
    for i := 0 to |c.schemas|
      invariant forall e | e in c.schemas[..i] :: PredecessorsOK(c, e)
    {
      assert c.schemas[..i + 1] == c.schemas[..i] + [c.schemas[i]] && c.schemas[i] in c.schemas;
      var good := CheckPredecessors(c, x, c.schemas[i]);
      if !good { return false; }
    }
    assert c.schemas[..|c.schemas|] == c.schemas;
    var good, outgoing, nodes := CheckUpcasters(c, x);
    if !good { return false; }
    assert MetadataPass(w, d);
    EdgesMean(w, d);
    NodesMean(w, c, outgoing, nodes);
    var paths := CheckPaths(c.upcasters, outgoing, nodes);
    if !paths { return false; }
    var artifacts := LoadUpcasterArtifacts(w, c.upcasters, d.files);
    return artifacts && Accepted(w, c, d.files);
  }

  lemma IndexedPaths(x: Indexes, c: Catalog)
    requires Indexed(x, c.schemas)
    ensures x.paths == SchemaPaths(c)
  {
    forall p: Path
      ensures p in SchemaPaths(c) <==> exists e :: e in c.schemas && e.artifactPath == p
    {
      EntryPathMeans(c, p);
    }
    hide SchemaPaths;
  }

  lemma NodesMean(w: World, c: Catalog, outgoing: map<SchemaRef, seq<SchemaRef>>, nodes: seq<SchemaRef>)
    requires EdgesOK(w, c) && Graph(c.upcasters, outgoing, nodes)
    ensures Topological(c.upcasters, SortBy(nodes, NodeKey))
  {
    hide EdgesOK, Resolves, Outgoing, SortBy, Topological;
    SourcesResolve(w, c);
    NodesAreTopological(w, c, nodes);
  }
}
