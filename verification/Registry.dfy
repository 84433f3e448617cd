/** When `SchemaRegistry(catalog_path)` accepts a tree. */
module Registry {
  import opened Text
  import opened Ordering
  import opened Versions
  import opened Catalogs

  const CATALOG_SCHEMA_FILENAME := "schema-catalog.schema.json"
  const SCHEMA_SUFFIX := ".schema.json"

  /** Files the closure scan looks at: every `*.schema.json` but the catalog's own schema. */
  predicate IsScanned(p: Path)
  {
    EndsWith(p, SCHEMA_SUFFIX) && p != CATALOG_SCHEMA_FILENAME
  }

  /** Below a `v[0-9]+` directory. */
  predicate InVersionDirectory(p: Path)
  {
    var parts := Split(p, '/');
    |parts| >= 2 && |parts[0]| >= 2 && parts[0][0] == 'v' && AllDigits(parts[0][1..])
  }

  /** `^[0-9a-f]{64}$`, as the catalog document and its models require of every digest. */
  predicate HexDigest(d: Digest)
  {
    |d| == 64 && forall i | 0 <= i < 64 :: IsDigitChar(d[i]) || 'a' <= d[i] <= 'f'
  }

  predicate SafeCharacter(c: char)
  {
    'a' <= c <= 'z' || 'A' <= c <= 'Z' || '0' <= c <= '9' || c == '.' || c == '_' || c == '-'
  }

  predicate SafeSegment(s: string)
  {
    s != "" && s != "." && s != ".." && forall i | 0 <= i < |s| :: SafeCharacter(s[i])
  }

  /** `_safe_relative_path`. */
  predicate SafePath(p: Path)
  {
    forall i | 0 <= i < |Split(p, '/')| :: SafeSegment(Split(p, '/')[i])
  }

  /** The catalog document's path pattern: searched, not fully matched, so one final newline passes. */
  predicate PathPattern(p: Path)
  {
    var q := if EndsWith(p, "\n") then p[..|p| - 1] else p;
    q != "" && forall i | 0 <= i < |q| :: SafeCharacter(q[i]) || q[i] == '/'
  }

  /** What the registry asks of a path it pins: the pattern, and no empty, "." or ".." segment. */
  predicate RegistryPath(p: Path)
  {
    && PathPattern(p)
    && forall i | 0 <= i < |Split(p, '/')| :: Split(p, '/')[i] !in {"", ".", ".."}
  }

  predicate PinOK(p: Pin) { RegistryPath(p.path) && HexDigest(p.sha) }

  /** `resolve_exact`: the key is registered under this very reference. */
  predicate Resolves(c: Catalog, r: SchemaRef)
  {
    exists e | e in c.schemas :: e.ref == r
  }

  predicate LowerVersion(a: SchemaRef, b: SchemaRef)
  {
    && VersionKey(a.version).Some?
    && VersionKey(b.version).Some?
    && Precedes(VersionKey(a.version).value, VersionKey(b.version).value)
  }

  predicate EntryOK(w: World, c: Catalog, e: SchemaEntry)
  {
    && VersionKey(e.ref.version).Some?
    && e.ref.artifactId == w.artifactId(e.ref.sha256)
    && PinOK(SchemaPin(e))
    && IsScanned(e.artifactPath)
    && InVersionDirectory(e.artifactPath)
    && (e.mode.NoCompatibility? <==> e.predecessors == [])
    && (forall i, j | 0 <= i < j < |e.predecessors| :: e.predecessors[i] != e.predecessors[j])
    && (forall p | p in e.predecessors ::
          Resolves(c, p) && p.schemaId == e.ref.schemaId && LowerVersion(p, e.ref))
  }

  /** No two entries share a key, artifact id, digest, document id or path. */
  predicate SeparateEntries(a: SchemaEntry, b: SchemaEntry)
  {
    && RefKey(a.ref) != RefKey(b.ref)
    && a.ref.artifactId != b.ref.artifactId
    && a.ref.sha256 != b.ref.sha256
    && a.documentId != b.documentId
    && a.artifactPath != b.artifactPath
  }

  /** `^[a-z][a-z0-9]*(?:-[a-z0-9]+)*$`. */
  predicate UpcasterIdOK(id: string)
  {
    && id != "" && 'a' <= id[0] <= 'z'
    && forall i | 0 <= i < |Split(id, '-')| ::
         var part := Split(id, '-')[i];
         part != "" && forall k | 0 <= k < |part| :: 'a' <= part[k] <= 'z' || IsDigitChar(part[k])
  }

  predicate UpcasterOK(c: Catalog, u: Upcaster)
  {
    && UpcasterIdOK(u.id)
    && (forall p | p in UpcasterPins(u) :: PinOK(p))
    && Resolves(c, u.source)
    && u.source.schemaId == u.target.schemaId
    && LowerVersion(u.source, u.target)
    && u.vectors != []
    && (forall i, j | 0 <= i < j < |u.vectors| :: u.vectors[i] != u.vectors[j])
    && (exists e | e in c.schemas :: e.ref == u.target && u.source in e.predecessors)
  }

  predicate SeparateUpcasters(a: Upcaster, b: Upcaster)
  {
    a.id != b.id && (a.source != b.source || a.target != b.target)
  }

  function NodeKey(r: SchemaRef): Key
  {
    var v := VersionKey(r.version);
    TextKey(r.schemaId) + (if v.Some? then [v.value.major, v.value.minor, v.value.patch] else [])
  }

  function Refs(schemas: seq<SchemaEntry>): (refs: seq<SchemaRef>)
    ensures |refs| == |schemas|
  {
    seq(|schemas|, i requires 0 <= i < |schemas| => schemas[i].ref)
  }

  function Outgoing(us: seq<Upcaster>, node: SchemaRef): (targets: seq<SchemaRef>)
  {
    if us == [] then []
    else (if us[0].source == node then [us[0].target] else []) + Outgoing(us[1..], node)
  }

  type Counts = map<SchemaRef, nat>

  /** The inner loop over `outgoing[node]`: None where the source raises "multiple upcaster paths". */
  function Spread(counts: Counts, count: nat, targets: seq<SchemaRef>): (r: Option<Counts>)
    decreases |targets|
  {
    if targets == [] then Some(counts)
    else
      var seen := if targets[0] in counts then counts[targets[0]] else 0;
      if seen + count > 1 then None
      else Spread(counts[targets[0] := seen + count], count, targets[1..])
  }

  /** The loop over nodes in version order, for one source. */
  function Sweep(us: seq<Upcaster>, nodes: seq<SchemaRef>, counts: Counts): (r: Option<Counts>)
  {
    if nodes == [] then Some(counts)
    else
      var count := if nodes[0] in counts then counts[nodes[0]] else 0;
      if count == 0 then Sweep(us, nodes[1..], counts)
      else
        var spread := Spread(counts, count, Outgoing(us, nodes[0]));
        if spread.None? then None else Sweep(us, nodes[1..], spread.value)
  }

  function OrderedNodes(c: Catalog): (nodes: seq<SchemaRef>) { SortBy(Refs(c.schemas), NodeKey) }

  /** The path-count check over every source. */
  predicate SinglePaths(c: Catalog)
  {
    forall i | 0 <= i < |OrderedNodes(c)| ::
      Sweep(c.upcasters, OrderedNodes(c), map[OrderedNodes(c)[i] := 1]).Some?
  }

  /** What construction checks about the catalog alone. */
  predicate CatalogOK(w: World, c: Catalog)
  {
    && c.schemas != []
    && (forall i | 0 <= i < |c.schemas| :: EntryOK(w, c, c.schemas[i]))
    && (forall i, j | 0 <= i < j < |c.schemas| :: SeparateEntries(c.schemas[i], c.schemas[j]))
    && (forall i | 0 <= i < |c.upcasters| :: UpcasterOK(c, c.upcasters[i]))
    && (forall i, j | 0 <= i < j < |c.upcasters| :: SeparateUpcasters(c.upcasters[i], c.upcasters[j]))
    && SinglePaths(c)
  }

  /** Every path the catalog names exists with exactly the pinned bytes. */
  predicate Pinned(w: World, c: Catalog, files: Files)
  {
    forall p | p in Pins(c) :: p.path in files && w.sha(files[p.path]) == p.sha
  }

  function Restrict(files: Files, paths: set<Path>): (r: Files)
  {
    map p | p in files && p in paths :: files[p]
  }

  predicate Accepted(w: World, c: Catalog, files: Files)
  {
    w.accepts(c, Restrict(files, CatalogPaths(c)))
  }

  predicate GraphRuns(w: World, c: Catalog, files: Files)
  {
    w.runs(c, Restrict(files, CatalogPaths(c)))
  }

  /** `_pending_publication_artifacts`, the part that can raise. */
  predicate MarkerOK(w: World, d: Disk)
  {
    d.marker.Some? ==>
      var m := d.marker.value;
      var digest := CatalogDigest(w, d.catalog);
      && MarkerShape(m)
      && (digest == m.originalSha || digest == m.newSha)
      && (forall p | p in MarkerPins(m) ::
            if p.path in d.files then w.sha(d.files[p.path]) == p.sha else digest != m.newSha)
  }

  /** `_pending_publication_artifacts`, the value. */
  function Pending(w: World, d: Disk): (paths: set<Path>)
  {
    if d.marker.Some? && CatalogDigest(w, d.catalog) == d.marker.value.originalSha then
      set p | p in MarkerPaths(d.marker.value) && p in d.files
    else {}
  }

  /** No scanned file is outside the catalog and the pending marker. */
  predicate SchemaClosed(w: World, d: Disk)
  {
    forall p | p in d.files && IsScanned(p) ::
      InVersionDirectory(p) && (p in SchemaPaths(d.catalog) || p in Pending(w, d))
  }

  predicate RegistryOK(w: World, d: Disk)
  {
    && CatalogOK(w, d.catalog)
    && Pinned(w, d.catalog, d.files)
    && Accepted(w, d.catalog, d.files)
    && MarkerOK(w, d)
    && SchemaClosed(w, d)
  }

  lemma PinnedPaths(w: World, c: Catalog, files: Files)
    requires Pinned(w, c, files)
    ensures CatalogPaths(c) <= files.Keys
  {
  }

  /** Two trees that agree on the catalog's paths are the same to every check of the catalog. */
  lemma SameOnCatalog(w: World, c: Catalog, a: Files, b: Files)
    requires forall p | p in CatalogPaths(c) :: p in a && p in b && a[p] == b[p]
    ensures Pinned(w, c, a) == Pinned(w, c, b)
    ensures Accepted(w, c, a) == Accepted(w, c, b)
    ensures GraphRuns(w, c, a) == GraphRuns(w, c, b)
  {
    assert Restrict(a, CatalogPaths(c)) == Restrict(b, CatalogPaths(c));
    assert forall p | p in Pins(c) :: p.path in CatalogPaths(c);
  }
}
