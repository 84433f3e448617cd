/** What single, bundle and evolution registration prepare before anything is written. */
module Planning {
  import opened Text
  import opened Ordering
  import opened Catalogs
  import opened Registry

  const SCHEMA_HOST := "https://schemas.robata.dev/"

  /** A schema candidate after `_load_candidate`: `original` as read, `contents` normalised. */
  datatype Candidate = Candidate(
    source: string, schemaId: string, version: string, artifactPath: Path, declaredId: string,
    original: Bytes, contents: Bytes, meta: Metadata)

  datatype Input = Input(path: Path, contents: Bytes)

  datatype VectorInput = VectorInput(input: Input, output: Input)

  /** `denied` holds when the runtime document declares every denial flag false. */
  datatype Edge = Edge(
    id: string, source: SchemaRef, code: Input, runtime: Input, denied: bool, vectors: seq<VectorInput>)

  datatype Request =
    | Single(candidate: Candidate)
    | Bundle(candidates: seq<Candidate>)
    | Evolution(target: Candidate, edges: seq<Edge>)

  datatype Artifact = Artifact(path: Path, contents: Bytes, role: string)

  /** The arguments of `_publish_artifacts`, with the artifacts in path order. */
  datatype Tx = Tx(original: Catalog, target: Catalog, artifacts: seq<Artifact>, marker: Marker, graph: bool)

  datatype Plan = Refuse | Replay | Publish(tx: Tx)

  // ---------------------------------------------------------------- artifacts

  function PathKey(a: Artifact): Key { TextKey(a.path) }

  function ArtifactPaths(artifacts: seq<Artifact>): (paths: set<Path>)
  {
    set a | a in artifacts :: a.path
  }

  function Contents(artifacts: seq<Artifact>): (files: Files)
    ensures files.Keys == ArtifactPaths(artifacts)
  {
    if artifacts == [] then map[]
    else
      var last := artifacts[|artifacts| - 1];
      assert artifacts == artifacts[..|artifacts| - 1] + [last];
      Contents(artifacts[..|artifacts| - 1])[last.path := last.contents]
  }

  predicate DistinctPaths(artifacts: seq<Artifact>)
  {
    forall i, j | 0 <= i < j < |artifacts| :: artifacts[i].path != artifacts[j].path
  }

  lemma {:induction false} ContentsAt(artifacts: seq<Artifact>, a: Artifact)
    requires DistinctPaths(artifacts) && a in artifacts
    ensures a.path in Contents(artifacts) && Contents(artifacts)[a.path] == a.contents
  {
    var init := artifacts[..|artifacts| - 1];
    if a != artifacts[|artifacts| - 1] {
      assert a in init;
      ContentsAt(init, a);
      var i :| 0 <= i < |init| && init[i] == a;
      assert artifacts[i] == a;
    }
  }

  lemma DistinctPathKeys(artifacts: seq<Artifact>)
    requires DistinctPaths(artifacts)
    ensures DistinctKeys(artifacts, PathKey)
  {
    forall i, j | 0 <= i < j < |artifacts|
      ensures PathKey(artifacts[i]) != PathKey(artifacts[j])
    {
      TextKeyInjective(artifacts[i].path, artifacts[j].path);
    }
  }

  /** `sorted(artifacts, key=path)` keeps the artifacts and their distinctness. */
  lemma SortedArtifacts(artifacts: seq<Artifact>)
    requires DistinctPaths(artifacts)
    ensures DistinctPaths(SortBy(artifacts, PathKey))
    ensures ArtifactPaths(SortBy(artifacts, PathKey)) == ArtifactPaths(artifacts)
    ensures |SortBy(artifacts, PathKey)| == |artifacts|
  {
    var sorted := SortBy(artifacts, PathKey);
    DistinctPathKeys(artifacts);
    SortByDistinct(artifacts, PathKey);
    SortByKeeps(artifacts, PathKey);
    forall i, j | 0 <= i < j < |sorted|
      ensures sorted[i].path != sorted[j].path
    {
      assert PathKey(sorted[i]) != PathKey(sorted[j]);
    }
    forall a: Artifact
      ensures a in sorted <==> a in artifacts
    {
      SortByMember(artifacts, PathKey, a);
    }
  }

  function MarkerItems(w: World, artifacts: seq<Artifact>): (items: seq<MarkerItem>)
  {
    seq(|artifacts|, i requires 0 <= i < |artifacts| =>
      MarkerItem(artifacts[i].path, w.sha(artifacts[i].contents), artifacts[i].role))
  }

  /** `_publication_bundle_marker_bytes`. */
  function MarkerFor(w: World, artifacts: seq<Artifact>, original: Catalog, target: Catalog): Marker
  {
    BundleMarker(MarkerItems(w, artifacts), CatalogDigest(w, original), CatalogDigest(w, target))
  }

  // ---------------------------------------------------------------- paths

  /** `_publication_path` of a bundle, `_schema_publication_path` of an evolution. */
  predicate SchemaPathOK(p: Path)
  {
    SafePath(p) && InVersionDirectory(p) && EndsWith(p, SCHEMA_SUFFIX)
  }

  /** `_derive_artifact_path` of a single registration. */
  predicate SinglePathOK(p: Path)
  {
    var parts := Split(p, '/');
    && '\\' !in p
    && (forall i | 0 <= i < |parts| :: parts[i] != "" && parts[i] != "." && parts[i] != "..")
    && |parts| >= 2
    && StartsWith(parts[0], "v")
    && EndsWith(p, SCHEMA_SUFFIX)
  }

  // ---------------------------------------------------------------- entries

  function CandidateRef(w: World, c: Candidate): SchemaRef
  {
    SchemaRef(c.schemaId, c.version, w.artifactId(w.sha(c.contents)), w.sha(c.contents))
  }

  /** `_entry`. */
  function EntryOf(w: World, c: Candidate): SchemaEntry
  {
    SchemaEntry(CandidateRef(w, c), SCHEMA_HOST + c.artifactPath, c.artifactPath, c.meta, NoCompatibility, [])
  }

  function SchemaArtifact(c: Candidate, role: string): Artifact { Artifact(c.artifactPath, c.contents, role) }

  predicate Published(catalog: Catalog, c: Candidate)
  {
    FindSchema(catalog.schemas, c.schemaId, c.version).Some?
  }

  // ---------------------------------------------------------------- single

  /** `_register_schema_locked` up to `_publish`; the snapshot keeps a pending marker. */
  function PlanSingle(w: World, d: Disk, c: Candidate): (plan: Plan)
  {
    var proposed := EntryOf(w, c);
    var artifacts := [SchemaArtifact(c, "json-schema")];
    var target := Catalog(d.catalog.schemas + [proposed], d.catalog.upcasters);
    if !SinglePathOK(c.artifactPath) || c.declaredId != SCHEMA_HOST + c.artifactPath || !RegistryOK(w, d) then Refuse
    else if Published(d.catalog, c) then
      var e := FindSchema(d.catalog.schemas, c.schemaId, c.version).value;
      if e == proposed && e.artifactPath in d.files &&
         (d.files[e.artifactPath] == c.original || d.files[e.artifactPath] == c.contents)
      then Replay else Refuse
    else if RegistryOK(w, Disk(target, d.files + Contents(artifacts), d.marker)) then
      Publish(Tx(d.catalog, target, artifacts,
                 SingleMarker(c.artifactPath, w.sha(c.contents), CatalogDigest(w, d.catalog), CatalogDigest(w, target)),
                 false))
    else Refuse
  }

  // ---------------------------------------------------------------- bundle

  /** `_assert_unique_inputs`. */
  predicate UniqueInputs(cs: seq<Candidate>)
  {
    forall i, j | 0 <= i < j < |cs| ::
      && (cs[i].schemaId, cs[i].version) != (cs[j].schemaId, cs[j].version)
      && cs[i].artifactPath != cs[j].artifactPath
      && cs[i].source != cs[j].source
  }

  /** The checks of one iteration of the `_prepare_bundle` loop. */
  predicate BundleItemOK(w: World, d: Disk, c: Candidate)
  {
    && SchemaPathOK(c.artifactPath)
    && c.declaredId == SCHEMA_HOST + c.artifactPath
    && (if Published(d.catalog, c) then
          var e := FindSchema(d.catalog.schemas, c.schemaId, c.version).value;
          e == EntryOf(w, c) && e.artifactPath in d.files && d.files[e.artifactPath] == c.contents
        else c.artifactPath !in SchemaPaths(d.catalog))
  }

  predicate BundleItemsOK(w: World, d: Disk, cs: seq<Candidate>)
  {
    forall i | 0 <= i < |cs| :: BundleItemOK(w, d, cs[i])
  }

  function CandidateKey(c: Candidate): Key
  {
    TextKey(c.schemaId) + (TextKey(c.version) + TextKey(c.artifactPath))
  }

  function Entries(w: World, cs: seq<Candidate>): (entries: seq<SchemaEntry>)
  {
    seq(|cs|, i requires 0 <= i < |cs| => EntryOf(w, cs[i]))
  }

  /** The candidates whose key the catalog does not hold yet, in order. */
  function Fresh(catalog: Catalog, cs: seq<Candidate>): (r: seq<Candidate>)
  {
    if cs == [] then []
    else (if Published(catalog, cs[0]) then [] else [cs[0]]) + Fresh(catalog, cs[1..])
  }

  function BundleArtifacts(cs: seq<Candidate>): (artifacts: seq<Artifact>)
  {
    seq(|cs|, i requires 0 <= i < |cs| => SchemaArtifact(cs[i], "json-schema"))
  }

  function BundleTarget(w: World, catalog: Catalog, cs: seq<Candidate>): (target: Catalog)
  {
    Catalog(catalog.schemas + Entries(w, Fresh(catalog, SortBy(cs, CandidateKey))), catalog.upcasters)
  }

  /** `_prepare_bundle`: every candidate is an artifact, only fresh ones become entries. */
  function PlanBundle(w: World, d: Disk, cs: seq<Candidate>): (plan: Plan)
  {
    var sorted := SortBy(cs, CandidateKey);
    var artifacts := SortBy(BundleArtifacts(sorted), PathKey);
    var target := BundleTarget(w, d.catalog, cs);
    if cs == [] || !UniqueInputs(cs) || !RegistryOK(w, d) then Refuse
    else if !BundleItemsOK(w, d, cs) then Refuse
    else if !RegistryOK(w, Disk(target, d.files + Contents(artifacts), None)) then Refuse
    else if Fresh(d.catalog, sorted) == [] then Replay
    else Publish(Tx(d.catalog, target, artifacts, MarkerFor(w, artifacts, d.catalog, target), false))
  }

  // ---------------------------------------------------------------- evolution

  function FindArtifact(artifacts: seq<Artifact>, path: Path): (r: Option<Artifact>)
    ensures r.Some? ==> r.value in artifacts && r.value.path == path
    ensures r.None? ==> path !in ArtifactPaths(artifacts)
  {
    if artifacts == [] then None
    else if artifacts[0].path == path then Some(artifacts[0])
    else FindArtifact(artifacts[1..], path)
  }

  /** `_add_artifact`: None where two candidates disagree about one path. */
  function AddArtifact(artifacts: seq<Artifact>, a: Artifact): (r: Option<seq<Artifact>>)
  {
    var existing := FindArtifact(artifacts, a.path);
    if existing.None? then Some(artifacts + [a])
    else if existing.value.contents == a.contents then Some(artifacts)
    else None
  }

  function AddAll(artifacts: seq<Artifact>, more: seq<Artifact>): (r: Option<seq<Artifact>>)
    decreases |more|
  {
    if more == [] then Some(artifacts)
    else
      var r := AddArtifact(artifacts, more[0]);
      if r.None? then None else AddAll(r.value, more[1..])
  }

  function VectorArtifacts(vectors: seq<VectorInput>): (artifacts: seq<Artifact>)
  {
    if vectors == [] then []
    else [Artifact(vectors[0].input.path, vectors[0].input.contents, "UPCASTER_GOLDEN_INPUT"),
          Artifact(vectors[0].output.path, vectors[0].output.contents, "UPCASTER_GOLDEN_OUTPUT")]
         + VectorArtifacts(vectors[1..])
  }

  function EdgeArtifacts(e: Edge): (artifacts: seq<Artifact>)
  {
    [Artifact(e.code.path, e.code.contents, "UPCASTER_CODE"),
     Artifact(e.runtime.path, e.runtime.contents, "UPCASTER_RUNTIME")] + VectorArtifacts(e.vectors)
  }

  function AllEdgeArtifacts(edges: seq<Edge>): (artifacts: seq<Artifact>)
  {
    if edges == [] then [] else EdgeArtifacts(edges[0]) + AllEdgeArtifacts(edges[1..])
  }

  function GoldenKey(g: GoldenVector): Key { TextKey(g.inputPath) + TextKey(g.outputPath) }

  function Golden(w: World, v: VectorInput): GoldenVector
  {
    GoldenVector(v.input.path, w.sha(v.input.contents), v.output.path, w.sha(v.output.contents))
  }

  function Goldens(w: World, vectors: seq<VectorInput>): (r: seq<GoldenVector>)
  {
    seq(|vectors|, i requires 0 <= i < |vectors| => Golden(w, vectors[i]))
  }

  function UpcasterOf(w: World, e: Edge, target: SchemaRef): Upcaster
  {
    var code, runtime := w.sha(e.code.contents), w.sha(e.runtime.contents);
    Upcaster(e.id, e.source, target,
             w.upcasterId("CODE", code), e.code.path, code,
             w.upcasterId("RUNTIME", runtime), e.runtime.path, runtime,
             SortBy(Goldens(w, e.vectors), GoldenKey))
  }

  function Upcasters(w: World, edges: seq<Edge>, target: SchemaRef): (r: seq<Upcaster>)
  {
    seq(|edges|, i requires 0 <= i < |edges| => UpcasterOf(w, edges[i], target))
  }

  function EdgeKey(e: Edge): Key { TextKey(e.id) }

  function PredecessorKey(r: SchemaRef): Key { NodeKey(r) + TextKey(r.sha256) }

  function Sources(edges: seq<Edge>): (r: seq<SchemaRef>)
  {
    seq(|edges|, i requires 0 <= i < |edges| => edges[i].source)
  }

  /** `_schema_entry`. */
  function TargetEntry(w: World, target: Candidate, edges: seq<Edge>): SchemaEntry
  {
    SchemaEntry(CandidateRef(w, target), SCHEMA_HOST + target.artifactPath, target.artifactPath, target.meta,
                Backward, SortBy(Sources(edges), PredecessorKey))
  }

  predicate VectorOK(v: VectorInput)
  {
    && SafePath(v.input.path) && EndsWith(v.input.path, ".json")
    && SafePath(v.output.path) && EndsWith(v.output.path, ".json")
  }

  /** The checks on the source of an incoming edge against the current catalog. */
  predicate SourceOK(c: Catalog, target: SchemaRef, source: SchemaRef)
  {
    && Resolves(c, source)
    && source.schemaId == target.schemaId
    && LowerVersion(source, target)
  }

  /** The checks on the files an incoming edge brings. */
  predicate EdgeFilesOK(e: Edge)
  {
    && SafePath(e.code.path) && EndsWith(e.code.path, ".py")
    && SafePath(e.runtime.path) && EndsWith(e.runtime.path, ".json")
    && e.denied
    && e.vectors != []
    && forall i | 0 <= i < |e.vectors| :: VectorOK(e.vectors[i])
  }

  predicate EdgeOK(c: Catalog, target: SchemaRef, e: Edge)
  {
    SourceOK(c, target, e.source) && EdgeFilesOK(e)
  }

  predicate UniqueEdges(edges: seq<Edge>)
  {
    forall i, j | 0 <= i < j < |edges| :: edges[i].id != edges[j].id && edges[i].source != edges[j].source
  }

  predicate Compatible(files: Files, artifacts: seq<Artifact>)
  {
    forall a | a in artifacts :: a.path in files ==> files[a.path] == a.contents
  }

  function EvolutionTarget(w: World, catalog: Catalog, target: Candidate, edges: seq<Edge>): (r: Catalog)
  {
    Catalog(catalog.schemas + [TargetEntry(w, target, edges)],
            catalog.upcasters + Upcasters(w, SortBy(edges, EdgeKey), CandidateRef(w, target)))
  }

  predicate EvolutionInputsOK(d: Disk, ref: SchemaRef, target: Candidate, edges: seq<Edge>)
  {
    && SchemaPathOK(target.artifactPath)
    && target.declaredId == SCHEMA_HOST + target.artifactPath
    && edges != []
    && UniqueEdges(edges)
    && forall i | 0 <= i < |edges| :: EdgeOK(d.catalog, ref, edges[i])
  }

  /** `_prepare_evolution`. */
  function PlanEvolution(w: World, d: Disk, target: Candidate, edges: seq<Edge>): (plan: Plan)
  {
    var ref := CandidateRef(w, target);
    var sorted := SortBy(edges, EdgeKey);
    var collected := AddAll([SchemaArtifact(target, "SCHEMA")], AllEdgeArtifacts(sorted));
    if !RegistryOK(w, d) || !EvolutionInputsOK(d, ref, target, edges) || collected.None? then Refuse
    else
      var artifacts := SortBy(collected.value, PathKey);
      var proposed := Upcasters(w, sorted, ref);
      var catalog := EvolutionTarget(w, d.catalog, target, edges);
      var files := d.files + Contents(artifacts);
      if !Compatible(d.files, artifacts) then Refuse
      else if Published(d.catalog, target) then
        var e := FindSchema(d.catalog.schemas, target.schemaId, target.version).value;
        if e == TargetEntry(w, target, edges) &&
           (forall i | 0 <= i < |proposed| :: FindUpcaster(d.catalog.upcasters, proposed[i].id) == Some(proposed[i])) &&
           GraphRuns(w, d.catalog, d.files)
        then Replay else Refuse
      else if exists i | 0 <= i < |proposed| :: FindUpcaster(d.catalog.upcasters, proposed[i].id).Some? then Refuse
      else if RegistryOK(w, Disk(catalog, files, None)) && GraphRuns(w, catalog, files) then
        Publish(Tx(d.catalog, catalog, artifacts, MarkerFor(w, artifacts, d.catalog, catalog), true))
      else Refuse
  }

  function MakePlan(w: World, d: Disk, request: Request): (plan: Plan)
  {
    match request
    case Single(c) => PlanSingle(w, d, c)
    case Bundle(cs) => PlanBundle(w, d, cs)
    case Evolution(target, edges) => PlanEvolution(w, d, target, edges)
  }

  /** The catalog one committed request leaves, as a function of the catalog alone. */
  function CatalogAfter(w: World, c: Catalog, request: Request): (r: Catalog)
  {
    match request
    case Single(x) => Catalog(c.schemas + [EntryOf(w, x)], c.upcasters)
    case Bundle(xs) => BundleTarget(w, c, xs)
    case Evolution(target, edges) => EvolutionTarget(w, c, target, edges)
  }
}
