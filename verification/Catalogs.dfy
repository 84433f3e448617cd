/** The catalog document, the publication marker and the schema tree on disk. */
module Catalogs {
  import opened Text

  type Path = string
  type Byte = b: int | 0 <= b < 256
  type Bytes = seq<Byte>
  type Digest = string
  type Files = map<Path, Bytes>

  datatype SchemaRef = SchemaRef(schemaId: string, version: string, artifactId: string, sha256: Digest)

  function RefKey(r: SchemaRef): (string, string) { (r.schemaId, r.version) }

  datatype Metadata = Metadata(
    wireVersion: string, owner: string, canonicalization: string, projection: string,
    softwareMin: string, softwareMax: string)

  datatype Mode = NoCompatibility | Backward | Forward | Full

  datatype SchemaEntry = SchemaEntry(
    ref: SchemaRef, documentId: string, artifactPath: Path, meta: Metadata,
    mode: Mode, predecessors: seq<SchemaRef>)

  datatype GoldenVector = GoldenVector(
    inputPath: Path, inputSha: Digest, outputPath: Path, outputSha: Digest)

  datatype Upcaster = Upcaster(
    id: string, source: SchemaRef, target: SchemaRef,
    codeId: string, codePath: Path, codeSha: Digest,
    runtimeId: string, runtimePath: Path, runtimeSha: Digest,
    vectors: seq<GoldenVector>)

  datatype Catalog = Catalog(schemas: seq<SchemaEntry>, upcasters: seq<Upcaster>)

  /** A path the catalog (or a marker) names, with the digest its bytes must have. */
  datatype Pin = Pin(path: Path, sha: Digest)

  function SchemaPin(e: SchemaEntry): Pin { Pin(e.artifactPath, e.ref.sha256) }

  function SchemaPins(schemas: seq<SchemaEntry>): (pins: seq<Pin>)
  {
    seq(|schemas|, i requires 0 <= i < |schemas| => SchemaPin(schemas[i]))
  }

  function VectorPins(vectors: seq<GoldenVector>): (pins: seq<Pin>)
  {
    if vectors == [] then []
    else [Pin(vectors[0].inputPath, vectors[0].inputSha),
          Pin(vectors[0].outputPath, vectors[0].outputSha)] + VectorPins(vectors[1..])
  }

  function UpcasterPins(u: Upcaster): (pins: seq<Pin>)
  {
    [Pin(u.codePath, u.codeSha), Pin(u.runtimePath, u.runtimeSha)] + VectorPins(u.vectors)
  }

  function AllUpcasterPins(us: seq<Upcaster>): (pins: seq<Pin>)
  {
    if us == [] then [] else UpcasterPins(us[0]) + AllUpcasterPins(us[1..])
  }

  function Pins(c: Catalog): (pins: seq<Pin>)
  {
    SchemaPins(c.schemas) + AllUpcasterPins(c.upcasters)
  }

  function PathsOf(pins: seq<Pin>): (paths: set<Path>)
  {
    set p | p in pins :: p.path
  }

  /** `_catalog_artifact_paths`. */
  function CatalogPaths(c: Catalog): (paths: set<Path>) { PathsOf(Pins(c)) }

  function SchemaPaths(c: Catalog): (paths: set<Path>) { PathsOf(SchemaPins(c.schemas)) }

  lemma {:induction false} AllUpcasterPinsAppend(a: seq<Upcaster>, b: seq<Upcaster>)
    ensures AllUpcasterPins(a + b) == AllUpcasterPins(a) + AllUpcasterPins(b)
  {
    hide UpcasterPins;
    if a == [] {
      assert a + b == b;
    } else {
      AllUpcasterPinsAppend(a[1..], b);
      assert (a + b)[0] == a[0] && (a + b)[1..] == a[1..] + b;
      var x, y := AllUpcasterPins(a[1..]), AllUpcasterPins(b);
      assert UpcasterPins(a[0]) + (x + y) == UpcasterPins(a[0]) + x + y;
    }
  }

  lemma PathsOfAppend(a: seq<Pin>, b: seq<Pin>)
    ensures PathsOf(a + b) == PathsOf(a) + PathsOf(b)
  {
  }

  /** Appending entries adds exactly their pins. */
  lemma PinsAppend(c: Catalog, schemas: seq<SchemaEntry>, upcasters: seq<Upcaster>)
    ensures var d := Catalog(c.schemas + schemas, c.upcasters + upcasters);
            && CatalogPaths(d) == CatalogPaths(c) + CatalogPaths(Catalog(schemas, upcasters))
            && SchemaPaths(d) == SchemaPaths(c) + SchemaPaths(Catalog(schemas, upcasters))
  {
    hide AllUpcasterPins, PathsOf;
    AllUpcasterPinsAppend(c.upcasters, upcasters);
    assert SchemaPins(c.schemas + schemas) == SchemaPins(c.schemas) + SchemaPins(schemas);
    PathsOfAppend(SchemaPins(c.schemas), SchemaPins(schemas));
    PathsOfAppend(SchemaPins(c.schemas + schemas), AllUpcasterPins(c.upcasters + upcasters));
    PathsOfAppend(AllUpcasterPins(c.upcasters), AllUpcasterPins(upcasters));
    PathsOfAppend(SchemaPins(c.schemas), AllUpcasterPins(c.upcasters));
    PathsOfAppend(SchemaPins(schemas), AllUpcasterPins(upcasters));
  }

  lemma SchemaPathsInCatalog(c: Catalog)
    ensures SchemaPaths(c) <= CatalogPaths(c)
  {
  }

  function FindSchema(schemas: seq<SchemaEntry>, schemaId: string, version: string): (r: Option<SchemaEntry>)
    ensures r.Some? ==> r.value in schemas && RefKey(r.value.ref) == (schemaId, version)
    ensures r.None? ==> forall e | e in schemas :: RefKey(e.ref) != (schemaId, version)
  {
    if schemas == [] then None
    else if RefKey(schemas[0].ref) == (schemaId, version) then Some(schemas[0])
    else FindSchema(schemas[1..], schemaId, version)
  }

  function FindUpcaster(us: seq<Upcaster>, id: string): (r: Option<Upcaster>)
    ensures r.Some? ==> r.value in us && r.value.id == id
    ensures r.None? ==> forall u | u in us :: u.id != id
  {
    if us == [] then None
    else if us[0].id == id then Some(us[0])
    else FindUpcaster(us[1..], id)
  }

  datatype MarkerItem = MarkerItem(path: Path, sha: Digest, role: string)

  /** `.schema-publication-transaction.json`: format v1 names one artifact, format v2 a list. */
  datatype Marker =
    | SingleMarker(path: Path, sha: Digest, originalSha: Digest, newSha: Digest)
    | BundleMarker(items: seq<MarkerItem>, originalSha: Digest, newSha: Digest)

  function MarkerPins(m: Marker): (pins: seq<Pin>)
  {
    match m
    case SingleMarker(path, sha, _, _) => [Pin(path, sha)]
    case BundleMarker(items, _, _) =>
      seq(|items|, i requires 0 <= i < |items| => Pin(items[i].path, items[i].sha))
  }

  function MarkerPaths(m: Marker): (paths: set<Path>) { PathsOf(MarkerPins(m)) }

  predicate MarkerShape(m: Marker)
  {
    m.BundleMarker? ==>
      && m.items != []
      && (forall i, j | 0 <= i < j < |m.items| :: m.items[i].path != m.items[j].path)
  }

  /** The schema tree: `files` holds every regular file except the catalog, marker and lock. */
  datatype Disk = Disk(catalog: Catalog, files: Files, marker: Option<Marker>)

  /** What the scripts compute without this model looking inside. */
  datatype World = World(
    sha: Bytes -> Digest,                  // hashlib.sha256(...).hexdigest()
    encode: Catalog -> Bytes,              // _catalog_bytes
    artifactId: Digest -> string,          // deterministic_schema_artifact_id
    upcasterId: (string, Digest) -> string, // deterministic_upcaster_artifact_id
    accepts: (Catalog, Files) -> bool,     // document checks of SchemaRegistry over the pinned bytes
    runs: (Catalog, Files) -> bool)        // SchemaUpcasterGraph over the pinned bytes

  function CatalogDigest(w: World, c: Catalog): Digest { w.sha(w.encode(c)) }

  /** No two contents share a digest and no two catalogs an encoding. */
  ghost predicate CollisionFree(w: World)
  {
    && (forall a: Bytes, b: Bytes {:trigger w.sha(a), w.sha(b)} :: w.sha(a) == w.sha(b) ==> a == b)
    && (forall a: Catalog, b: Catalog {:trigger w.encode(a), w.encode(b)} ::
          w.encode(a) == w.encode(b) ==> a == b)
  }

}
