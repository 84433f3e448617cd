/** The immutability check between two committed trees: `check_schema_immutability`. */
module Immutability {
  import opened Catalogs
  import opened Registry

  /** The part of a Git tree below `schemas/`. */
  datatype Tree = Tree(catalog: Catalog, blobs: Files)

  type VersionId = (string, string)

  datatype Violation =
    | SchemaDeleted(key: VersionId)
    | SchemaChanged(key: VersionId)
    | SchemaBytesChanged(key: VersionId)
    | ArtifactMissing(current: bool, id: string, position: nat)
    | ArtifactMismatch(current: bool, id: string, position: nat)
    | UpcasterDeleted(id: string)
    | UpcasterChanged(id: string)
    | UpcasterBytesChanged(id: string, position: nat)

  /** `Malformed` where the source raises at once, `Violated` where it raises the collected list. */
  datatype Outcome =
    | Malformed
    | Violated(violations: seq<Violation>)
    | Passed(preservedSchemas: nat, addedSchemas: nat, preservedUpcasters: nat, addedUpcasters: nat,
             reconciled: seq<VersionId>)

  // ---------------------------------------------------------------- what a passing check means

  /** `_safe_upcaster_artifact_path` and the digest pattern, for one pin. */
  predicate PinForm(p: Pin) { SafePath(p.path) && HexDigest(p.sha) }

  predicate UpcasterForm(u: Upcaster)
  {
    u.vectors != [] && forall i | 0 <= i < |UpcasterPins(u)| :: PinForm(UpcasterPins(u)[i])
  }

  ghost predicate WellFormed(c: Catalog)
  {
    && (forall e | e in c.schemas :: e.artifactPath != "")
    && (forall i, j | 0 <= i < j < |c.schemas| :: RefKey(c.schemas[i].ref) != RefKey(c.schemas[j].ref))
    && (forall u | u in c.upcasters :: u.id != "" && UpcasterForm(u))
    && (forall i, j | 0 <= i < j < |c.upcasters| :: c.upcasters[i].id != c.upcasters[j].id)
  }

  predicate PinHolds(w: World, t: Tree, p: Pin) { p.path in t.blobs && w.sha(t.blobs[p.path]) == p.sha }

  ghost predicate UpcastersHold(w: World, t: Tree)
  {
    forall u | u in t.catalog.upcasters :: forall p | p in UpcasterPins(u) :: PinHolds(w, t, p)
  }

  /** The one byte change allowed: from bytes that miss the unchanged pin to bytes that meet it. */
  predicate Repair(w: World, a: Tree, b: Tree, e: SchemaEntry)
    requires e.artifactPath in a.blobs && e.artifactPath in b.blobs
  {
    w.sha(a.blobs[e.artifactPath]) != e.ref.sha256 && w.sha(b.blobs[e.artifactPath]) == e.ref.sha256
  }

  predicate SchemaKept(w: World, a: Tree, b: Tree, e: SchemaEntry)
  {
    && e in b.catalog.schemas
    && e.artifactPath in a.blobs && e.artifactPath in b.blobs
    && (a.blobs[e.artifactPath] == b.blobs[e.artifactPath] || Repair(w, a, b, e))
  }

  predicate UpcasterKept(a: Tree, b: Tree, u: Upcaster)
  {
    && u in b.catalog.upcasters
    && forall p | p in UpcasterPins(u) ::
         p.path in a.blobs && p.path in b.blobs && a.blobs[p.path] == b.blobs[p.path]
  }

  ghost predicate Passes(w: World, a: Tree, b: Tree)
  {
    && WellFormed(a.catalog) && WellFormed(b.catalog)
    && UpcastersHold(w, a) && UpcastersHold(w, b)
    && (forall e | e in a.catalog.schemas :: SchemaKept(w, a, b, e))
    && (forall u | u in a.catalog.upcasters :: UpcasterKept(a, b, u))
  }

  function VersionsOf(schemas: seq<SchemaEntry>): (keys: set<VersionId>) { set e | e in schemas :: RefKey(e.ref) }

  function IdsOf(us: seq<Upcaster>): (ids: set<string>) { set u | u in us :: u.id }

  function VersionIds(c: Catalog): (keys: set<VersionId>) { VersionsOf(c.schemas) }

  function UpcasterIds(c: Catalog): (ids: set<string>) { IdsOf(c.upcasters) }

  /** The schema versions whose bytes differ between two trees that both hold them. */
  ghost predicate Differs(a: Tree, b: Tree, e: SchemaEntry)
  {
    e.artifactPath in a.blobs && e.artifactPath in b.blobs && a.blobs[e.artifactPath] != b.blobs[e.artifactPath]
  }

  ghost function Repaired(a: Tree, b: Tree): (keys: set<VersionId>)
  {
    set e | e in a.catalog.schemas && Differs(a, b, e) :: RefKey(e.ref)
  }

  /** Every reported violation is a fact about the two trees. */
  ghost predicate Holds(w: World, a: Tree, b: Tree, v: Violation)
  {
    match v
    case SchemaDeleted(key) => key in VersionIds(a.catalog) && key !in VersionIds(b.catalog)
    case SchemaChanged(key) =>
      exists e, f :: e in a.catalog.schemas && f in b.catalog.schemas && RefKey(e.ref) == key == RefKey(f.ref) && e != f
    case SchemaBytesChanged(key) =>
      exists e ::
        && e in a.catalog.schemas && RefKey(e.ref) == key && e in b.catalog.schemas
        && Differs(a, b, e) && !Repair(w, a, b, e)
    case ArtifactMissing(current, id, position) =>
      var t := if current then b else a;
      exists u ::
        && u in t.catalog.upcasters && u.id == id && position < |UpcasterPins(u)|
        && UpcasterPins(u)[position].path !in t.blobs
    case ArtifactMismatch(current, id, position) =>
      var t := if current then b else a;
      exists u :: u in t.catalog.upcasters && u.id == id && position < |UpcasterPins(u)| &&
        UpcasterPins(u)[position].path in t.blobs && !PinHolds(w, t, UpcasterPins(u)[position])
    case UpcasterDeleted(id) => id in UpcasterIds(a.catalog) && id !in UpcasterIds(b.catalog)
    case UpcasterChanged(id) =>
      exists u, v :: u in a.catalog.upcasters && v in b.catalog.upcasters && u.id == id == v.id && u != v
    case UpcasterBytesChanged(id, position) =>
      exists u :: u in a.catalog.upcasters && u.id == id && u in b.catalog.upcasters && position < |UpcasterPins(u)| &&
        UpcasterPins(u)[position].path in a.blobs && UpcasterPins(u)[position].path in b.blobs &&
        a.blobs[UpcasterPins(u)[position].path] != b.blobs[UpcasterPins(u)[position].path]
  }
}
