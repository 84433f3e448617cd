/**
 * When a registration is refused, answered as unchanged, or published, and as what: stated over the
 * fields of the request and of the catalog, without the functions that prepare it.
 */
module Answers {
  import opened Text
  import opened Ordering
  import opened TextOrder
  import opened Catalogs
  import opened Registry
  import opened Planning
  import opened Transactions

  // ---------------------------------------------------------------- paths, segment by segment

  /** `p` is these segments with a slash between them. */
  ghost predicate Segments(p: Path, parts: seq<string>)
  {
    |parts| >= 1 && Join(parts, '/') == p && forall i | 0 <= i < |parts| :: '/' !in parts[i]
  }

  ghost predicate Plain(part: string) { part != "" && part != "." && part != ".." }

  ghost predicate PlainAscii(part: string)
  {
    forall c | c in part :: 'a' <= c <= 'z' || 'A' <= c <= 'Z' || '0' <= c <= '9' || c in "._-"
  }

  /** Where a single registration may put a schema. */
  ghost predicate SinglePlace(p: Path)
  {
    exists parts ::
      && Segments(p, parts) && |parts| >= 2
      && (forall i | 0 <= i < |parts| :: Plain(parts[i]) && '\\' !in parts[i])
      && parts[0][0] == 'v' && EndsWith(p, ".schema.json")
  }

  /** A relative path of plain segments over letters, digits, dot, underscore and hyphen. */
  ghost predicate SafePlace(p: Path)
  {
    exists parts :: Segments(p, parts) && forall i | 0 <= i < |parts| :: Plain(parts[i]) && PlainAscii(parts[i])
  }

  /** Where a bundle or an evolution may put a schema. */
  ghost predicate SchemaPlace(p: Path)
  {
    exists parts ::
      && Segments(p, parts) && |parts| >= 2
      && (forall i | 0 <= i < |parts| :: Plain(parts[i]) && PlainAscii(parts[i]))
      && |parts[0]| >= 2 && parts[0][0] == 'v' && (forall i | 1 <= i < |parts[0]| :: '0' <= parts[0][i] <= '9')
      && EndsWith(p, ".schema.json")
  }

  lemma SegmentsAreSplit(p: Path, parts: seq<string>)
    ensures Segments(p, parts) <==> parts == Split(p, '/')
  {
    hide Split, Join;
    JoinSplit(p, '/');
    if Segments(p, parts) {
      SplitJoin(parts, '/');
    }
  }

  lemma NoBackslash(p: Path)
    ensures '\\' !in p <==> forall i | 0 <= i < |Split(p, '/')| :: '\\' !in Split(p, '/')[i]
  {
    hide Split;
    SplitMembers(p, '/', '\\');
  }

  lemma SinglePlaceMeans(p: Path)
    ensures SinglePathOK(p) <==> SinglePlace(p)
  {
    hide Split, EndsWith, Segments;
    NoBackslash(p);
    var parts := Split(p, '/');
    SegmentsAreSplit(p, parts);
    if SinglePlace(p) {
      var other :|
        && Segments(p, other) && |other| >= 2
        && (forall i | 0 <= i < |other| :: Plain(other[i]) && '\\' !in other[i])
        && other[0][0] == 'v';
      SegmentsAreSplit(p, other);
    }
    assert StartsWith(parts[0], "v") <==> parts[0] != "" && parts[0][0] == 'v' by {
      assert parts[0] != "" ==> parts[0][..1] == [parts[0][0]];
    }
  }

  lemma SafeSegmentMeans(part: string)
    ensures SafeSegment(part) <==> Plain(part) && PlainAscii(part)
  {
    assert forall c: char :: c in "._-" <==> c == '.' || c == '_' || c == '-' by {
      assert "._-"[0] == '.' && "._-"[1] == '_' && "._-"[2] == '-';
    }
    if SafeSegment(part) {
      forall c | c in part
        ensures SafeCharacter(c)
      {
        var i :| 0 <= i < |part| && part[i] == c;
      }
    }
    if PlainAscii(part) {
      assert forall i | 0 <= i < |part| :: part[i] in part;
    }
  }

  lemma SafePlaceMeans(p: Path)
    ensures SafePath(p) <==> SafePlace(p)
  {
    hide Split, Segments, SafeSegment, Plain, PlainAscii;
    var parts := Split(p, '/');
    SegmentsAreSplit(p, parts);
    forall part: string
      ensures SafeSegment(part) <==> Plain(part) && PlainAscii(part)
    {
      SafeSegmentMeans(part);
    }
    if SafePlace(p) {
      var other :| Segments(p, other) && forall i | 0 <= i < |other| :: Plain(other[i]) && PlainAscii(other[i]);
      SegmentsAreSplit(p, other);
    }
  }

  lemma SchemaPlaceMeans(p: Path)
    ensures SchemaPathOK(p) <==> SchemaPlace(p)
  {
    hide Split, Segments, SafeSegment, Plain, PlainAscii, EndsWith;
    var parts := Split(p, '/');
    SegmentsAreSplit(p, parts);
    forall part: string
      ensures SafeSegment(part) <==> Plain(part) && PlainAscii(part)
    {
      SafeSegmentMeans(part);
    }
    if SchemaPlace(p) {
      var other :|
        && Segments(p, other) && |other| >= 2
        && (forall i | 0 <= i < |other| :: Plain(other[i]) && PlainAscii(other[i]))
        && |other[0]| >= 2 && other[0][0] == 'v' && (forall i | 1 <= i < |other[0]| :: '0' <= other[0][i] <= '9');
      SegmentsAreSplit(p, other);
    }
    if |parts| >= 2 && |parts[0]| >= 2 {
      VersionDigits(parts[0]);
    }
  }

  lemma VersionDigits(part: string)
    requires |part| >= 2
    ensures AllDigits(part[1..]) <==> forall i | 1 <= i < |part| :: '0' <= part[i] <= '9'
  {
    if AllDigits(part[1..]) {
      forall i | 1 <= i < |part|
        ensures '0' <= part[i] <= '9'
      {
        assert part[1..][i - 1] == part[i];
      }
    }
  }

  // ---------------------------------------------------------------- entries, field by field

  /** The identity, digest, place and metadata the candidate declares. */
  ghost predicate Declares(w: World, e: SchemaEntry, c: Candidate)
  {
    && e.ref.schemaId == c.schemaId
    && e.ref.version == c.version
    && e.ref.sha256 == w.sha(c.contents)
    && e.ref.artifactId == w.artifactId(w.sha(c.contents))
    && e.documentId == c.declaredId
    && e.artifactPath == c.artifactPath
    && e.meta == c.meta
  }

  /** The entry of a schema that declares no compatibility. */
  ghost predicate PlainEntry(w: World, e: SchemaEntry, c: Candidate)
  {
    Declares(w, e, c) && e.mode == NoCompatibility && e.predecessors == []
  }

  ghost predicate SameVersion(e: SchemaEntry, c: Candidate)
  {
    e.ref.schemaId == c.schemaId && e.ref.version == c.version
  }

  ghost predicate HasVersion(catalog: Catalog, c: Candidate) { exists e :: e in catalog.schemas && SameVersion(e, c) }

  /** The schema's `$id` is its public address. */
  ghost predicate Addressed(c: Candidate) { c.declaredId == "https://schemas.robata.dev/" + c.artifactPath }

  lemma EntryMeans(w: World, e: SchemaEntry, c: Candidate)
    requires Addressed(c)
    ensures e == EntryOf(w, c) <==> PlainEntry(w, e, c)
  {
  }

  lemma LookupMeans(catalog: Catalog, c: Candidate)
    ensures Published(catalog, c) <==> HasVersion(catalog, c)
  {
    var found := FindSchema(catalog.schemas, c.schemaId, c.version);
    if HasVersion(catalog, c) {
      var e :| e in catalog.schemas && SameVersion(e, c);
      assert RefKey(e.ref) == (c.schemaId, c.version);
    }
  }

  /** In a valid catalog the lookup finds the one entry of that version. */
  lemma LookupFinds(w: World, catalog: Catalog, c: Candidate, e: SchemaEntry)
    requires CatalogOK(w, catalog) && e in catalog.schemas && SameVersion(e, c)
    ensures FindSchema(catalog.schemas, c.schemaId, c.version) == Some(e)
  {
    hide EntryOK, UpcasterOK, SeparateUpcasters, SinglePaths;
    var schemas := catalog.schemas;
    var found := FindSchema(schemas, c.schemaId, c.version);
    assert RefKey(e.ref) == (c.schemaId, c.version);
    forall i, j | 0 <= i < j < |schemas|
      ensures RefKey(schemas[i].ref) != RefKey(schemas[j].ref)
    {
      assert SeparateEntries(schemas[i], schemas[j]);
    }
    var i :| 0 <= i < |schemas| && schemas[i] == e;
    var j :| 0 <= j < |schemas| && schemas[j] == found.value;
  }

  lemma RegistryParts(w: World, d: Disk)
    requires RegistryOK(w, d)
    ensures CatalogOK(w, d.catalog) && Pinned(w, d.catalog, d.files)
  {
    hide CatalogOK, Pinned, Accepted, MarkerOK, SchemaClosed;
  }

  // ---------------------------------------------------------------- single registrations

  ghost predicate SingleReady(w: World, d: Disk, c: Candidate)
  {
    SinglePlace(c.artifactPath) && Addressed(c) && RegistryOK(w, d)
  }

  /** Exactly one entry appended, exactly one file, and the marker of both catalogs. */
  ghost predicate SingleTx(w: World, d: Disk, c: Candidate, tx: Tx)
  {
    var n := |d.catalog.schemas|;
    && tx.original == d.catalog
    && |tx.target.schemas| == n + 1 && tx.target.schemas[..n] == d.catalog.schemas
    && PlainEntry(w, tx.target.schemas[n], c)
    && tx.target.upcasters == d.catalog.upcasters
    && tx.artifacts == [Artifact(c.artifactPath, c.contents, "json-schema")]
    && tx.marker == SingleMarker(c.artifactPath, w.sha(c.contents), w.sha(w.encode(d.catalog)),
                                 w.sha(w.encode(tx.target)))
    && !tx.graph
  }

  lemma SingleTxMeans(w: World, d: Disk, c: Candidate, tx: Tx)
    requires Addressed(c)
    ensures var target := Catalog(d.catalog.schemas + [EntryOf(w, c)], d.catalog.upcasters);
            SingleTx(w, d, c, tx) <==>
              tx == Tx(d.catalog, target, [SchemaArtifact(c, "json-schema")],
                       SingleMarker(c.artifactPath, w.sha(c.contents), CatalogDigest(w, d.catalog),
                                    CatalogDigest(w, target)), false)
  {
    hide EntryOf, PlainEntry;
    var target := Catalog(d.catalog.schemas + [EntryOf(w, c)], d.catalog.upcasters);
    EntryMeans(w, EntryOf(w, c), c);
    if SingleTx(w, d, c, tx) {
      EntryMeans(w, tx.target.schemas[|d.catalog.schemas|], c);
      assert tx.target.schemas == d.catalog.schemas + [EntryOf(w, c)];
    }
  }

  lemma OneFile(files: Files, a: Artifact)
    ensures files + Contents([a]) == files[a.path := a.contents]
  {
    assert [a][..0] == [];
  }

  /** A request out of place, or on a tree the registry refuses, is refused. */
  lemma SingleUnready(w: World, d: Disk, c: Candidate)
    requires !SingleReady(w, d, c)
    ensures MakePlan(w, d, Single(c)) == Refuse
  {
    hide RegistryOK, SinglePathOK, SinglePlace;
    SinglePlaceMeans(c.artifactPath);
  }

  /**
   * A candidate for a published version is unchanged exactly when the entry is field by field what the
   * candidate declares and the file has the candidate's bytes, as read or normalised; else it is refused.
   */
  lemma SingleConflict(w: World, d: Disk, c: Candidate, e: SchemaEntry)
    requires SingleReady(w, d, c) && e in d.catalog.schemas && SameVersion(e, c)
    ensures MakePlan(w, d, Single(c)) ==
              if PlainEntry(w, e, c) && e.artifactPath in d.files && d.files[e.artifactPath] in {c.original, c.contents}
              then Replay else Refuse
  {
    hide RegistryOK, SinglePathOK, SinglePlace, EntryOf, PlainEntry, CatalogOK, Pinned;
    SinglePlaceMeans(c.artifactPath);
    RegistryParts(w, d);
    LookupFinds(w, d.catalog, c, e);
    EntryMeans(w, e, c);
  }

  /** A new version is published, as exactly this transaction, if and only if the resulting snapshot is valid. */
  lemma SingleFresh(w: World, d: Disk, c: Candidate, tx: Tx)
    requires SingleReady(w, d, c) && !HasVersion(d.catalog, c)
    ensures MakePlan(w, d, Single(c)) == Publish(tx) <==>
              SingleTx(w, d, c, tx) && RegistryOK(w, Disk(tx.target, d.files[c.artifactPath := c.contents], d.marker))
    ensures !MakePlan(w, d, Single(c)).Replay?
  {
    hide RegistryOK, SinglePathOK, SinglePlace, EntryOf, HasVersion, SingleTx, Published, CatalogDigest, Contents;
    SinglePlaceMeans(c.artifactPath);
    LookupMeans(d.catalog, c);
    SingleTxMeans(w, d, c, tx);
    OneFile(d.files, SchemaArtifact(c, "json-schema"));
  }

  // ---------------------------------------------------------------- markers and artifacts of several files

  /** The marker names the artifacts one by one with their digests and roles, and both catalogs. */
  ghost predicate MarkerSays(w: World, tx: Tx)
  {
    && tx.marker.BundleMarker?
    && |tx.marker.items| == |tx.artifacts|
    && (forall i | 0 <= i < |tx.artifacts| ::
          && tx.marker.items[i].path == tx.artifacts[i].path
          && tx.marker.items[i].sha == w.sha(tx.artifacts[i].contents)
          && tx.marker.items[i].role == tx.artifacts[i].role)
    && tx.marker.originalSha == w.sha(w.encode(tx.original))
    && tx.marker.newSha == w.sha(w.encode(tx.target))
  }

  lemma MarkerSaysMeans(w: World, tx: Tx)
    ensures MarkerSays(w, tx) <==> tx.marker == MarkerFor(w, tx.artifacts, tx.original, tx.target)
  {
    if MarkerSays(w, tx) {
      assert tx.marker.items == MarkerItems(w, tx.artifacts);
    }
  }

  ghost predicate PathsAscend(artifacts: seq<Artifact>)
  {
    forall i, j | 0 <= i < j < |artifacts| :: Below(artifacts[i].path, artifacts[j].path)
  }

  lemma PathsAscendMeans(artifacts: seq<Artifact>)
    ensures PathsAscend(artifacts) <==> Strict(artifacts, PathKey)
  {
    hide Below, Before, TextKey;
    forall a: Artifact, b: Artifact
      ensures Below(a.path, b.path) <==> Before(PathKey(a), PathKey(b))
    {
      TextKeysOrder(a.path, b.path);
    }
  }

  // ---------------------------------------------------------------- bundles

  /** No version, path or candidate file occurs twice. */
  ghost predicate NoInputTwice(cs: seq<Candidate>)
  {
    forall i, j | 0 <= i < |cs| && 0 <= j < |cs| && i != j ::
      && !(cs[i].schemaId == cs[j].schemaId && cs[i].version == cs[j].version)
      && cs[i].artifactPath != cs[j].artifactPath
      && cs[i].source != cs[j].source
  }

  /** A published version must be declared and stored exactly so; a new one must have a path of its own. */
  ghost predicate ItemReady(w: World, d: Disk, c: Candidate)
  {
    && SchemaPlace(c.artifactPath) && Addressed(c)
    && (forall e | e in d.catalog.schemas && SameVersion(e, c) ::
          PlainEntry(w, e, c) && e.artifactPath in d.files && d.files[e.artifactPath] == c.contents)
    && (!HasVersion(d.catalog, c) ==> forall e | e in d.catalog.schemas :: e.artifactPath != c.artifactPath)
  }

  ghost predicate BundleReady(w: World, d: Disk, cs: seq<Candidate>)
  {
    && cs != [] && NoInputTwice(cs) && RegistryOK(w, d)
    && forall c | c in cs :: ItemReady(w, d, c)
  }

  /** One entry for each new version, and no other, in ascending order of schema id and version string. */
  ghost predicate NewEntries(w: World, catalog: Catalog, cs: seq<Candidate>, added: seq<SchemaEntry>)
  {
    && (forall e :: e in added <==> exists c :: c in cs && !HasVersion(catalog, c) && PlainEntry(w, e, c))
    && forall i, j | 0 <= i < j < |added| ::
         PairBelow((added[i].ref.schemaId, added[i].ref.version), (added[j].ref.schemaId, added[j].ref.version))
  }

  /** One file for each candidate, and no other, in ascending order of paths. */
  ghost predicate BundleFiles(cs: seq<Candidate>, artifacts: seq<Artifact>)
  {
    && (forall a :: a in artifacts <==> exists c :: c in cs && a == Artifact(c.artifactPath, c.contents, "json-schema"))
    && PathsAscend(artifacts)
  }

  ghost predicate BundleTx(w: World, d: Disk, cs: seq<Candidate>, tx: Tx)
  {
    var n := |d.catalog.schemas|;
    && tx.original == d.catalog
    && |tx.target.schemas| >= n && tx.target.schemas[..n] == d.catalog.schemas
    && NewEntries(w, d.catalog, cs, tx.target.schemas[n..])
    && tx.target.upcasters == d.catalog.upcasters
    && BundleFiles(cs, tx.artifacts)
    && MarkerSays(w, tx)
    && !tx.graph
  }

  lemma InputsMean(cs: seq<Candidate>)
    ensures UniqueInputs(cs) <==> NoInputTwice(cs)
  {
  }

  lemma ItemMeans(w: World, d: Disk, c: Candidate)
    requires RegistryOK(w, d)
    ensures BundleItemOK(w, d, c) <==> ItemReady(w, d, c)
  {
    hide RegistryOK, SchemaPathOK, SchemaPlace, EntryOf, PlainEntry, Published, CatalogOK, SchemaPaths, Pinned;
    SchemaPlaceMeans(c.artifactPath);
    LookupMeans(d.catalog, c);
    RegistryParts(w, d);
    SchemaPathsMean(d.catalog, c.artifactPath);
    if Addressed(c) && HasVersion(d.catalog, c) {
      var e :| e in d.catalog.schemas && SameVersion(e, c);
      LookupFinds(w, d.catalog, c, e);
      EntryMeans(w, e, c);
      forall x | x in d.catalog.schemas && SameVersion(x, c)
        ensures x == e
      {
        LookupFinds(w, d.catalog, c, x);
      }
    }
  }

  lemma SchemaPathsMean(catalog: Catalog, p: Path)
    ensures p in SchemaPaths(catalog) <==> exists e :: e in catalog.schemas && e.artifactPath == p
  {
    var pins := SchemaPins(catalog.schemas);
    if p in SchemaPaths(catalog) {
      var pin :| pin in pins && pin.path == p;
      var i :| 0 <= i < |pins| && pins[i] == pin;
      assert catalog.schemas[i] in catalog.schemas;
    }
    if e :| e in catalog.schemas && e.artifactPath == p {
      EntryInSchemaPaths(catalog, e);
    }
  }

  function VersionOf(e: SchemaEntry): (string, string) { (e.ref.schemaId, e.ref.version) }

  function EntryOrder(e: SchemaEntry): Key { TextKey(e.ref.schemaId) + TextKey(e.ref.version) }

  lemma EntriesAscendMeans(added: seq<SchemaEntry>)
    ensures (forall i, j | 0 <= i < j < |added| :: PairBelow(VersionOf(added[i]), VersionOf(added[j])))
       <==> Strict(added, EntryOrder)
  {
    hide PairBelow, Before, TextKey;
    forall a: SchemaEntry, b: SchemaEntry
      ensures PairBelow(VersionOf(a), VersionOf(b)) <==> Before(EntryOrder(a), EntryOrder(b))
    {
      PairOrder(VersionOf(a), VersionOf(b));
    }
  }

  function Versioned(c: Candidate): (string, string) { (c.schemaId, c.version) }

  ghost predicate VersionsAscend(cs: seq<Candidate>)
  {
    forall i, j | 0 <= i < j < |cs| :: PairBelow(Versioned(cs[i]), Versioned(cs[j]))
  }

  /** Sorting candidates by their key puts distinct versions in ascending order. */
  lemma SortedVersionsAscend(cs: seq<Candidate>)
    requires NoInputTwice(cs)
    ensures VersionsAscend(SortBy(cs, CandidateKey))
  {
    hide SortBy, CandidateKey, Before, PairBelow;
    var sorted := SortBy(cs, CandidateKey);
    InputsMean(cs);
    BundleDistinct(cs);
    SortIsStrict(cs, CandidateKey);
    SortByDistinct(cs, CandidateKey);
    forall i, j | 0 <= i < j < |sorted|
      ensures PairBelow(Versioned(sorted[i]), Versioned(sorted[j]))
    {
      SortByMember(cs, CandidateKey, sorted[i]);
      SortByMember(cs, CandidateKey, sorted[j]);
      var k :| 0 <= k < |cs| && cs[k] == sorted[i];
      var l :| 0 <= l < |cs| && cs[l] == sorted[j];
      assert CandidateKey(sorted[i]) != CandidateKey(sorted[j]);
      CandidateOrder(sorted[i], sorted[j]);
    }
  }

  lemma CandidateOrder(a: Candidate, b: Candidate)
    requires Versioned(a) != Versioned(b)
    ensures Before(CandidateKey(a), CandidateKey(b)) <==> PairBelow(Versioned(a), Versioned(b))
  {
    hide Before, Below, TextKey;
    var x, y := TextKey(a.version) + TextKey(a.artifactPath), TextKey(b.version) + TextKey(b.artifactPath);
    TextKeyOrder(a.schemaId, x, b.schemaId, y);
    TextKeyOrder(a.version, TextKey(a.artifactPath), b.version, TextKey(b.artifactPath));
  }

  lemma {:induction false} FreshAscend(catalog: Catalog, cs: seq<Candidate>)
    requires VersionsAscend(cs)
    ensures VersionsAscend(Fresh(catalog, cs))
  {
    hide PairBelow, Published;
    if cs != [] {
      FreshAscend(catalog, cs[1..]);
      forall c | c in Fresh(catalog, cs[1..])
        ensures PairBelow(Versioned(cs[0]), Versioned(c))
      {
        FreshMember(catalog, cs[1..], c);
        var i :| 0 <= i < |cs[1..]| && cs[1..][i] == c;
        assert cs[i + 1] == c;
      }
    }
  }

  lemma PlannedEntries(w: World, catalog: Catalog, cs: seq<Candidate>)
    requires NoInputTwice(cs) && forall c | c in cs :: Addressed(c)
    ensures NewEntries(w, catalog, cs, Entries(w, Fresh(catalog, SortBy(cs, CandidateKey))))
  {
    hide SortBy, Published, HasVersion, PlainEntry, EntryOf, PairBelow, Addressed, CandidateKey;
    var sorted := SortBy(cs, CandidateKey);
    var news := Fresh(catalog, sorted);
    var added := Entries(w, news);
    SortedVersionsAscend(cs);
    FreshAscend(catalog, sorted);
    forall e: SchemaEntry
      ensures e in added <==> exists c :: c in cs && !HasVersion(catalog, c) && PlainEntry(w, e, c)
    {
      PlannedEntry(w, catalog, cs, e);
    }
    forall i, j | 0 <= i < j < |added|
      ensures PairBelow(VersionOf(added[i]), VersionOf(added[j]))
    {
      EntryVersion(w, news[i]);
      EntryVersion(w, news[j]);
    }
  }

  lemma EntryVersion(w: World, c: Candidate)
    ensures VersionOf(EntryOf(w, c)) == Versioned(c)
  {
  }

  lemma PlannedEntry(w: World, catalog: Catalog, cs: seq<Candidate>, e: SchemaEntry)
    requires forall c | c in cs :: Addressed(c)
    ensures e in Entries(w, Fresh(catalog, SortBy(cs, CandidateKey))) <==>
              exists c :: c in cs && !HasVersion(catalog, c) && PlainEntry(w, e, c)
  {
    hide SortBy, Published, HasVersion, PlainEntry, EntryOf, Addressed, CandidateKey;
    var sorted := SortBy(cs, CandidateKey);
    var news := Fresh(catalog, sorted);
    var added := Entries(w, news);
    forall c: Candidate
      ensures c in news <==> c in cs && !HasVersion(catalog, c)
      ensures Addressed(c) ==> (e == EntryOf(w, c) <==> PlainEntry(w, e, c))
    {
      FreshMember(catalog, sorted, c);
      SortByMember(cs, CandidateKey, c);
      LookupMeans(catalog, c);
      if Addressed(c) {
        EntryMeans(w, e, c);
      }
    }
    if e in added {
      var i :| 0 <= i < |added| && added[i] == e;
      assert news[i] in news;
    }
    if c :| c in cs && !HasVersion(catalog, c) && PlainEntry(w, e, c) {
      var i :| 0 <= i < |news| && news[i] == c;
      assert added[i] == e;
    }
  }

  /** What `NewEntries` says determines the appended entries. */
  lemma NewEntriesMeans(w: World, catalog: Catalog, cs: seq<Candidate>, added: seq<SchemaEntry>)
    requires NoInputTwice(cs) && forall c | c in cs :: Addressed(c)
    ensures NewEntries(w, catalog, cs, added) <==> added == Entries(w, Fresh(catalog, SortBy(cs, CandidateKey)))
  {
    hide SortBy, HasVersion, PlainEntry, PairBelow, Before, Entries, Fresh, NoInputTwice, Addressed;
    PlannedEntries(w, catalog, cs);
    var planned := Entries(w, Fresh(catalog, SortBy(cs, CandidateKey)));
    if NewEntries(w, catalog, cs, added) {
      EntriesAscendMeans(added);
      EntriesAscendMeans(planned);
      StrictUnique(added, planned, EntryOrder);
    }
  }

  lemma PlannedFiles(cs: seq<Candidate>)
    requires NoInputTwice(cs)
    ensures BundleFiles(cs, SortBy(BundleArtifacts(SortBy(cs, CandidateKey)), PathKey))
  {
    hide SortBy, CandidateKey, NoInputTwice, Strict, Before;
    var sorted := SortBy(cs, CandidateKey);
    var artifacts := BundleArtifacts(sorted);
    InputsMean(cs);
    BundleDistinct(cs);
    DistinctPathKeys(artifacts);
    SortIsStrict(artifacts, PathKey);
    PathsAscendMeans(SortBy(artifacts, PathKey));
    forall a: Artifact
      ensures a in SortBy(artifacts, PathKey) <==>
                exists c :: c in cs && a == Artifact(c.artifactPath, c.contents, "json-schema")
    {
      SortByMember(artifacts, PathKey, a);
      if a in artifacts {
        var i :| 0 <= i < |artifacts| && artifacts[i] == a;
        SortByMember(cs, CandidateKey, sorted[i]);
      }
      if c :| c in cs && a == Artifact(c.artifactPath, c.contents, "json-schema") {
        SortByMember(cs, CandidateKey, c);
        var i :| 0 <= i < |sorted| && sorted[i] == c;
        assert artifacts[i] == a;
      }
    }
  }

  lemma BundleFilesMean(cs: seq<Candidate>, artifacts: seq<Artifact>)
    requires NoInputTwice(cs)
    ensures BundleFiles(cs, artifacts) <==> artifacts == SortBy(BundleArtifacts(SortBy(cs, CandidateKey)), PathKey)
  {
    hide SortBy, NoInputTwice, PathsAscend, Strict, BundleArtifacts;
    PlannedFiles(cs);
    var planned := SortBy(BundleArtifacts(SortBy(cs, CandidateKey)), PathKey);
    if BundleFiles(cs, artifacts) {
      PathsAscendMeans(artifacts);
      PathsAscendMeans(planned);
      StrictUnique(artifacts, planned, PathKey);
    }
  }

  function PlannedBundle(w: World, d: Disk, cs: seq<Candidate>): Tx
  {
    var artifacts := SortBy(BundleArtifacts(SortBy(cs, CandidateKey)), PathKey);
    var target := BundleTarget(w, d.catalog, cs);
    Tx(d.catalog, target, artifacts, MarkerFor(w, artifacts, d.catalog, target), false)
  }

  lemma BundleTxMeans(w: World, d: Disk, cs: seq<Candidate>, tx: Tx)
    requires NoInputTwice(cs) && forall c | c in cs :: Addressed(c)
    ensures BundleTx(w, d, cs, tx) <==> tx == PlannedBundle(w, d, cs)
  {
    hide SortBy, NoInputTwice, NewEntries, BundleFiles, MarkerSays, MarkerFor, BundleArtifacts, Fresh, Entries,
         Addressed;
    var n := |d.catalog.schemas|;
    var planned := PlannedBundle(w, d, cs);
    BundleFilesMean(cs, tx.artifacts);
    MarkerSaysMeans(w, tx);
    NewEntriesMeans(w, d.catalog, cs, planned.target.schemas[n..]);
    if |tx.target.schemas| >= n {
      NewEntriesMeans(w, d.catalog, cs, tx.target.schemas[n..]);
      assert tx.target.schemas == tx.target.schemas[..n] + tx.target.schemas[n..];
    }
    assert planned.target.schemas[..n] == d.catalog.schemas;
  }

  lemma NothingNew(catalog: Catalog, cs: seq<Candidate>)
    ensures Fresh(catalog, SortBy(cs, CandidateKey)) == [] <==> forall c | c in cs :: HasVersion(catalog, c)
  {
    hide SortBy, Fresh, Published, HasVersion;
    var news := Fresh(catalog, SortBy(cs, CandidateKey));
    forall c: Candidate
      ensures c in news <==> c in cs && !HasVersion(catalog, c)
    {
      FreshMember(catalog, SortBy(cs, CandidateKey), c);
      SortByMember(cs, CandidateKey, c);
      LookupMeans(catalog, c);
    }
    if news != [] {
      assert news[0] in news;
    }
  }

  /** A bundle with an item out of place, in conflict, or colliding, or on a refused tree, is refused. */
  lemma BundleUnready(w: World, d: Disk, cs: seq<Candidate>)
    requires !BundleReady(w, d, cs)
    ensures MakePlan(w, d, Bundle(cs)) == Refuse
  {
    hide RegistryOK, NoInputTwice, UniqueInputs, ItemReady, BundleItemOK, BundleTarget, SortBy, BundleArtifacts, Fresh;
    InputsMean(cs);
    if RegistryOK(w, d) {
      forall c: Candidate
        ensures BundleItemOK(w, d, c) <==> ItemReady(w, d, c)
      {
        ItemMeans(w, d, c);
      }
    }
  }

  lemma BundleReadyMeans(w: World, d: Disk, cs: seq<Candidate>)
    requires BundleReady(w, d, cs)
    ensures cs != [] && UniqueInputs(cs) && RegistryOK(w, d) && BundleItemsOK(w, d, cs)
    ensures forall c | c in cs :: Addressed(c)
  {
    hide RegistryOK, NoInputTwice, UniqueInputs, BundleItemOK, SchemaPlace, HasVersion, PlainEntry, SameVersion;
    InputsMean(cs);
    forall c | c in cs
      ensures BundleItemOK(w, d, c)
    {
      ItemMeans(w, d, c);
    }
  }

  /** Every published item of a ready bundle is on disk as it would be written. */
  lemma NothingToWrite(w: World, d: Disk, cs: seq<Candidate>)
    requires BundleReady(w, d, cs) && forall c | c in cs :: HasVersion(d.catalog, c)
    ensures d.files + Contents(PlannedBundle(w, d, cs).artifacts) == d.files
    ensures PlannedBundle(w, d, cs).target == d.catalog
  {
    hide RegistryOK, SortBy, BundleArtifacts, Fresh, MarkerFor, SchemaPlace, NoInputTwice, Addressed;
    var artifacts := PlannedBundle(w, d, cs).artifacts;
    NothingNew(d.catalog, cs);
    assert Entries(w, []) == [] && d.catalog.schemas + [] == d.catalog.schemas;
    PlannedFiles(cs);
    PathsAscendMeans(artifacts);
    forall a | a in artifacts
      ensures a.path in d.files && d.files[a.path] == a.contents
    {
      var c :| c in cs && a == Artifact(c.artifactPath, c.contents, "json-schema");
      var e :| e in d.catalog.schemas && SameVersion(e, c);
      assert PlainEntry(w, e, c);
    }
    SameContents(d.files, artifacts);
  }

  lemma {:induction false} SameContents(files: Files, artifacts: seq<Artifact>)
    requires forall a | a in artifacts :: a.path in files && files[a.path] == a.contents
    ensures files + Contents(artifacts) == files
  {
    if artifacts == [] {
      assert files + map[] == files;
    } else {
      var n := |artifacts| - 1;
      assert artifacts == artifacts[..n] + [artifacts[n]];
      SameContents(files, artifacts[..n]);
    }
  }

  /** A bundle of published versions only is unchanged; the tree must stand without a marker. */
  lemma BundleReplays(w: World, d: Disk, cs: seq<Candidate>)
    requires BundleReady(w, d, cs) && forall c | c in cs :: HasVersion(d.catalog, c)
    ensures MakePlan(w, d, Bundle(cs)) == if RegistryOK(w, Disk(d.catalog, d.files, None)) then Replay else Refuse
  {
    hide RegistryOK, NoInputTwice, UniqueInputs, BundleItemsOK, BundleTarget, SortBy, BundleArtifacts, Fresh,
         HasVersion, Contents, BundleReady;
    BundleReadyMeans(w, d, cs);
    NothingNew(d.catalog, cs);
    NothingToWrite(w, d, cs);
  }

  /**
   * With a new version in it a bundle is published, as exactly this transaction, if and only if the
   * resulting snapshot is valid.
   */
  lemma BundleFresh(w: World, d: Disk, cs: seq<Candidate>, tx: Tx)
    requires BundleReady(w, d, cs) && exists c :: c in cs && !HasVersion(d.catalog, c)
    ensures MakePlan(w, d, Bundle(cs)) == Publish(tx) <==>
              BundleTx(w, d, cs, tx) && RegistryOK(w, Disk(tx.target, d.files + Contents(tx.artifacts), None))
    ensures !MakePlan(w, d, Bundle(cs)).Replay?
  {
    hide RegistryOK, NoInputTwice, UniqueInputs, BundleItemsOK, BundleTarget, SortBy, BundleArtifacts, Fresh,
         HasVersion, Contents, BundleTx, MarkerFor;
    BundleReadyMeans(w, d, cs);
    NothingNew(d.catalog, cs);
    BundleTxMeans(w, d, cs, tx);
  }
}
