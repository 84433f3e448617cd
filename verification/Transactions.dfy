/** What a prepared transaction guarantees about the tree it will be published into. */
module Transactions {
  import opened Text
  import opened Ordering
  import opened Catalogs
  import opened Registry
  import opened Planning

  function ArtifactPins(w: World, artifacts: seq<Artifact>): (pins: seq<Pin>)
  {
    seq(|artifacts|, i requires 0 <= i < |artifacts| => Pin(artifacts[i].path, w.sha(artifacts[i].contents)))
  }

  /** The marker names exactly the transaction's artifacts and both catalog digests. */
  predicate MarkerMatches(w: World, tx: Tx)
  {
    && MarkerShape(tx.marker)
    && MarkerPins(tx.marker) == ArtifactPins(w, tx.artifacts)
    && tx.marker.originalSha == CatalogDigest(w, tx.original)
    && tx.marker.newSha == CatalogDigest(w, tx.target)
  }

  /** Files after every artifact is in place. */
  function FullFiles(files: Files, tx: Tx): (r: Files) { files + Contents(tx.artifacts) }

  function PublishedDisk(d: Disk, tx: Tx): (r: Disk) { Disk(tx.target, FullFiles(d.files, tx), None) }

  /** A file on disk that the catalog does not name. */
  predicate IsOrphan(d: Disk, p: Path) { p in d.files && p !in CatalogPaths(d.catalog) }

  /** After `_recover_publication_marker`: a marker survives only for an orphan it names. */
  ghost predicate Recovered(w: World, d: Disk)
  {
    d.marker.Some? ==>
      && CatalogDigest(w, d.catalog) == d.marker.value.originalSha
      && exists p :: p in MarkerPaths(d.marker.value) && IsOrphan(d, p)
  }

  /** Every orphan is named, with its exact digest, by the marker on disk. */
  ghost predicate Covered(w: World, d: Disk)
  {
    && (forall p | IsOrphan(d, p) ::
          d.marker.Some? && Pin(p, w.sha(d.files[p])) in MarkerPins(d.marker.value))
    && (d.marker.Some? ==>
          CatalogDigest(w, d.catalog) in {d.marker.value.originalSha, d.marker.value.newSha})
  }

  /** `has_unpublished_artifact` of the rollback: one of the transaction's own artifacts is an orphan. */
  predicate HasUnpublished(d: Disk, artifacts: seq<Artifact>, cataloged: set<Path>)
  {
    exists a | a in artifacts :: a.path !in cataloged && a.path in d.files
  }

  /** Every scanned file a catalog pins is one of its schemas. */
  predicate ScannedAreSchemas(c: Catalog)
  {
    forall p | p in CatalogPaths(c) && IsScanned(p) :: p in SchemaPaths(c)
  }

  /** A tree the registry accepts, whose marker (if any) separates two catalogs. */
  predicate TreeOK(w: World, d: Disk)
  {
    && RegistryOK(w, d)
    && ScannedAreSchemas(d.catalog)
    && (d.marker.Some? ==> d.marker.value.originalSha != d.marker.value.newSha)
  }

  /** Without a marker the registry's own checks say all of `TreeOK`. */
  lemma QuiescentTreeOK(w: World, d: Disk)
    requires RegistryOK(w, d) && d.marker.None?
    ensures TreeOK(w, d)
  {
  }

  /** What preparation and the opening checks of `_publish_artifacts` establish. */
  ghost predicate TxFits(w: World, d: Disk, tx: Tx)
  {
    && TreeOK(w, d)
    && Recovered(w, d)
    && tx.original == d.catalog
    && tx.artifacts != []
    && DistinctPaths(tx.artifacts)
    && Compatible(d.files, tx.artifacts)
    && MarkerMatches(w, tx)
    && CatalogDigest(w, tx.original) != CatalogDigest(w, tx.target)
    && CatalogPaths(tx.target) == CatalogPaths(tx.original) + ArtifactPaths(tx.artifacts)
    && SchemaPaths(tx.target) <= SchemaPaths(tx.original) + ArtifactPaths(tx.artifacts)
    && RegistryOK(w, PublishedDisk(d, tx))
    && (tx.graph ==> GraphRuns(w, tx.target, FullFiles(d.files, tx)))
  }

  /** The checks `_publish_artifacts` makes before its `try`. */
  predicate Admits(w: World, d: Disk, tx: Tx)
  {
    && tx.artifacts != []
    && DistinctPaths(tx.artifacts)
    && (forall a | a in tx.artifacts :: a.role != "")
    && Compatible(d.files, tx.artifacts)
    && d.catalog == tx.original
    && RegistryOK(w, d)
  }

  // ---------------------------------------------------------------- single

  lemma GrownCatalogDiffers(w: World, a: Catalog, b: Catalog)
    requires CollisionFree(w) && |a.schemas| < |b.schemas|
    ensures CatalogDigest(w, a) != CatalogDigest(w, b)
  {
  }

  lemma SnapshotWithoutMarker(w: World, d: Disk, target: Catalog, files: Files)
    requires Recovered(w, d) && CatalogDigest(w, d.catalog) != CatalogDigest(w, target)
    requires RegistryOK(w, Disk(target, files, d.marker))
    ensures RegistryOK(w, Disk(target, files, None))
  {
  }

  lemma SingleTargetPaths(w: World, catalog: Catalog, c: Candidate)
    ensures CatalogPaths(Catalog(catalog.schemas + [EntryOf(w, c)], catalog.upcasters))
         == CatalogPaths(catalog) + {c.artifactPath}
    ensures SchemaPaths(Catalog(catalog.schemas + [EntryOf(w, c)], catalog.upcasters))
         == SchemaPaths(catalog) + {c.artifactPath}
  {
    var e := EntryOf(w, c);
    PinsAppend(catalog, [e], []);
    assert catalog.upcasters + [] == catalog.upcasters;
    assert Pins(Catalog([e], [])) == [SchemaPin(e)];
    assert PathsOf([SchemaPin(e)]) == {c.artifactPath};
  }

  lemma SingleShape(w: World, d: Disk, c: Candidate)
    requires PlanSingle(w, d, c).Publish?
    ensures var tx := PlanSingle(w, d, c).tx;
            && tx.original == d.catalog
            && tx.target == Catalog(d.catalog.schemas + [EntryOf(w, c)], d.catalog.upcasters)
            && tx.artifacts == [SchemaArtifact(c, "json-schema")]
            && tx.marker == SingleMarker(c.artifactPath, w.sha(c.contents), CatalogDigest(w, d.catalog),
                                         CatalogDigest(w, tx.target))
            && !tx.graph
            && RegistryOK(w, Disk(tx.target, FullFiles(d.files, tx), d.marker))
  {
  }

  lemma SingleTxFits(w: World, d: Disk, c: Candidate, tx: Tx)
    requires TreeOK(w, d) && Recovered(w, d) && Admits(w, d, tx)
    requires CatalogDigest(w, d.catalog) != CatalogDigest(w, tx.target)
    requires tx.target == Catalog(d.catalog.schemas + [EntryOf(w, c)], d.catalog.upcasters)
    requires tx.artifacts == [SchemaArtifact(c, "json-schema")] && !tx.graph
    requires tx.marker == SingleMarker(c.artifactPath, w.sha(c.contents), CatalogDigest(w, d.catalog),
                                       CatalogDigest(w, tx.target))
    requires RegistryOK(w, PublishedDisk(d, tx))
    ensures TxFits(w, d, tx)
  {
    hide RegistryOK, TreeOK, CatalogPaths, SchemaPaths;
    SingleTargetPaths(w, d.catalog, c);
    assert ArtifactPaths(tx.artifacts) == {c.artifactPath};
    assert MarkerPins(tx.marker) == ArtifactPins(w, tx.artifacts);
  }

  lemma SinglePlanFits(w: World, d: Disk, c: Candidate)
    requires TreeOK(w, d) && Recovered(w, d)
    requires PlanSingle(w, d, c).Publish? && Admits(w, d, PlanSingle(w, d, c).tx)
    requires CatalogDigest(w, d.catalog) != CatalogDigest(w, PlanSingle(w, d, c).tx.target)
    ensures TxFits(w, d, PlanSingle(w, d, c).tx)
  {
    var tx := PlanSingle(w, d, c).tx;
    SingleShape(w, d, c);
    SnapshotWithoutMarker(w, d, tx.target, FullFiles(d.files, tx));
    SingleTxFits(w, d, c, tx);
  }

  // ---------------------------------------------------------------- bundle

  lemma {:induction false} FreshMember(catalog: Catalog, cs: seq<Candidate>, c: Candidate)
    ensures c in Fresh(catalog, cs) <==> c in cs && !Published(catalog, c)
  {
    if cs != [] {
      FreshMember(catalog, cs[1..], c);
      assert cs == [cs[0]] + cs[1..];
    }
  }

  lemma MarkerForMatches(w: World, tx: Tx)
    requires DistinctPaths(tx.artifacts) && tx.artifacts != []
    requires tx.marker == MarkerFor(w, tx.artifacts, tx.original, tx.target)
    ensures MarkerMatches(w, tx)
  {
  }

  lemma BundleDistinct(cs: seq<Candidate>)
    requires UniqueInputs(cs)
    ensures DistinctKeys(cs, CandidateKey)
    ensures DistinctPaths(BundleArtifacts(SortBy(cs, CandidateKey)))
  {
    forall i, j | 0 <= i < j < |cs|
      ensures CandidateKey(cs[i]) != CandidateKey(cs[j])
    {
      CandidateKeyInjective(cs[i], cs[j]);
    }
    SortByDistinct(cs, CandidateKey);
    var sorted := SortBy(cs, CandidateKey);
    forall i, j | 0 <= i < j < |sorted|
      ensures sorted[i].artifactPath != sorted[j].artifactPath
    {
      assert CandidateKey(sorted[i]) != CandidateKey(sorted[j]);
      SortByMember(cs, CandidateKey, sorted[i]);
      SortByMember(cs, CandidateKey, sorted[j]);
    }
  }

  lemma CandidateKeyInjective(a: Candidate, b: Candidate)
    ensures CandidateKey(a) == CandidateKey(b) ==>
              (a.schemaId, a.version, a.artifactPath) == (b.schemaId, b.version, b.artifactPath)
  {
    if CandidateKey(a) == CandidateKey(b) {
      TextKeyPrefixFree(a.schemaId, TextKey(a.version) + TextKey(a.artifactPath),
                        b.schemaId, TextKey(b.version) + TextKey(b.artifactPath));
      TextKeyPrefixFree(a.version, TextKey(a.artifactPath), b.version, TextKey(b.artifactPath));
      TextKeyInjective(a.artifactPath, b.artifactPath);
    }
  }

  lemma EntryPaths(w: World, cs: seq<Candidate>)
    ensures CatalogPaths(Catalog(Entries(w, cs), [])) == CandidatePaths(cs)
    ensures SchemaPaths(Catalog(Entries(w, cs), [])) == CandidatePaths(cs)
  {
    var pins := Pins(Catalog(Entries(w, cs), []));
    assert pins == SchemaPins(Entries(w, cs));
    forall c | c in cs
      ensures c.artifactPath in PathsOf(pins)
    {
      var i :| 0 <= i < |cs| && cs[i] == c;
      assert pins[i] == SchemaPin(EntryOf(w, c));
    }
  }

  lemma AddedOrPublished(w: World, d: Disk, cs: seq<Candidate>, c: Candidate)
    requires BundleItemsOK(w, d, cs)
    ensures c in Fresh(d.catalog, SortBy(cs, CandidateKey)) <==> c in cs && !Published(d.catalog, c)
    ensures c in cs && Published(d.catalog, c) ==> c.artifactPath in CatalogPaths(d.catalog)
  {
    FreshMember(d.catalog, SortBy(cs, CandidateKey), c);
    SortByMember(cs, CandidateKey, c);
    if c in cs && Published(d.catalog, c) {
      var i :| 0 <= i < |cs| && cs[i] == c;
      assert BundleItemOK(w, d, cs[i]);
      EntryInSchemaPaths(d.catalog, EntryOf(w, c));
      SchemaPathsInCatalog(d.catalog);
    }
  }

  function CandidatePaths(cs: seq<Candidate>): (paths: set<Path>) { set c | c in cs :: c.artifactPath }

  /** Published candidates are already catalogued, so all candidates and the fresh ones add the same paths. */
  lemma AddedPaths(w: World, d: Disk, cs: seq<Candidate>)
    requires BundleItemsOK(w, d, cs)
    ensures var added := Fresh(d.catalog, SortBy(cs, CandidateKey));
            && CatalogPaths(d.catalog) + CandidatePaths(added) == CatalogPaths(d.catalog) + CandidatePaths(cs)
            && CandidatePaths(added) <= CandidatePaths(cs)
  {
    hide BundleItemsOK, CatalogPaths, Fresh, Published;
    forall c: Candidate
      ensures c in Fresh(d.catalog, SortBy(cs, CandidateKey)) ==> c in cs
      ensures c in cs ==> c in Fresh(d.catalog, SortBy(cs, CandidateKey)) || c.artifactPath in CatalogPaths(d.catalog)
    {
      AddedOrPublished(w, d, cs, c);
    }
  }

  lemma BundlePaths(w: World, d: Disk, cs: seq<Candidate>)
    requires BundleItemsOK(w, d, cs)
    ensures CatalogPaths(BundleTarget(w, d.catalog, cs))
         == CatalogPaths(d.catalog) + ArtifactPaths(BundleArtifacts(SortBy(cs, CandidateKey)))
    ensures SchemaPaths(BundleTarget(w, d.catalog, cs))
         <= SchemaPaths(d.catalog) + ArtifactPaths(BundleArtifacts(SortBy(cs, CandidateKey)))
  {
    hide BundleItemsOK, CatalogPaths, SchemaPaths, Fresh, ArtifactPaths;
    var added := Fresh(d.catalog, SortBy(cs, CandidateKey));
    PinsAppend(d.catalog, Entries(w, added), []);
    assert d.catalog.upcasters + [] == d.catalog.upcasters;
    EntryPaths(w, added);
    AddedPaths(w, d, cs);
    BundleArtifactPaths(cs);
  }

  lemma EntryInSchemaPaths(catalog: Catalog, e: SchemaEntry)
    requires e in catalog.schemas
    ensures SchemaPin(e) in SchemaPins(catalog.schemas) && e.artifactPath in SchemaPaths(catalog)
  {
    var i :| 0 <= i < |catalog.schemas| && catalog.schemas[i] == e;
    assert SchemaPins(catalog.schemas)[i] == SchemaPin(e);
  }

  lemma BundleArtifactPaths(cs: seq<Candidate>)
    ensures ArtifactPaths(BundleArtifacts(SortBy(cs, CandidateKey))) == CandidatePaths(cs)
  {
    var sorted := SortBy(cs, CandidateKey);
    var artifacts := BundleArtifacts(sorted);
    forall c | c in cs
      ensures c.artifactPath in ArtifactPaths(artifacts)
    {
      SortByMember(cs, CandidateKey, c);
      var i :| 0 <= i < |sorted| && sorted[i] == c;
      assert artifacts[i] == SchemaArtifact(c, "json-schema");
    }
    forall a | a in artifacts
      ensures exists c :: c in cs && c.artifactPath == a.path
    {
      var i :| 0 <= i < |artifacts| && artifacts[i] == a;
      SortByMember(cs, CandidateKey, sorted[i]);
    }
  }

  lemma BundlePlanFits(w: World, d: Disk, cs: seq<Candidate>)
    requires TreeOK(w, d) && Recovered(w, d)
    requires PlanBundle(w, d, cs).Publish? && Admits(w, d, PlanBundle(w, d, cs).tx)
    requires CatalogDigest(w, d.catalog) != CatalogDigest(w, PlanBundle(w, d, cs).tx.target)
    ensures TxFits(w, d, PlanBundle(w, d, cs).tx)
  {
    var tx := PlanBundle(w, d, cs).tx;
    assert CatalogPaths(tx.target) == CatalogPaths(tx.original) + ArtifactPaths(tx.artifacts)
        && SchemaPaths(tx.target) <= SchemaPaths(tx.original) + ArtifactPaths(tx.artifacts) by {
      BundleDistinct(cs);
      SortedArtifacts(BundleArtifacts(SortBy(cs, CandidateKey)));
      BundlePaths(w, d, cs);
    }
    assert MarkerMatches(w, tx) by {
      MarkerForMatches(w, tx);
    }
  }

  // ---------------------------------------------------------------- evolution

  lemma AddArtifactKeeps(artifacts: seq<Artifact>, a: Artifact)
    requires DistinctPaths(artifacts) && AddArtifact(artifacts, a).Some?
    ensures var r := AddArtifact(artifacts, a).value;
            DistinctPaths(r) && ArtifactPaths(r) == ArtifactPaths(artifacts) + {a.path}
  {
  }

  lemma {:induction false} AddAllKeeps(artifacts: seq<Artifact>, more: seq<Artifact>)
    requires DistinctPaths(artifacts) && AddAll(artifacts, more).Some?
    ensures var r := AddAll(artifacts, more).value;
            DistinctPaths(r) && ArtifactPaths(r) == ArtifactPaths(artifacts) + ArtifactPaths(more)
    decreases |more|
  {
    if more != [] {
      AddArtifactKeeps(artifacts, more[0]);
      AddAllKeeps(AddArtifact(artifacts, more[0]).value, more[1..]);
      assert more == [more[0]] + more[1..];
    }
  }

  function GoldenPaths(vs: set<GoldenVector>): (paths: set<Path>)
  {
    (set g | g in vs :: g.inputPath) + (set g | g in vs :: g.outputPath)
  }

  lemma PinPair(x: Pin, y: Pin)
    ensures PathsOf([x, y]) == {x.path, y.path}
  {
  }

  lemma {:induction false} VectorPinPaths(vs: seq<GoldenVector>)
    ensures PathsOf(VectorPins(vs)) == GoldenPaths(set g | g in vs)
  {
    if vs != [] {
      hide PathsOf;
      VectorPinPaths(vs[1..]);
      var x, y := Pin(vs[0].inputPath, vs[0].inputSha), Pin(vs[0].outputPath, vs[0].outputSha);
      PathsOfAppend([x, y], VectorPins(vs[1..]));
      PinPair(x, y);
      assert (set g | g in vs) == {vs[0]} + (set g | g in vs[1..]);
    } else {
      assert PathsOf([]) == {};
    }
  }

  lemma ArtifactPathsAppend(a: seq<Artifact>, b: seq<Artifact>)
    ensures ArtifactPaths(a + b) == ArtifactPaths(a) + ArtifactPaths(b)
  {
  }

  lemma PairPaths(x: Artifact, y: Artifact)
    ensures ArtifactPaths([x, y]) == {x.path, y.path}
  {
  }

  lemma GoldenPathsAdd(g: GoldenVector, vs: set<GoldenVector>)
    ensures GoldenPaths({g} + vs) == {g.inputPath, g.outputPath} + GoldenPaths(vs)
  {
  }

  lemma {:induction false} VectorArtifactPaths(w: World, vs: seq<VectorInput>)
    ensures ArtifactPaths(VectorArtifacts(vs)) == GoldenPaths(set g | g in Goldens(w, vs))
  {
    if vs != [] {
      hide ArtifactPaths, GoldenPaths;
      VectorArtifactPaths(w, vs[1..]);
      var x := Artifact(vs[0].input.path, vs[0].input.contents, "UPCASTER_GOLDEN_INPUT");
      var y := Artifact(vs[0].output.path, vs[0].output.contents, "UPCASTER_GOLDEN_OUTPUT");
      ArtifactPathsAppend([x, y], VectorArtifacts(vs[1..]));
      PairPaths(x, y);
      assert Goldens(w, vs) == [Golden(w, vs[0])] + Goldens(w, vs[1..]);
      assert (set g | g in Goldens(w, vs)) == {Golden(w, vs[0])} + (set g | g in Goldens(w, vs[1..]));
      GoldenPathsAdd(Golden(w, vs[0]), set g | g in Goldens(w, vs[1..]));
    } else {
      assert Goldens(w, vs) == [];
    }
  }

  /** An upcaster pins exactly the paths its edge brings. */
  lemma UpcasterPaths(w: World, e: Edge, target: SchemaRef)
    ensures PathsOf(UpcasterPins(UpcasterOf(w, e, target))) == ArtifactPaths(EdgeArtifacts(e))
  {
    hide PathsOf, ArtifactPaths, GoldenPaths, VectorPins, VectorArtifacts;
    var u := UpcasterOf(w, e, target);
    var goldens := Goldens(w, e.vectors);
    forall g: GoldenVector
      ensures g in u.vectors <==> g in goldens
    {
      SortByMember(goldens, GoldenKey, g);
    }
    assert (set g | g in u.vectors) == (set g | g in goldens);
    VectorPinPaths(u.vectors);
    VectorArtifactPaths(w, e.vectors);
    PathsOfAppend([Pin(u.codePath, u.codeSha), Pin(u.runtimePath, u.runtimeSha)], VectorPins(u.vectors));
    PinPair(Pin(u.codePath, u.codeSha), Pin(u.runtimePath, u.runtimeSha));
    var x := Artifact(e.code.path, e.code.contents, "UPCASTER_CODE");
    var y := Artifact(e.runtime.path, e.runtime.contents, "UPCASTER_RUNTIME");
    ArtifactPathsAppend([x, y], VectorArtifacts(e.vectors));
    PairPaths(x, y);
  }

  lemma {:induction false} AllUpcasterPaths(w: World, edges: seq<Edge>, target: SchemaRef)
    ensures PathsOf(AllUpcasterPins(Upcasters(w, edges, target))) == ArtifactPaths(AllEdgeArtifacts(edges))
  {
    if edges != [] {
      hide UpcasterPins, PathsOf, ArtifactPaths, EdgeArtifacts;
      var us := Upcasters(w, edges, target);
      AllUpcasterPaths(w, edges[1..], target);
      UpcasterPaths(w, edges[0], target);
      assert us[1..] == Upcasters(w, edges[1..], target);
      PathsOfAppend(UpcasterPins(us[0]), AllUpcasterPins(us[1..]));
      ArtifactPathsAppend(EdgeArtifacts(edges[0]), AllEdgeArtifacts(edges[1..]));
    }
  }

  lemma EvolutionPaths(w: World, catalog: Catalog, target: Candidate, edges: seq<Edge>)
    ensures CatalogPaths(EvolutionTarget(w, catalog, target, edges))
         == CatalogPaths(catalog) + {target.artifactPath} + ArtifactPaths(AllEdgeArtifacts(SortBy(edges, EdgeKey)))
    ensures SchemaPaths(EvolutionTarget(w, catalog, target, edges)) == SchemaPaths(catalog) + {target.artifactPath}
  {
    hide AllUpcasterPins, ArtifactPaths, EdgeArtifacts;
    var sorted := SortBy(edges, EdgeKey);
    var e := TargetEntry(w, target, edges);
    var us := Upcasters(w, sorted, CandidateRef(w, target));
    PinsAppend(catalog, [e], us);
    AllUpcasterPaths(w, sorted, CandidateRef(w, target));
    PathsOfAppend(SchemaPins([e]), AllUpcasterPins(us));
    assert SchemaPins([e]) == [SchemaPin(e)];
    assert PathsOf([SchemaPin(e)]) == {target.artifactPath};
  }

  lemma CollectedArtifacts(target: Candidate, edges: seq<Edge>, artifacts: seq<Artifact>)
    requires AddAll([SchemaArtifact(target, "SCHEMA")], AllEdgeArtifacts(SortBy(edges, EdgeKey))) == Some(artifacts)
    ensures DistinctPaths(SortBy(artifacts, PathKey))
    ensures ArtifactPaths(SortBy(artifacts, PathKey))
         == {target.artifactPath} + ArtifactPaths(AllEdgeArtifacts(SortBy(edges, EdgeKey)))
  {
    var first := [SchemaArtifact(target, "SCHEMA")];
    AddAllKeeps(first, AllEdgeArtifacts(SortBy(edges, EdgeKey)));
    SortedArtifacts(artifacts);
    assert ArtifactPaths(first) == {target.artifactPath};
  }

  lemma EvolutionShape(w: World, d: Disk, target: Candidate, edges: seq<Edge>)
    requires PlanEvolution(w, d, target, edges).Publish?
    ensures var tx := PlanEvolution(w, d, target, edges).tx;
            var collected := AddAll([SchemaArtifact(target, "SCHEMA")], AllEdgeArtifacts(SortBy(edges, EdgeKey)));
            && tx.original == d.catalog
            && tx.target == EvolutionTarget(w, d.catalog, target, edges)
            && collected.Some?
            && tx.artifacts == SortBy(collected.value, PathKey)
            && tx.marker == MarkerFor(w, tx.artifacts, tx.original, tx.target)
            && RegistryOK(w, PublishedDisk(d, tx))
            && GraphRuns(w, tx.target, FullFiles(d.files, tx))
  {
  }

  lemma EvolutionTxPaths(w: World, target: Candidate, edges: seq<Edge>, tx: Tx)
    requires tx.target == EvolutionTarget(w, tx.original, target, edges)
    requires var collected := AddAll([SchemaArtifact(target, "SCHEMA")], AllEdgeArtifacts(SortBy(edges, EdgeKey)));
             collected.Some? && tx.artifacts == SortBy(collected.value, PathKey)
    ensures CatalogPaths(tx.target) == CatalogPaths(tx.original) + ArtifactPaths(tx.artifacts)
    ensures SchemaPaths(tx.target) <= SchemaPaths(tx.original) + ArtifactPaths(tx.artifacts)
  {
    CollectedArtifacts(target, edges,
      AddAll([SchemaArtifact(target, "SCHEMA")], AllEdgeArtifacts(SortBy(edges, EdgeKey))).value);
    EvolutionPaths(w, tx.original, target, edges);
  }

  lemma EvolutionPlanFits(w: World, d: Disk, target: Candidate, edges: seq<Edge>, tx: Tx)
    requires TreeOK(w, d) && Recovered(w, d) && Admits(w, d, tx)
    requires PlanEvolution(w, d, target, edges) == Publish(tx)
    requires CatalogDigest(w, d.catalog) != CatalogDigest(w, tx.target)
    ensures TxFits(w, d, tx)
  {
    EvolutionShape(w, d, target, edges);
    EvolutionTxPaths(w, target, edges, tx);
    MarkerForMatches(w, tx);
  }

  /** Publishing always adds a schema entry, so the two catalog digests differ. */
  lemma PlanGrows(w: World, d: Disk, request: Request)
    requires CollisionFree(w) && MakePlan(w, d, request).Publish?
    ensures var tx := MakePlan(w, d, request).tx;
            && tx.original == d.catalog
            && tx.target == CatalogAfter(w, d.catalog, request)
            && tx.original.schemas <= tx.target.schemas && |tx.original.schemas| < |tx.target.schemas|
            && tx.original.upcasters <= tx.target.upcasters
            && CatalogDigest(w, d.catalog) != CatalogDigest(w, tx.target)
  {
    hide RegistryOK, SortBy, Contents, AddAll, AllEdgeArtifacts, Upcasters, TargetEntry, EntryOf, MarkerFor,
         CollisionFree, CatalogDigest;
    GrownCatalogDiffers(w, d.catalog, MakePlan(w, d, request).tx.target);
  }

  /** Every request the scripts decide to publish fits the recovered tree it was prepared on. */
  lemma PlanFits(w: World, d: Disk, request: Request)
    requires CollisionFree(w) && TreeOK(w, d) && Recovered(w, d)
    requires MakePlan(w, d, request).Publish? && Admits(w, d, MakePlan(w, d, request).tx)
    ensures TxFits(w, d, MakePlan(w, d, request).tx)
  {
    PlanGrows(w, d, request);
    match request
    case Single(c) => SinglePlanFits(w, d, c);
    case Bundle(cs) => BundlePlanFits(w, d, cs);
    case Evolution(target, edges) => EvolutionPlanFits(w, d, target, edges, MakePlan(w, d, request).tx);
  }
}
