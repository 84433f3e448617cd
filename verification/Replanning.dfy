/** Preparing the same request again: on a partly published tree, and on the published one. */
module Replanning {
  import opened Text
  import opened Ordering
  import opened Catalogs
  import opened Registry
  import opened Planning
  import opened Transactions
  import opened CrashSafety

  lemma OverlayAgain(low: Files, files: Files, over: Files)
    requires Between(low, files, low + over)
    ensures files + over == low + over
  {
  }

  /** Writing the artifacts over any intermediate tree gives the same full tree. */
  lemma FullAgain(w: World, e: Disk, tx: Tx, files: Files)
    requires DistinctPaths(tx.artifacts)
    requires Between(e.files, files, FullFiles(e.files, tx))
    ensures FullFiles(files, tx) == FullFiles(e.files, tx)
    ensures Compatible(files, tx.artifacts)
  {
    OverlayAgain(e.files, files, Contents(tx.artifacts));
    forall a | a in tx.artifacts && a.path in files
      ensures files[a.path] == a.contents
    {
      ContentsAt(tx.artifacts, a);
    }
  }

  lemma FullTwice(tx: Tx, files: Files)
    ensures FullFiles(FullFiles(files, tx), tx) == FullFiles(files, tx)
  {
  }

  // ---------------------------------------------------------------- lookups

  lemma {:induction false} FindSchemaAppend(a: seq<SchemaEntry>, b: seq<SchemaEntry>, id: string, version: string)
    ensures FindSchema(a + b, id, version)
         == if FindSchema(a, id, version).Some? then FindSchema(a, id, version) else FindSchema(b, id, version)
  {
    if a == [] {
      assert a + b == b;
    } else {
      assert (a + b)[1..] == a[1..] + b;
      FindSchemaAppend(a[1..], b, id, version);
    }
  }

  lemma {:induction false} FindUpcasterAppend(a: seq<Upcaster>, b: seq<Upcaster>, id: string)
    ensures FindUpcaster(a + b, id)
         == if FindUpcaster(a, id).Some? then FindUpcaster(a, id) else FindUpcaster(b, id)
  {
    if a == [] {
      assert a + b == b;
    } else {
      assert (a + b)[1..] == a[1..] + b;
      FindUpcasterAppend(a[1..], b, id);
    }
  }

  // ---------------------------------------------------------------- the same plan on a partial tree

  ghost predicate Partial(e: Disk, tx: Tx, d: Disk)
  {
    && d.catalog == e.catalog
    && Between(e.files, d.files, FullFiles(e.files, tx))
    && (d.marker == Some(tx.marker) || d.marker.None?)
  }

  /** What `PlanSingle` needs to publish `tx` from a tree. */
  lemma SinglePublishesIf(w: World, e: Disk, c: Candidate, tx: Tx, d: Disk)
    requires PlanSingle(w, e, c) == Publish(tx)
    requires d.catalog == e.catalog && RegistryOK(w, d)
    requires RegistryOK(w, Disk(tx.target, FullFiles(d.files, tx), d.marker))
    ensures PlanSingle(w, d, c) == Publish(tx)
  {
  }

  lemma SingleAgain(w: World, e: Disk, c: Candidate, tx: Tx, d: Disk)
    requires TxFits(w, e, tx) && PlanSingle(w, e, c) == Publish(tx)
    requires Partial(e, tx, d) && RegistryOK(w, d)
    ensures PlanSingle(w, d, c) == Publish(tx)
  {
    hide PlanSingle, RegistryOK, TreeOK, Recovered;
    FullAgain(w, e, tx, d.files);
    CommittedTreeOK(w, e, tx, Disk(tx.target, FullFiles(e.files, tx), d.marker));
    TreeIsRegistry(w, Disk(tx.target, FullFiles(e.files, tx), d.marker));
    SinglePublishesIf(w, e, c, tx, d);
  }

  lemma TreeIsRegistry(w: World, d: Disk)
    requires TreeOK(w, d)
    ensures RegistryOK(w, d)
  {
  }

  lemma BundleItemAgain(w: World, e: Disk, c: Candidate, high: Files, d: Disk)
    requires Pinned(w, e.catalog, e.files) && BundleItemOK(w, e, c)
    requires d.catalog == e.catalog && Between(e.files, d.files, high)
    ensures BundleItemOK(w, d, c)
  {
  }

  lemma BundleAgain(w: World, e: Disk, cs: seq<Candidate>, tx: Tx, d: Disk)
    requires TxFits(w, e, tx) && PlanBundle(w, e, cs) == Publish(tx)
    requires Partial(e, tx, d) && RegistryOK(w, d)
    ensures PlanBundle(w, d, cs) == Publish(tx)
  {
    hide Between, BundleItemOK;
    FullAgain(w, e, tx, d.files);
    forall i | 0 <= i < |cs|
      ensures BundleItemOK(w, d, cs[i])
    {
      BundleItemAgain(w, e, cs[i], FullFiles(e.files, tx), d);
    }
  }

  lemma EvolutionAgain(w: World, e: Disk, target: Candidate, edges: seq<Edge>, tx: Tx, d: Disk)
    requires TxFits(w, e, tx) && PlanEvolution(w, e, target, edges) == Publish(tx)
    requires Partial(e, tx, d) && RegistryOK(w, d)
    ensures PlanEvolution(w, d, target, edges) == Publish(tx)
  {
    hide Between, SortBy, AddAll, AllEdgeArtifacts, Contents, EvolutionTarget, Upcasters, TargetEntry, MarkerFor,
         RegistryOK, GraphRuns, MarkerMatches, TreeOK, Recovered;
    FullAgain(w, e, tx, d.files);
  }

  lemma PlanAgain(w: World, e: Disk, request: Request, tx: Tx, d: Disk)
    requires TxFits(w, e, tx) && MakePlan(w, e, request) == Publish(tx)
    requires Partial(e, tx, d) && RegistryOK(w, d)
    ensures MakePlan(w, d, request) == Publish(tx)
  {
    match request
    case Single(c) => SingleAgain(w, e, c, tx, d);
    case Bundle(cs) => BundleAgain(w, e, cs, tx, d);
    case Evolution(target, edges) => EvolutionAgain(w, e, target, edges, tx, d);
  }

  // ---------------------------------------------------------------- replay on the published tree

  lemma SingleReplays(w: World, e: Disk, c: Candidate, tx: Tx)
    requires TxFits(w, e, tx) && PlanSingle(w, e, c) == Publish(tx)
    ensures PlanSingle(w, PublishedDisk(e, tx), c) == Replay
  {
    hide RegistryOK, TreeOK, Recovered, MarkerMatches, CatalogPaths, SchemaPaths, Contents;
    SingleShape(w, e, c);
    FindSchemaAppend(e.catalog.schemas, [EntryOf(w, c)], c.schemaId, c.version);
    assert FindSchema([EntryOf(w, c)], c.schemaId, c.version) == Some(EntryOf(w, c));
    ContentsAt(tx.artifacts, tx.artifacts[0]);
  }

  lemma {:induction false} FindEntry(w: World, cs: seq<Candidate>, c: Candidate)
    requires c in cs
    requires forall x | x in cs && (x.schemaId, x.version) == (c.schemaId, c.version) :: x == c
    ensures FindSchema(Entries(w, cs), c.schemaId, c.version) == Some(EntryOf(w, c))
  {
    var entries := Entries(w, cs);
    if cs[0] != c {
      assert entries[1..] == Entries(w, cs[1..]);
      FindEntry(w, cs[1..], c);
    }
  }

  lemma UniqueKeys(cs: seq<Candidate>, c: Candidate)
    requires UniqueInputs(cs) && c in cs
    ensures forall x | x in cs && (x.schemaId, x.version) == (c.schemaId, c.version) :: x == c
  {
  }

  /** After publication every candidate of the bundle is found as exactly its own entry. */
  lemma BundleFinds(w: World, e: Disk, cs: seq<Candidate>, c: Candidate)
    requires UniqueInputs(cs) && c in cs && BundleItemOK(w, e, c)
    ensures FindSchema(BundleTarget(w, e.catalog, cs).schemas, c.schemaId, c.version) == Some(EntryOf(w, c))
  {
    var sorted := SortBy(cs, CandidateKey);
    var added := Fresh(e.catalog, sorted);
    FindSchemaAppend(e.catalog.schemas, Entries(w, added), c.schemaId, c.version);
    if !Published(e.catalog, c) {
      FreshMember(e.catalog, sorted, c);
      SortByMember(cs, CandidateKey, c);
      UniqueKeys(cs, c);
      forall x | x in added && (x.schemaId, x.version) == (c.schemaId, c.version)
        ensures x == c
      {
        FreshMember(e.catalog, sorted, x);
        SortByMember(cs, CandidateKey, x);
      }
      FindEntry(w, added, c);
    }
  }

  lemma {:induction false} NoneFresh(catalog: Catalog, cs: seq<Candidate>)
    requires forall c | c in cs :: Published(catalog, c)
    ensures Fresh(catalog, cs) == []
  {
    if cs != [] {
      NoneFresh(catalog, cs[1..]);
    }
  }

  lemma BundleItemReplays(w: World, e: Disk, cs: seq<Candidate>, tx: Tx, c: Candidate)
    requires DistinctPaths(tx.artifacts)
    requires tx.artifacts == SortBy(BundleArtifacts(SortBy(cs, CandidateKey)), PathKey)
    requires tx.target == BundleTarget(w, e.catalog, cs)
    requires UniqueInputs(cs) && c in cs && BundleItemOK(w, e, c)
    ensures Published(tx.target, c) && BundleItemOK(w, PublishedDisk(e, tx), c)
  {
    BundleFinds(w, e, cs, c);
    var sorted := SortBy(cs, CandidateKey);
    SortByMember(cs, CandidateKey, c);
    var i :| 0 <= i < |sorted| && sorted[i] == c;
    var a := SchemaArtifact(c, "json-schema");
    assert BundleArtifacts(sorted)[i] == a;
    SortByMember(BundleArtifacts(sorted), PathKey, a);
    ContentsAt(tx.artifacts, a);
  }

  lemma BundleFacts(w: World, e: Disk, cs: seq<Candidate>, tx: Tx)
    requires PlanBundle(w, e, cs) == Publish(tx)
    ensures cs != [] && UniqueInputs(cs)
    ensures BundleItemsOK(w, e, cs)
    ensures tx.artifacts == SortBy(BundleArtifacts(SortBy(cs, CandidateKey)), PathKey)
    ensures tx.target == BundleTarget(w, e.catalog, cs)
  {
    hide RegistryOK, BundleItemsOK, UniqueInputs, SortBy, Contents;
  }

  lemma BundleReplaysIf(w: World, d: Disk, cs: seq<Candidate>)
    requires cs != [] && UniqueInputs(cs) && RegistryOK(w, d)
    requires BundleItemsOK(w, d, cs)
    requires Fresh(d.catalog, SortBy(cs, CandidateKey)) == []
    requires var artifacts := SortBy(BundleArtifacts(SortBy(cs, CandidateKey)), PathKey);
             RegistryOK(w, Disk(d.catalog, d.files + Contents(artifacts), None))
    ensures PlanBundle(w, d, cs) == Replay
  {
    hide RegistryOK, BundleItemsOK, UniqueInputs, SortBy, Contents, BundleArtifacts, Fresh, MarkerFor;
    assert BundleTarget(w, d.catalog, cs) == d.catalog by {
      assert Entries(w, []) == [];
      assert d.catalog.schemas + [] == d.catalog.schemas;
    }
    hide BundleTarget;
  }

  lemma BundleReplays(w: World, e: Disk, cs: seq<Candidate>, tx: Tx)
    requires TxFits(w, e, tx) && PlanBundle(w, e, cs) == Publish(tx)
    ensures PlanBundle(w, PublishedDisk(e, tx), cs) == Replay
  {
    hide PlanBundle, RegistryOK, TreeOK, BundleItemOK, Recovered, UniqueInputs, Published;
    var d := PublishedDisk(e, tx);
    var sorted := SortBy(cs, CandidateKey);
    BundleFacts(w, e, cs, tx);
    forall i | 0 <= i < |cs|
      ensures Published(tx.target, cs[i]) && BundleItemOK(w, d, cs[i])
    {
      BundleItemReplays(w, e, cs, tx, cs[i]);
    }
    forall c | c in sorted
      ensures Published(tx.target, c)
    {
      SortByMember(cs, CandidateKey, c);
    }
    NoneFresh(tx.target, sorted);
    FullTwice(tx, e.files);
    BundleReplaysIf(w, d, cs);
  }

  lemma {:induction false} FindProposed(us: seq<Upcaster>, i: nat)
    requires i < |us| && forall k, l | 0 <= k < l < |us| :: us[k].id != us[l].id
    ensures FindUpcaster(us, us[i].id) == Some(us[i])
  {
  }

  lemma SortedEdgesUnique(edges: seq<Edge>)
    requires UniqueEdges(edges)
    ensures var sorted := SortBy(edges, EdgeKey);
            forall k, l | 0 <= k < l < |sorted| :: sorted[k].id != sorted[l].id
  {
    forall i, j | 0 <= i < j < |edges|
      ensures EdgeKey(edges[i]) != EdgeKey(edges[j])
    {
      TextKeyInjective(edges[i].id, edges[j].id);
    }
    SortByDistinct(edges, EdgeKey);
    var sorted := SortBy(edges, EdgeKey);
    forall k, l | 0 <= k < l < |sorted|
      ensures sorted[k].id != sorted[l].id
    {
      assert EdgeKey(sorted[k]) != EdgeKey(sorted[l]);
    }
  }

  lemma ProposedFound(w: World, catalog: Catalog, target: Candidate, edges: seq<Edge>, i: nat)
    requires UniqueEdges(edges)
    requires var proposed := Upcasters(w, SortBy(edges, EdgeKey), CandidateRef(w, target));
             i < |proposed| && FindUpcaster(catalog.upcasters, proposed[i].id).None?
    ensures var proposed := Upcasters(w, SortBy(edges, EdgeKey), CandidateRef(w, target));
            FindUpcaster(EvolutionTarget(w, catalog, target, edges).upcasters, proposed[i].id) == Some(proposed[i])
  {
    var proposed := Upcasters(w, SortBy(edges, EdgeKey), CandidateRef(w, target));
    SortedEdgesUnique(edges);
    FindProposed(proposed, i);
    FindUpcasterAppend(catalog.upcasters, proposed, proposed[i].id);
  }

  lemma InputsStillOK(w: World, e: Disk, target: Candidate, edges: seq<Edge>, d: Disk)
    requires EvolutionInputsOK(e, CandidateRef(w, target), target, edges)
    requires d.catalog == EvolutionTarget(w, e.catalog, target, edges)
    ensures EvolutionInputsOK(d, CandidateRef(w, target), target, edges)
  {
  }

  lemma TargetFound(w: World, catalog: Catalog, target: Candidate, edges: seq<Edge>)
    requires !Published(catalog, target)
    ensures FindSchema(EvolutionTarget(w, catalog, target, edges).schemas, target.schemaId, target.version)
         == Some(TargetEntry(w, target, edges))
  {
  }

  lemma EvolutionFacts(w: World, e: Disk, target: Candidate, edges: seq<Edge>, tx: Tx)
    requires PlanEvolution(w, e, target, edges) == Publish(tx)
    ensures EvolutionInputsOK(e, CandidateRef(w, target), target, edges)
    ensures !Published(e.catalog, target)
    ensures var proposed := Upcasters(w, SortBy(edges, EdgeKey), CandidateRef(w, target));
            forall i | 0 <= i < |proposed| :: FindUpcaster(e.catalog.upcasters, proposed[i].id).None?
  {
  }

  lemma EvolutionReplaysIf(w: World, d: Disk, target: Candidate, edges: seq<Edge>, artifacts: seq<Artifact>)
    requires RegistryOK(w, d) && EvolutionInputsOK(d, CandidateRef(w, target), target, edges)
    requires var collected := AddAll([SchemaArtifact(target, "SCHEMA")], AllEdgeArtifacts(SortBy(edges, EdgeKey)));
             collected.Some? && artifacts == SortBy(collected.value, PathKey)
    requires Compatible(d.files, artifacts)
    requires FindSchema(d.catalog.schemas, target.schemaId, target.version) == Some(TargetEntry(w, target, edges))
    requires var proposed := Upcasters(w, SortBy(edges, EdgeKey), CandidateRef(w, target));
             forall i | 0 <= i < |proposed| :: FindUpcaster(d.catalog.upcasters, proposed[i].id) == Some(proposed[i])
    requires GraphRuns(w, d.catalog, d.files)
    ensures PlanEvolution(w, d, target, edges) == Replay
  {
    hide SortBy, AddAll, AllEdgeArtifacts, Contents, EvolutionTarget, Upcasters, TargetEntry, MarkerFor, RegistryOK,
         GraphRuns, Compatible, EvolutionInputsOK;
  }

  lemma EvolutionReplays(w: World, e: Disk, target: Candidate, edges: seq<Edge>, tx: Tx)
    requires TxFits(w, e, tx) && PlanEvolution(w, e, target, edges) == Publish(tx)
    ensures PlanEvolution(w, PublishedDisk(e, tx), target, edges) == Replay
  {
    var d := PublishedDisk(e, tx);
    var proposed := Upcasters(w, SortBy(edges, EdgeKey), CandidateRef(w, target));
    EvolutionShape(w, e, target, edges);
    EvolutionFacts(w, e, target, edges, tx);
    InputsStillOK(w, e, target, edges, d);
    TargetFound(w, e.catalog, target, edges);
    FullKeepsEntry(w, e, tx);
    FullAgain(w, e, tx, d.files);
    forall i | 0 <= i < |proposed|
      ensures FindUpcaster(d.catalog.upcasters, proposed[i].id) == Some(proposed[i])
    {
      ProposedFound(w, e.catalog, target, edges, i);
    }
    EvolutionReplaysIf(w, d, target, edges, tx.artifacts);
  }

  /** Registering again what is already published changes nothing. */
  lemma PlanReplays(w: World, e: Disk, request: Request, tx: Tx)
    requires TxFits(w, e, tx) && MakePlan(w, e, request) == Publish(tx)
    ensures MakePlan(w, PublishedDisk(e, tx), request) == Replay
  {
    match request
    case Single(c) => SingleReplays(w, e, c, tx);
    case Bundle(cs) => BundleReplays(w, e, cs, tx);
    case Evolution(target, edges) => EvolutionReplays(w, e, target, edges, tx);
  }
}
