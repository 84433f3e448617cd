/** When an evolution is refused, answered as unchanged, or published, and as what, field by field. */
module EvolutionAnswers {
  import opened Text
  import opened Ordering
  import opened Versions
  import opened Catalogs
  import opened Registry
  import opened Planning
  import opened Answers
  import opened EvolutionParts

  // ---------------------------------------------------------------- the request against the tree

  ghost predicate VectorReady(v: VectorInput)
  {
    && SafePlace(v.input.path) && EndsWith(v.input.path, ".json")
    && SafePlace(v.output.path) && EndsWith(v.output.path, ".json")
  }

  ghost predicate FilesReady(e: Edge)
  {
    && SafePlace(e.code.path) && EndsWith(e.code.path, ".py")
    && SafePlace(e.runtime.path) && EndsWith(e.runtime.path, ".json")
    && e.denied && e.vectors != [] && forall v | v in e.vectors :: VectorReady(v)
  }

  ghost predicate NoIdTwice(edges: seq<Edge>)
  {
    forall i, j | 0 <= i < j < |edges| :: edges[i].id != edges[j].id
  }

  /** Nothing that is already on disk differs from what the evolution brings. */
  ghost predicate Fitting(target: Candidate, edges: seq<Edge>, files: Files)
  {
    forall a | Brings(target, edges, a) && a.path in files :: files[a.path] == a.contents
  }

  ghost predicate EvolutionReady(w: World, d: Disk, target: Candidate, edges: seq<Edge>)
  {
    && RegistryOK(w, d) && SchemaPlace(target.artifactPath) && Addressed(target)
    && edges != [] && NoIdTwice(edges) && NoSourceTwice(edges)
    && SourcesReady(d.catalog, target.schemaId, edges)
    && (forall e | e in edges :: LowerText(e.source.version, target.version) && FilesReady(e))
    && Agreeing(target, edges) && Fitting(target, edges, d.files)
  }

  ghost predicate EvolutionFiles(target: Candidate, order: seq<Edge>, artifacts: seq<Artifact>)
  {
    && (forall a :: a in artifacts <==> FirstAtPath(Listed(target, order), a))
    && PathsAscend(artifacts)
  }

  /** One entry, one upcaster for each edge in id order, the files in path order, and the marker of all of it. */
  ghost predicate EvolutionTx(w: World, d: Disk, target: Candidate, edges: seq<Edge>, order: seq<Edge>, tx: Tx)
  {
    var n, m := |d.catalog.schemas|, |d.catalog.upcasters|;
    && tx.original == d.catalog
    && |tx.target.schemas| == n + 1 && tx.target.schemas[..n] == d.catalog.schemas
    && TargetDeclared(w, tx.target.schemas[n], target, edges)
    && |tx.target.upcasters| >= m && tx.target.upcasters[..m] == d.catalog.upcasters
    && UpcastersDeclared(w, tx.target.upcasters[m..], order, tx.target.schemas[n].ref)
    && EvolutionFiles(target, order, tx.artifacts)
    && MarkerSays(w, tx)
    && tx.graph
  }

  lemma EdgeMeans(catalog: Catalog, ref: SchemaRef, target: Candidate, e: Edge)
    requires ref.schemaId == target.schemaId && ref.version == target.version
    ensures EdgeOK(catalog, ref, e) <==>
              && e.source.schemaId == target.schemaId && (exists x :: x in catalog.schemas && x.ref == e.source)
              && LowerText(e.source.version, target.version) && FilesReady(e)
  {
    hide VersionKey, Precedes, EndsWith, SafePath, SafePlace;
    ResolvesMeans(catalog, e.source);
    forall p: Path
      ensures SafePath(p) <==> SafePlace(p)
    {
      SafePlaceMeans(p);
    }
    if FilesReady(e) {
      assert forall i | 0 <= i < |e.vectors| :: VectorReady(e.vectors[i]);
    }
    if EdgeFilesOK(e) {
      forall v | v in e.vectors
        ensures VectorReady(v)
      {
        var i :| 0 <= i < |e.vectors| && e.vectors[i] == v;
        assert VectorOK(e.vectors[i]);
      }
    }
  }

  lemma InputsMean(w: World, d: Disk, target: Candidate, edges: seq<Edge>)
    ensures EvolutionInputsOK(d, CandidateRef(w, target), target, edges) <==>
              && SchemaPlace(target.artifactPath) && Addressed(target)
              && edges != [] && NoIdTwice(edges) && NoSourceTwice(edges)
              && SourcesReady(d.catalog, target.schemaId, edges)
              && forall e | e in edges :: LowerText(e.source.version, target.version) && FilesReady(e)
  {
    hide SchemaPathOK, SchemaPlace, LowerText, FilesReady, EdgeOK;
    SchemaPlaceMeans(target.artifactPath);
    forall e: Edge
      ensures EdgeOK(d.catalog, CandidateRef(w, target), e) <==>
                && e.source.schemaId == target.schemaId && (exists x :: x in d.catalog.schemas && x.ref == e.source)
                && LowerText(e.source.version, target.version) && FilesReady(e)
    {
      EdgeMeans(d.catalog, CandidateRef(w, target), target, e);
    }
    assert (forall i | 0 <= i < |edges| :: EdgeOK(d.catalog, CandidateRef(w, target), edges[i])) <==>
           (forall e | e in edges :: EdgeOK(d.catalog, CandidateRef(w, target), e));
  }

  function Collected(target: Candidate, edges: seq<Edge>): Option<seq<Artifact>>
  {
    AddAll([SchemaArtifact(target, "SCHEMA")], AllEdgeArtifacts(SortBy(edges, EdgeKey)))
  }

  lemma SameEdges(edges: seq<Edge>)
    ensures forall e :: e in SortBy(edges, EdgeKey) <==> e in edges
  {
    hide SortBy;
    forall e: Edge
      ensures e in SortBy(edges, EdgeKey) <==> e in edges
    {
      SortByMember(edges, EdgeKey, e);
    }
  }

  /** What is collected, and when: first files of each path, if no two disagree. */
  lemma CollectedMeans(target: Candidate, edges: seq<Edge>)
    ensures Collected(target, edges).Some? <==> Agreeing(target, edges)
    ensures Collected(target, edges).Some? ==>
              var r := Collected(target, edges).value;
              && DistinctPaths(r)
              && forall a :: a in r <==> FirstAtPath(Listed(target, SortBy(edges, EdgeKey)), a)
  {
    hide SortBy, AllEdgeArtifacts, Brings, FirstAtPath, AddAll;
    var order := SortBy(edges, EdgeKey);
    var listed := Listed(target, order);
    AddAllMeans([SchemaArtifact(target, "SCHEMA")], AllEdgeArtifacts(order));
    SameEdges(edges);
    forall a: Artifact
      ensures a in listed <==> Brings(target, edges, a)
    {
      ListedMeans(target, edges, order, a);
    }
    hide Listed;
    assert AgreeingList(listed) <==> Agreeing(target, edges);
  }

  lemma FirstIsListed(listed: seq<Artifact>, a: Artifact)
    ensures FirstAtPath(listed, a) ==> a in listed
  {
  }

  lemma {:induction false} SomeFirst(listed: seq<Artifact>, n: nat, a: Artifact)
    requires n < |listed| && listed[n] == a
    ensures exists b :: FirstAtPath(listed, b) && b.path == a.path
  {
    if forall j | 0 <= j < n :: listed[j].path != a.path {
      assert FirstAtPath(listed, a);
    } else {
      var j :| 0 <= j < n && listed[j].path == a.path;
      SomeFirst(listed, j, listed[j]);
    }
  }

  /** Fitting the files that are collected is fitting all that are brought. */
  lemma FittingMeans(target: Candidate, edges: seq<Edge>, files: Files, artifacts: seq<Artifact>)
    requires Agreeing(target, edges)
    requires forall a :: a in artifacts <==> FirstAtPath(Listed(target, SortBy(edges, EdgeKey)), a)
    ensures Compatible(files, artifacts) <==> Fitting(target, edges, files)
  {
    hide SortBy, Listed, Brings, FirstAtPath;
    var order := SortBy(edges, EdgeKey);
    var listed := Listed(target, order);
    SameEdges(edges);
    forall a: Artifact
      ensures a in listed <==> Brings(target, edges, a)
      ensures FirstAtPath(listed, a) ==> a in listed
    {
      ListedMeans(target, edges, order, a);
      FirstIsListed(listed, a);
    }
    if Compatible(files, artifacts) {
      forall a | Brings(target, edges, a) && a.path in files
        ensures files[a.path] == a.contents
      {
        var n :| 0 <= n < |listed| && listed[n] == a;
        SomeFirst(listed, n, a);
        var b :| FirstAtPath(listed, b) && b.path == a.path;
        assert b in artifacts;
      }
    }
  }

  lemma ReadyMeans(w: World, d: Disk, target: Candidate, edges: seq<Edge>)
    ensures EvolutionReady(w, d, target, edges) <==>
              && RegistryOK(w, d) && EvolutionInputsOK(d, CandidateRef(w, target), target, edges)
              && Collected(target, edges).Some? && Compatible(d.files, SortBy(Collected(target, edges).value, PathKey))
  {
    hide RegistryOK, EvolutionInputsOK, SortBy, Collected, Agreeing, Fitting, Compatible, FilesReady, LowerText,
         SourcesReady, NoIdTwice, NoSourceTwice, SchemaPlace, Addressed, Listed, FirstAtPath, DistinctPaths;
    InputsMean(w, d, target, edges);
    CollectedMeans(target, edges);
    if Collected(target, edges).Some? {
      var artifacts := SortBy(Collected(target, edges).value, PathKey);
      forall a: Artifact
        ensures a in artifacts <==> FirstAtPath(Listed(target, SortBy(edges, EdgeKey)), a)
      {
        SortByMember(Collected(target, edges).value, PathKey, a);
      }
      FittingMeans(target, edges, d.files, artifacts);
    }
  }

  // ---------------------------------------------------------------- the answer

  lemma EvolutionFilesMean(target: Candidate, edges: seq<Edge>, artifacts: seq<Artifact>)
    requires Collected(target, edges).Some?
    ensures EvolutionFiles(target, SortBy(edges, EdgeKey), artifacts)
       <==> artifacts == SortBy(Collected(target, edges).value, PathKey)
  {
    hide SortBy, Collected, Listed, FirstAtPath, PathsAscend, DistinctPaths, Before;
    var collected := Collected(target, edges).value;
    var planned := SortBy(collected, PathKey);
    CollectedMeans(target, edges);
    DistinctPathKeys(collected);
    SortIsStrict(collected, PathKey);
    forall a: Artifact
      ensures a in planned <==> FirstAtPath(Listed(target, SortBy(edges, EdgeKey)), a)
    {
      SortByMember(collected, PathKey, a);
    }
    PathsAscendMeans(planned);
    if EvolutionFiles(target, SortBy(edges, EdgeKey), artifacts) {
      PathsAscendMeans(artifacts);
      StrictUnique(artifacts, planned, PathKey);
    }
  }

  function PlannedEvolution(w: World, d: Disk, target: Candidate, edges: seq<Edge>): Tx
    requires Collected(target, edges).Some?
  {
    var artifacts := SortBy(Collected(target, edges).value, PathKey);
    var catalog := EvolutionTarget(w, d.catalog, target, edges);
    Tx(d.catalog, catalog, artifacts, MarkerFor(w, artifacts, d.catalog, catalog), true)
  }

  lemma EvolutionTargetMeans(w: World, catalog: Catalog, target: Candidate, edges: seq<Edge>, order: seq<Edge>,
      r: Catalog)
    requires CatalogOK(w, catalog) && SourcesReady(catalog, target.schemaId, edges) && NoSourceTwice(edges)
    requires Addressed(target) && order == SortBy(edges, EdgeKey) && forall e | e in order :: VectorsAgree(e.vectors)
    ensures var n, m := |catalog.schemas|, |catalog.upcasters|;
            r == EvolutionTarget(w, catalog, target, edges) <==>
              && |r.schemas| == n + 1 && r.schemas[..n] == catalog.schemas
              && TargetDeclared(w, r.schemas[n], target, edges)
              && |r.upcasters| >= m && r.upcasters[..m] == catalog.upcasters
              && UpcastersDeclared(w, r.upcasters[m..], order, r.schemas[n].ref)
  {
    hide CatalogOK, SourcesReady, NoSourceTwice, SortBy, VectorsAgree, TargetDeclared, UpcastersDeclared, TargetEntry,
         Upcasters, CandidateRef, Addressed;
    var n, m := |catalog.schemas|, |catalog.upcasters|;
    var planned := EvolutionTarget(w, catalog, target, edges);
    TargetMeans(w, catalog, TargetEntry(w, target, edges), target, edges);
    TargetRef(w, target, edges);
    UpcastersMean(w, planned.upcasters[m..], order, CandidateRef(w, target));
    assert planned.schemas[..n] == catalog.schemas && planned.schemas[n] == TargetEntry(w, target, edges);
    assert planned.upcasters[..m] == catalog.upcasters;
    assert planned.upcasters[m..] == Upcasters(w, order, CandidateRef(w, target));
    if |r.schemas| == n + 1 && |r.upcasters| >= m {
      TargetMeans(w, catalog, r.schemas[n], target, edges);
      UpcastersMean(w, r.upcasters[m..], order, CandidateRef(w, target));
      assert r.schemas == r.schemas[..n] + [r.schemas[n]];
      assert r.upcasters == r.upcasters[..m] + r.upcasters[m..];
    }
  }

  lemma TargetRef(w: World, target: Candidate, edges: seq<Edge>)
    ensures TargetEntry(w, target, edges).ref == CandidateRef(w, target)
  {
  }

  lemma ReadyVectors(w: World, d: Disk, target: Candidate, edges: seq<Edge>)
    requires EvolutionReady(w, d, target, edges)
    ensures forall e | e in SortBy(edges, EdgeKey) :: VectorsAgree(e.vectors)
    ensures CatalogOK(w, d.catalog)
  {
    hide RegistryOK, SortBy, Agreeing, VectorsAgree, SchemaPlace, Fitting, FilesReady, LowerText, CatalogOK;
    RegistryParts(w, d);
    SameEdges(edges);
    forall e | e in SortBy(edges, EdgeKey)
      ensures VectorsAgree(e.vectors)
    {
      AgreeingVectors(target, edges, e);
    }
  }

  lemma EvolutionTxMeans(w: World, d: Disk, target: Candidate, edges: seq<Edge>, order: seq<Edge>, tx: Tx)
    requires EvolutionReady(w, d, target, edges) && order == SortBy(edges, EdgeKey) && Collected(target, edges).Some?
    ensures EvolutionTx(w, d, target, edges, order, tx) <==> tx == PlannedEvolution(w, d, target, edges)
  {
    ReadyVectors(w, d, target, edges);
    hide RegistryOK, CatalogOK, SortBy, Agreeing, VectorsAgree, SchemaPlace, Fitting, FilesReady, LowerText,
         EvolutionFiles, MarkerSays, MarkerFor, Collected, EvolutionTarget, TargetDeclared, UpcastersDeclared,
         SourcesReady, NoSourceTwice, Addressed;
    EvolutionFilesMean(target, edges, tx.artifacts);
    MarkerSaysMeans(w, tx);
    EvolutionTargetMeans(w, d.catalog, target, edges, order, tx.target);
  }

  /** An evolution with an input out of place or in conflict, or on a refused tree, is refused. */
  lemma EvolutionUnready(w: World, d: Disk, target: Candidate, edges: seq<Edge>)
    requires !EvolutionReady(w, d, target, edges)
    ensures MakePlan(w, d, Evolution(target, edges)) == Refuse
  {
    hide RegistryOK, EvolutionInputsOK, SortBy, AddAll, AllEdgeArtifacts, EvolutionReady, EvolutionTarget, Upcasters,
         TargetEntry, Contents, GraphRuns, Compatible;
    ReadyMeans(w, d, target, edges);
  }

  lemma UpcasterLookup(w: World, catalog: Catalog, u: Upcaster)
    requires CatalogOK(w, catalog)
    ensures FindUpcaster(catalog.upcasters, u.id) == Some(u) <==> u in catalog.upcasters
  {
    hide EntryOK, UpcasterOK, SeparateEntries, SinglePaths;
    var us := catalog.upcasters;
    var found := FindUpcaster(us, u.id);
    forall i, j | 0 <= i < j < |us|
      ensures us[i].id != us[j].id
    {
      assert SeparateUpcasters(us[i], us[j]);
    }
    if u in us {
      var i :| 0 <= i < |us| && us[i] == u;
      var j :| 0 <= j < |us| && us[j] == found.value;
    }
  }

  predicate AllFound(catalog: Catalog, us: seq<Upcaster>)
  {
    forall i | 0 <= i < |us| :: FindUpcaster(catalog.upcasters, us[i].id) == Some(us[i])
  }

  predicate AnyFound(catalog: Catalog, us: seq<Upcaster>)
  {
    exists i | 0 <= i < |us| :: FindUpcaster(catalog.upcasters, us[i].id).Some?
  }

  /** The decision once inputs and files are in order. */
  lemma EvolutionDecision(w: World, d: Disk, target: Candidate, edges: seq<Edge>)
    requires RegistryOK(w, d) && EvolutionInputsOK(d, CandidateRef(w, target), target, edges)
    requires Collected(target, edges).Some? && Compatible(d.files, SortBy(Collected(target, edges).value, PathKey))
    ensures var proposed := Upcasters(w, SortBy(edges, EdgeKey), CandidateRef(w, target));
            var found := FindSchema(d.catalog.schemas, target.schemaId, target.version);
            var tx := PlannedEvolution(w, d, target, edges);
            var files := d.files + Contents(tx.artifacts);
            MakePlan(w, d, Evolution(target, edges)) ==
              if found.Some? then
                if found.value == TargetEntry(w, target, edges) && AllFound(d.catalog, proposed) &&
                   GraphRuns(w, d.catalog, d.files) then Replay else Refuse
              else if AnyFound(d.catalog, proposed) then Refuse
              else if RegistryOK(w, Disk(tx.target, files, None)) && GraphRuns(w, tx.target, files) then Publish(tx)
              else Refuse
  {
    hide RegistryOK, EvolutionInputsOK, SortBy, AddAll, AllEdgeArtifacts, EvolutionTarget, Upcasters, TargetEntry,
         Contents, GraphRuns, Compatible, MarkerFor, CandidateRef;
  }

  /** Every edge's upcaster is published exactly as declared. */
  ghost predicate EdgesPublished(w: World, catalog: Catalog, order: seq<Edge>, ref: SchemaRef)
  {
    forall e | e in order :: exists u :: u in catalog.upcasters && UpcasterDeclared(w, u, e, ref)
  }

  lemma EdgesPublishedMean(w: World, catalog: Catalog, order: seq<Edge>, ref: SchemaRef)
    requires CatalogOK(w, catalog) && forall e | e in order :: VectorsAgree(e.vectors)
    ensures AllFound(catalog, Upcasters(w, order, ref)) <==> EdgesPublished(w, catalog, order, ref)
  {
    hide CatalogOK, VectorsAgree, UpcasterDeclared, UpcasterOf;
    var proposed := Upcasters(w, order, ref);
    forall i | 0 <= i < |order|
      ensures FindUpcaster(catalog.upcasters, proposed[i].id) == Some(proposed[i]) <==>
                exists u :: u in catalog.upcasters && UpcasterDeclared(w, u, order[i], ref)
    {
      assert order[i] in order;
      EdgePublishedMeans(w, catalog, order[i], ref);
    }
    if EdgesPublished(w, catalog, order, ref) {
      assert forall i | 0 <= i < |order| :: order[i] in order;
    }
  }

  lemma EdgePublishedMeans(w: World, catalog: Catalog, e: Edge, ref: SchemaRef)
    requires CatalogOK(w, catalog) && VectorsAgree(e.vectors)
    ensures var u := UpcasterOf(w, e, ref);
            FindUpcaster(catalog.upcasters, u.id) == Some(u) <==>
              exists x :: x in catalog.upcasters && UpcasterDeclared(w, x, e, ref)
  {
    hide CatalogOK, VectorsAgree, UpcasterDeclared, UpcasterOf;
    var u := UpcasterOf(w, e, ref);
    UpcasterLookup(w, catalog, u);
    forall x: Upcaster
      ensures UpcasterDeclared(w, x, e, ref) <==> x == u
    {
      UpcasterMeans(w, x, e, ref);
    }
  }

  /**
   * An evolution to a published version is unchanged exactly when the entry, its predecessors and every
   * edge's upcaster are field by field what the request declares and the graph runs; else it is refused.
   */
  lemma EvolutionConflict(w: World, d: Disk, target: Candidate, edges: seq<Edge>, x: SchemaEntry)
    requires EvolutionReady(w, d, target, edges) && x in d.catalog.schemas && SameVersion(x, target)
    ensures MakePlan(w, d, Evolution(target, edges)) ==
              if TargetDeclared(w, x, target, edges) && EdgesPublished(w, d.catalog, edges, x.ref) &&
                 GraphRuns(w, d.catalog, d.files)
              then Replay else Refuse
  {
    ReadyVectors(w, d, target, edges);
    ReadyMeans(w, d, target, edges);
    ReadyParts(w, d, target, edges);
    SameEdges(edges);
    EvolutionDecision(w, d, target, edges);
    hide RegistryOK, EvolutionInputsOK, SortBy, Collected, EvolutionReady, Upcasters, TargetEntry, Contents, GraphRuns,
         Compatible, CatalogOK, TargetDeclared, UpcasterDeclared, CandidateRef, VectorsAgree, SourcesReady,
         NoSourceTwice, Addressed, MakePlan, AllFound, AnyFound, PlannedEvolution;
    LookupFinds(w, d.catalog, target, x);
    TargetMeans(w, d.catalog, x, target, edges);
    TargetRef(w, target, edges);
    EdgesPublishedMean(w, d.catalog, SortBy(edges, EdgeKey), CandidateRef(w, target));
  }

  lemma ReadyParts(w: World, d: Disk, target: Candidate, edges: seq<Edge>)
    requires EvolutionReady(w, d, target, edges)
    ensures SourcesReady(d.catalog, target.schemaId, edges) && NoSourceTwice(edges) && NoIdTwice(edges) &&
            Addressed(target)
  {
    hide RegistryOK, SourcesReady, NoSourceTwice, NoIdTwice, Addressed, SchemaPlace, Agreeing, Fitting;
  }

  ghost predicate IdTaken(catalog: Catalog, edges: seq<Edge>)
  {
    exists e, u :: e in edges && u in catalog.upcasters && e.id == u.id
  }

  lemma IdTakenMeans(w: World, catalog: Catalog, edges: seq<Edge>, order: seq<Edge>, ref: SchemaRef)
    requires forall e :: e in order <==> e in edges
    ensures AnyFound(catalog, Upcasters(w, order, ref)) <==> IdTaken(catalog, edges)
  {
    var proposed := Upcasters(w, order, ref);
    if i :| 0 <= i < |proposed| && FindUpcaster(catalog.upcasters, proposed[i].id).Some? {
      assert order[i] in edges && FindUpcaster(catalog.upcasters, proposed[i].id).value.id == order[i].id;
    }
    if IdTaken(catalog, edges) {
      var e, u :| e in edges && u in catalog.upcasters && e.id == u.id;
      var i :| 0 <= i < |order| && order[i] == e;
      assert FindUpcaster(catalog.upcasters, proposed[i].id).Some?;
    }
  }

  /**
   * A new version is refused when an upcaster id is taken; otherwise it is published, as exactly this
   * transaction, if and only if the resulting snapshot is valid and its graph runs.
   */
  lemma EvolutionFresh(w: World, d: Disk, target: Candidate, edges: seq<Edge>, order: seq<Edge>, tx: Tx)
    requires EvolutionReady(w, d, target, edges) && !HasVersion(d.catalog, target) && IdOrder(edges, order)
    ensures MakePlan(w, d, Evolution(target, edges)) == Publish(tx) <==>
              && !IdTaken(d.catalog, edges)
              && EvolutionTx(w, d, target, edges, order, tx)
              && RegistryOK(w, Disk(tx.target, d.files + Contents(tx.artifacts), None))
              && GraphRuns(w, tx.target, d.files + Contents(tx.artifacts))
    ensures !MakePlan(w, d, Evolution(target, edges)).Replay?
  {
    ReadyMeans(w, d, target, edges);
    ReadyParts(w, d, target, edges);
    IdOrderMeans(edges, order);
    SameEdges(edges);
    EvolutionDecision(w, d, target, edges);
    hide RegistryOK, EvolutionInputsOK, SortBy, Collected, EvolutionReady, Upcasters, TargetEntry, Contents, GraphRuns,
         Compatible, EvolutionTx, HasVersion, IdTaken, CandidateRef, IdOrder, SourcesReady, NoSourceTwice, NoIdTwice,
         Addressed, MakePlan, AllFound, AnyFound, PlannedEvolution;
    LookupMeans(d.catalog, target);
    EvolutionTxMeans(w, d, target, edges, order, tx);
    IdTakenMeans(w, d.catalog, edges, order, CandidateRef(w, target));
  }
}
