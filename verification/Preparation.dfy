/** The preparation loops of bundle and evolution registration, proved against the planning functions. */
module Preparation {
  import opened Text
  import opened Ordering
  import opened Catalogs
  import opened Registry
  import opened Planning

  // ---------------------------------------------------------------- bundle

  /** One element of the list `prepared`. */
  datatype Prepared = Prepared(candidate: Candidate, changed: bool)

  function PreparedKey(p: Prepared): Key { CandidateKey(p.candidate) }

  function PreparedOf(catalog: Catalog, c: Candidate): Prepared { Prepared(c, !Published(catalog, c)) }

  function PreparedAll(catalog: Catalog, cs: seq<Candidate>): (r: seq<Prepared>)
    ensures |r| == |cs|
  {
    seq(|cs|, i requires 0 <= i < |cs| => PreparedOf(catalog, cs[i]))
  }

  lemma {:induction false} InsertPrepared(catalog: Catalog, c: Candidate, cs: seq<Candidate>)
    ensures Insert(PreparedOf(catalog, c), PreparedAll(catalog, cs), PreparedKey)
         == PreparedAll(catalog, Insert(c, cs, CandidateKey))
  {
    hide Published, CandidateKey;
    var all := PreparedAll(catalog, cs);
    if cs != [] && Before(CandidateKey(cs[0]), CandidateKey(c)) {
      InsertPrepared(catalog, c, cs[1..]);
      assert all[1..] == PreparedAll(catalog, cs[1..]);
    }
  }

  /** Sorting the prepared items is sorting their candidates. */
  lemma {:induction false} SortPrepared(catalog: Catalog, cs: seq<Candidate>)
    ensures SortBy(PreparedAll(catalog, cs), PreparedKey) == PreparedAll(catalog, SortBy(cs, CandidateKey))
  {
    if cs != [] {
      assert PreparedAll(catalog, cs)[1..] == PreparedAll(catalog, cs[1..]);
      SortPrepared(catalog, cs[1..]);
      InsertPrepared(catalog, cs[0], SortBy(cs[1..], CandidateKey));
    }
  }

  lemma {:induction false} FreshSnoc(catalog: Catalog, cs: seq<Candidate>, c: Candidate)
    ensures Fresh(catalog, cs + [c]) == Fresh(catalog, cs) + (if Published(catalog, c) then [] else [c])
  {
    hide Published;
    if cs == [] {
      assert cs + [c] == [c] && [c][1..] == [];
    } else {
      assert (cs + [c])[1..] == cs[1..] + [c];
      FreshSnoc(catalog, cs[1..], c);
    }
  }

  /** The artifacts and the new entries of a sorted prepared list. */
  method SplitPrepared(w: World, ghost catalog: Catalog, ghost cs: seq<Candidate>, prepared: seq<Prepared>)
    returns (artifacts: seq<Artifact>, entries: seq<SchemaEntry>)
    requires prepared == PreparedAll(catalog, cs)
    ensures artifacts == BundleArtifacts(cs)
    ensures entries == Entries(w, Fresh(catalog, cs))
  {
    hide Published;
    artifacts, entries := [], [];
    for i := 0 to |prepared|
      invariant artifacts == BundleArtifacts(cs[..i])
      invariant entries == Entries(w, Fresh(catalog, cs[..i]))
    {
      var item := prepared[i];
      FreshSnoc(catalog, cs[..i], cs[i]);
      assert cs[..i + 1] == cs[..i] + [cs[i]];
      artifacts := artifacts + [SchemaArtifact(item.candidate, "json-schema")];
      if item.changed {
        entries := entries + [EntryOf(w, item.candidate)];
      }
    }
    assert cs[..|prepared|] == cs;
  }

  /** The loop of `_prepare_bundle` over the manifest: None where it raises. */
  method PrepareItems(w: World, d: Disk, cs: seq<Candidate>) returns (r: Option<seq<Prepared>>)
    ensures r.Some? <==> BundleItemsOK(w, d, cs)
    ensures r.Some? ==> r.value == PreparedAll(d.catalog, cs)
  {
    var prepared: seq<Prepared> := [];
    for i := 0 to |cs|
      invariant prepared == PreparedAll(d.catalog, cs[..i])
      invariant BundleItemsOK(w, d, cs[..i])
    {
      var c := cs[i];
      assert cs[..i + 1] == cs[..i] + [c];
      if !SchemaPathOK(c.artifactPath) || c.declaredId != SCHEMA_HOST + c.artifactPath {
        return None;
      }
      var proposed := EntryOf(w, c);
      var published := FindSchema(d.catalog.schemas, c.schemaId, c.version);
      if published.Some? {
        var e := published.value;
        if e.artifactPath !in d.files || d.files[e.artifactPath] != c.contents {
          return None;
        }
        if e != proposed {
          return None;
        }
      } else if c.artifactPath in SchemaPaths(d.catalog) {
        return None;
      }
      prepared := prepared + [Prepared(c, published.None?)];
    }
    assert cs[..|cs|] == cs;
    return Some(prepared);
  }

  /** `_prepare_bundle`. */
  method PrepareBundle(w: World, d: Disk, cs: seq<Candidate>) returns (plan: Plan)
    ensures plan == PlanBundle(w, d, cs)
  {
    hide RegistryOK, UniqueInputs, BundleItemsOK, SortBy, Contents, Entries, Fresh, BundleArtifacts;
    if cs == [] || !UniqueInputs(cs) || !RegistryOK(w, d) {
      return Refuse;
    }
    var items := PrepareItems(w, d, cs);
    if items.None? {
      return Refuse;
    }
    SortPrepared(d.catalog, cs);
    var prepared := SortBy(items.value, PreparedKey);
    var artifacts, entries := SplitPrepared(w, d.catalog, SortBy(cs, CandidateKey), prepared);
    var target := Catalog(d.catalog.schemas + entries, d.catalog.upcasters);
    var ordered := SortBy(artifacts, PathKey);
    if !RegistryOK(w, Disk(target, d.files + Contents(ordered), None)) {
      return Refuse;
    }
    EntriesEmpty(w, Fresh(d.catalog, SortBy(cs, CandidateKey)));
    if entries == [] {
      return Replay;
    }
    return Publish(Tx(d.catalog, target, ordered, MarkerFor(w, ordered, d.catalog, target), false));
  }

  lemma EntriesEmpty(w: World, cs: seq<Candidate>)
    ensures Entries(w, cs) == [] <==> cs == []
  {
  }

  // ---------------------------------------------------------------- evolution

  lemma {:induction false} AddAllAppend(artifacts: seq<Artifact>, a: seq<Artifact>, b: seq<Artifact>)
    ensures AddAll(artifacts, a + b)
         == (if AddAll(artifacts, a).None? then None else AddAll(AddAll(artifacts, a).value, b))
    decreases |a|
  {
    hide AddArtifact;
    if a == [] {
      assert a + b == b;
    } else {
      assert (a + b)[0] == a[0] && (a + b)[1..] == a[1..] + b;
      var r := AddArtifact(artifacts, a[0]);
      if r.Some? {
        AddAllAppend(r.value, a[1..], b);
      }
    }
  }

  lemma AddTwo(artifacts: seq<Artifact>, x: Artifact, y: Artifact)
    ensures AddAll(artifacts, [x, y])
         == (if AddArtifact(artifacts, x).None? then None
             else AddArtifact(AddArtifact(artifacts, x).value, y))
  {
    hide AddArtifact;
    assert [x, y][1..] == [y] && [y][1..] == [];
    var r := AddArtifact(artifacts, x);
    if r.Some? {
      assert AddAll(r.value, [y]) == AddArtifact(r.value, y);
    }
  }

  lemma {:induction false} VectorArtifactsSnoc(vectors: seq<VectorInput>, v: VectorInput)
    ensures VectorArtifacts(vectors + [v]) == VectorArtifacts(vectors) + VectorArtifacts([v])
  {
    if vectors == [] {
      assert vectors + [v] == [v];
    } else {
      assert (vectors + [v])[1..] == vectors[1..] + [v];
      VectorArtifactsSnoc(vectors[1..], v);
    }
  }

  lemma {:induction false} EdgeArtifactsSnoc(edges: seq<Edge>, e: Edge)
    ensures AllEdgeArtifacts(edges + [e]) == AllEdgeArtifacts(edges) + EdgeArtifacts(e)
  {
    hide EdgeArtifacts;
    if edges == [] {
      assert edges + [e] == [e] && [e][1..] == [];
    } else {
      assert (edges + [e])[1..] == edges[1..] + [e];
      EdgeArtifactsSnoc(edges[1..], e);
    }
  }

  /** `_add_artifact` on the insertion-ordered dictionary `publication_artifacts`. */
  method Collect(artifacts: seq<Artifact>, path: Path, contents: Bytes, role: string) returns (r: Option<seq<Artifact>>)
    ensures r == AddArtifact(artifacts, Artifact(path, contents, role))
  {
    var i := 0;
    while i < |artifacts| && artifacts[i].path != path
      invariant 0 <= i <= |artifacts|
      invariant FindArtifact(artifacts, path) == FindArtifact(artifacts[i..], path)
    {
      i := i + 1;
    }
    if i == |artifacts| {
      return Some(artifacts + [Artifact(path, contents, role)]);
    }
    return if artifacts[i].contents == contents then Some(artifacts) else None;
  }

  lemma VectorPair(v: VectorInput)
    ensures VectorArtifacts([v]) == [Artifact(v.input.path, v.input.contents, "UPCASTER_GOLDEN_INPUT"),
                                     Artifact(v.output.path, v.output.contents, "UPCASTER_GOLDEN_OUTPUT")]
  {
  }

  /** Taking one more vector: what the collected artifacts become, and what a conflict means. */
  lemma VectorStep(artifacts: seq<Artifact>, vectors: seq<VectorInput>, i: nat)
    requires i < |vectors|
    ensures AddAll(artifacts, VectorArtifacts(vectors[..i + 1]))
         == (var r := AddAll(artifacts, VectorArtifacts(vectors[..i]));
             if r.None? then None else AddAll(r.value, VectorArtifacts([vectors[i]])))
    ensures AddAll(artifacts, VectorArtifacts(vectors[..i + 1])).None? ==>
            AddAll(artifacts, VectorArtifacts(vectors)).None?
  {
    hide AddAll;
    assert vectors[..i + 1] == vectors[..i] + [vectors[i]];
    VectorArtifactsSnoc(vectors[..i], vectors[i]);
    AddAllAppend(artifacts, VectorArtifacts(vectors[..i]), VectorArtifacts([vectors[i]]));
    VectorArtifactsAppend(vectors[..i + 1], vectors[i + 1..]);
    assert vectors[..i + 1] + vectors[i + 1..] == vectors;
    AddAllAppend(artifacts, VectorArtifacts(vectors[..i + 1]), VectorArtifacts(vectors[i + 1..]));
  }

  lemma {:induction false} VectorArtifactsAppend(a: seq<VectorInput>, b: seq<VectorInput>)
    ensures VectorArtifacts(a + b) == VectorArtifacts(a) + VectorArtifacts(b)
  {
    if a == [] {
      assert a + b == b;
    } else {
      assert (a + b)[1..] == a[1..] + b;
      VectorArtifactsAppend(a[1..], b);
    }
  }

  /** The loop over one edge's golden vectors. */
  method CollectVectors(w: World, artifacts: seq<Artifact>, vectors: seq<VectorInput>)
    returns (r: Option<seq<Artifact>>, goldens: seq<GoldenVector>)
    ensures r == (if forall i | 0 <= i < |vectors| :: VectorOK(vectors[i])
                  then AddAll(artifacts, VectorArtifacts(vectors)) else None)
    ensures r.Some? ==> goldens == Goldens(w, vectors)
  {
    hide AddAll, VectorArtifacts, VectorOK, AddArtifact;
    var collected := artifacts;
    goldens := [];
    AddNothing(artifacts);
    for i := 0 to |vectors|
      invariant forall k | 0 <= k < i :: VectorOK(vectors[k])
      invariant AddAll(artifacts, VectorArtifacts(vectors[..i])) == Some(collected)
      invariant goldens == Goldens(w, vectors[..i])
    {
      var v := vectors[i];
      if !VectorOK(v) {
        return None, goldens;
      }
      VectorStep(artifacts, vectors, i);
      VectorPair(v);
      AddTwo(collected, Artifact(v.input.path, v.input.contents, "UPCASTER_GOLDEN_INPUT"),
             Artifact(v.output.path, v.output.contents, "UPCASTER_GOLDEN_OUTPUT"));
      var first := Collect(collected, v.input.path, v.input.contents, "UPCASTER_GOLDEN_INPUT");
      if first.None? {
        return None, goldens;
      }
      var second := Collect(first.value, v.output.path, v.output.contents, "UPCASTER_GOLDEN_OUTPUT");
      if second.None? {
        return None, goldens;
      }
      collected := second.value;
      goldens := goldens + [Golden(w, v)];
    }
    assert vectors[..|vectors|] == vectors;
    return Some(collected), goldens;
  }

  lemma AddNothing(artifacts: seq<Artifact>)
    ensures AddAll(artifacts, VectorArtifacts([])) == Some(artifacts)
    ensures AddAll(artifacts, AllEdgeArtifacts([])) == Some(artifacts)
  {
  }

  /** The body of the loop over the sorted edges. */
  method CollectEdge(w: World, artifacts: seq<Artifact>, e: Edge, target: SchemaRef)
    returns (r: Option<seq<Artifact>>, upcaster: Upcaster)
    ensures r == (if EdgeFilesOK(e) then AddAll(artifacts, EdgeArtifacts(e)) else None)
    ensures r.Some? ==> upcaster == UpcasterOf(w, e, target)
  {
    hide AddAll, VectorArtifacts, VectorOK, AddArtifact, SafePath, EndsWith, SortBy;
    var code, runtime := w.sha(e.code.contents), w.sha(e.runtime.contents);
    upcaster := Upcaster(e.id, e.source, target, w.upcasterId("CODE", code), e.code.path, code,
                         w.upcasterId("RUNTIME", runtime), e.runtime.path, runtime, []);
    if !(SafePath(e.code.path) && EndsWith(e.code.path, ".py")) {
      return None, upcaster;
    }
    var x, y := Artifact(e.code.path, e.code.contents, "UPCASTER_CODE"),
                Artifact(e.runtime.path, e.runtime.contents, "UPCASTER_RUNTIME");
    AddTwo(artifacts, x, y);
    AddAllAppend(artifacts, [x, y], VectorArtifacts(e.vectors));
    var first := Collect(artifacts, e.code.path, e.code.contents, "UPCASTER_CODE");
    if first.None? {
      return None, upcaster;
    }
    if !(SafePath(e.runtime.path) && EndsWith(e.runtime.path, ".json")) || !e.denied {
      return None, upcaster;
    }
    var second := Collect(first.value, e.runtime.path, e.runtime.contents, "UPCASTER_RUNTIME");
    if second.None? || e.vectors == [] {
      return None, upcaster;
    }
    var all, goldens := CollectVectors(w, second.value, e.vectors);
    return all, upcaster.(vectors := SortBy(goldens, GoldenKey));
  }

  lemma {:induction false} AllEdgeArtifactsAppend(a: seq<Edge>, b: seq<Edge>)
    ensures AllEdgeArtifacts(a + b) == AllEdgeArtifacts(a) + AllEdgeArtifacts(b)
  {
    hide EdgeArtifacts;
    if a == [] {
      assert a + b == b;
    } else {
      assert (a + b)[1..] == a[1..] + b;
      AllEdgeArtifactsAppend(a[1..], b);
    }
  }

  lemma EdgeStep(artifacts: seq<Artifact>, edges: seq<Edge>, i: nat)
    requires i < |edges|
    ensures AddAll(artifacts, AllEdgeArtifacts(edges[..i + 1]))
         == (var r := AddAll(artifacts, AllEdgeArtifacts(edges[..i]));
             if r.None? then None else AddAll(r.value, EdgeArtifacts(edges[i])))
    ensures AddAll(artifacts, AllEdgeArtifacts(edges[..i + 1])).None? ==>
            AddAll(artifacts, AllEdgeArtifacts(edges)).None?
  {
    hide AddAll;
    assert edges[..i + 1] == edges[..i] + [edges[i]];
    EdgeArtifactsSnoc(edges[..i], edges[i]);
    AddAllAppend(artifacts, AllEdgeArtifacts(edges[..i]), EdgeArtifacts(edges[i]));
    AllEdgeArtifactsAppend(edges[..i + 1], edges[i + 1..]);
    assert edges[..i + 1] + edges[i + 1..] == edges;
    AddAllAppend(artifacts, AllEdgeArtifacts(edges[..i + 1]), AllEdgeArtifacts(edges[i + 1..]));
  }

  predicate AllEdgeFilesOK(edges: seq<Edge>) { forall i | 0 <= i < |edges| :: EdgeFilesOK(edges[i]) }

  /** The loop over the sorted edges. */
  method CollectEdges(w: World, first: seq<Artifact>, edges: seq<Edge>, target: SchemaRef)
    returns (r: Option<seq<Artifact>>, proposed: seq<Upcaster>)
    ensures r == (if AllEdgeFilesOK(edges) then AddAll(first, AllEdgeArtifacts(edges)) else None)
    ensures r.Some? ==> proposed == Upcasters(w, edges, target)
  {
    hide AddAll, EdgeFilesOK, EdgeArtifacts, AllEdgeArtifacts, UpcasterOf;
    var collected := first;
    proposed := [];
    AddNothing(first);
    for i := 0 to |edges|
      invariant forall k | 0 <= k < i :: EdgeFilesOK(edges[k])
      invariant AddAll(first, AllEdgeArtifacts(edges[..i])) == Some(collected)
      invariant proposed == Upcasters(w, edges[..i], target)
    {
      EdgeStep(first, edges, i);
      var more, upcaster := CollectEdge(w, collected, edges[i], target);
      if more.None? {
        return None, proposed;
      }
      collected := more.value;
      proposed := proposed + [upcaster];
    }
    assert edges[..|edges|] == edges;
    return Some(collected), proposed;
  }

  lemma SortedFilesOK(edges: seq<Edge>)
    ensures AllEdgeFilesOK(SortBy(edges, EdgeKey)) == AllEdgeFilesOK(edges)
  {
    var sorted := SortBy(edges, EdgeKey);
    hide EdgeFilesOK, SortBy;
    if !AllEdgeFilesOK(edges) {
      var i :| 0 <= i < |edges| && !EdgeFilesOK(edges[i]);
      SortByMember(edges, EdgeKey, edges[i]);
      var k :| 0 <= k < |sorted| && sorted[k] == edges[i];
    }
    forall i | 0 <= i < |sorted|
      ensures sorted[i] in edges
    {
      SortByMember(edges, EdgeKey, sorted[i]);
    }
  }

  predicate AllSourcesOK(c: Catalog, target: SchemaRef, edges: seq<Edge>)
  {
    forall i | 0 <= i < |edges| :: SourceOK(c, target, edges[i].source)
  }

  /** `_prepare_evolution`. */
  method PrepareEvolution(w: World, d: Disk, target: Candidate, edges: seq<Edge>) returns (plan: Plan)
    ensures plan == PlanEvolution(w, d, target, edges)
  {
    hide RegistryOK, GraphRuns, SourceOK, EdgeFilesOK, UniqueEdges, SchemaPathOK, SortBy, AddAll, AllEdgeArtifacts,
         Contents, Compatible, FindSchema, FindUpcaster, Upcasters, TargetEntry;
    var ref := CandidateRef(w, target);
    if !RegistryOK(w, d) || !SchemaPathOK(target.artifactPath) ||
       target.declaredId != SCHEMA_HOST + target.artifactPath || edges == [] || !UniqueEdges(edges) {
      return Refuse;
    }
    if !AllSourcesOK(d.catalog, ref, edges) {
      return Refuse;
    }
    var sorted := SortBy(edges, EdgeKey);
    SortedFilesOK(edges);
    var collected, proposed := CollectEdges(w, [SchemaArtifact(target, "SCHEMA")], sorted, ref);
    assert AllEdgeFilesOK(edges) ==> EvolutionInputsOK(d, ref, target, edges);
    assert EvolutionInputsOK(d, ref, target, edges) ==> AllEdgeFilesOK(edges);
    if collected.None? {
      return Refuse;
    }
    plan := DecideEvolution(w, d, target, edges, SortBy(collected.value, PathKey), proposed);
  }

  /** The decisions of `_prepare_evolution` once the artifacts are collected. */
  method DecideEvolution(w: World, d: Disk, target: Candidate, edges: seq<Edge>,
                         artifacts: seq<Artifact>, proposed: seq<Upcaster>) returns (plan: Plan)
    requires RegistryOK(w, d) && EvolutionInputsOK(d, CandidateRef(w, target), target, edges)
    requires proposed == Upcasters(w, SortBy(edges, EdgeKey), CandidateRef(w, target))
    requires var collected := AddAll([SchemaArtifact(target, "SCHEMA")], AllEdgeArtifacts(SortBy(edges, EdgeKey)));
             collected.Some? && artifacts == SortBy(collected.value, PathKey)
    ensures plan == PlanEvolution(w, d, target, edges)
  {
    hide RegistryOK, GraphRuns, EvolutionInputsOK, SortBy, AddAll, AllEdgeArtifacts, Contents, FindSchema, FindUpcaster,
         Upcasters, TargetEntry;
    for i := 0 to |artifacts|
      invariant forall k | 0 <= k < i ::
                  artifacts[k].path in d.files ==> d.files[artifacts[k].path] == artifacts[k].contents
    {
      var a := artifacts[i];
      if a.path in d.files && d.files[a.path] != a.contents {
        return Refuse;
      }
    }
    assert Compatible(d.files, artifacts);
    var entry := TargetEntry(w, target, edges);
    var existing := FindSchema(d.catalog.schemas, target.schemaId, target.version);
    if existing.Some? {
      if existing.value != entry {
        return Refuse;
      }
      for i := 0 to |proposed|
        invariant forall k | 0 <= k < i :: FindUpcaster(d.catalog.upcasters, proposed[k].id) == Some(proposed[k])
      {
        if FindUpcaster(d.catalog.upcasters, proposed[i].id) != Some(proposed[i]) {
          return Refuse;
        }
      }
      return if GraphRuns(w, d.catalog, d.files) then Replay else Refuse;
    }
    if exists i | 0 <= i < |proposed| :: FindUpcaster(d.catalog.upcasters, proposed[i].id).Some? {
      return Refuse;
    }
    var catalog := Catalog(d.catalog.schemas + [entry], d.catalog.upcasters + proposed);
    var files := d.files + Contents(artifacts);
    if !RegistryOK(w, Disk(catalog, files, None)) || !GraphRuns(w, catalog, files) {
      return Refuse;
    }
    return Publish(Tx(d.catalog, catalog, artifacts, MarkerFor(w, artifacts, d.catalog, catalog), true));
  }
}
