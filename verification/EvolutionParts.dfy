/** What an evolution brings and declares: its files, its target's entry, its upcasters, field by field. */
module EvolutionParts {
  import opened Text
  import opened Ordering
  import opened TextOrder
  import opened Versions
  import opened Catalogs
  import opened Registry
  import opened Planning
  import opened Answers

  // ---------------------------------------------------------------- the files an evolution brings

  /** A file the edge brings, with the role it has there. */
  ghost predicate EdgeBrings(e: Edge, a: Artifact)
  {
    || a == Artifact(e.code.path, e.code.contents, "UPCASTER_CODE")
    || a == Artifact(e.runtime.path, e.runtime.contents, "UPCASTER_RUNTIME")
    || exists v :: v in e.vectors &&
         (|| a == Artifact(v.input.path, v.input.contents, "UPCASTER_GOLDEN_INPUT")
          || a == Artifact(v.output.path, v.output.contents, "UPCASTER_GOLDEN_OUTPUT"))
  }

  ghost predicate Brings(target: Candidate, edges: seq<Edge>, a: Artifact)
  {
    || a == Artifact(target.artifactPath, target.contents, "SCHEMA")
    || exists e :: e in edges && EdgeBrings(e, a)
  }

  /** No two of them disagree about one path. */
  ghost predicate Agreeing(target: Candidate, edges: seq<Edge>)
  {
    forall a, b | Brings(target, edges, a) && Brings(target, edges, b) && a.path == b.path :: a.contents == b.contents
  }

  /** The edges in ascending order of their ids. */
  ghost predicate IdOrder(edges: seq<Edge>, order: seq<Edge>)
  {
    && (forall e :: e in order <==> e in edges)
    && forall i, j | 0 <= i < j < |order| :: Below(order[i].id, order[j].id)
  }

  /** The first of a list of files with its path. */
  ghost predicate FirstAtPath(listed: seq<Artifact>, a: Artifact)
  {
    exists i :: 0 <= i < |listed| && listed[i] == a && forall j | 0 <= j < i :: listed[j].path != a.path
  }

  /** The target's schema, then every edge's files in the order of the edges. */
  function Listed(target: Candidate, order: seq<Edge>): (files: seq<Artifact>)
  {
    [SchemaArtifact(target, "SCHEMA")] + AllEdgeArtifacts(order)
  }

  lemma {:induction false} VectorFiles(vs: seq<VectorInput>, a: Artifact)
    ensures a in VectorArtifacts(vs) <==>
              exists v :: v in vs &&
                (|| a == Artifact(v.input.path, v.input.contents, "UPCASTER_GOLDEN_INPUT")
                 || a == Artifact(v.output.path, v.output.contents, "UPCASTER_GOLDEN_OUTPUT"))
  {
    if vs != [] {
      VectorFiles(vs[1..], a);
      assert vs == [vs[0]] + vs[1..];
      assert vs[0] in vs;
    }
  }

  lemma EdgeFilesMean(e: Edge, a: Artifact)
    ensures a in EdgeArtifacts(e) <==> EdgeBrings(e, a)
  {
    hide VectorArtifacts;
    VectorFiles(e.vectors, a);
  }

  lemma {:induction false} AllEdgeFilesMean(edges: seq<Edge>, a: Artifact)
    ensures a in AllEdgeArtifacts(edges) <==> exists e :: e in edges && EdgeBrings(e, a)
  {
    hide EdgeArtifacts, EdgeBrings;
    if edges != [] {
      AllEdgeFilesMean(edges[1..], a);
      EdgeFilesMean(edges[0], a);
      assert edges == [edges[0]] + edges[1..];
      assert edges[0] in edges;
    }
  }

  lemma ListedMeans(target: Candidate, edges: seq<Edge>, order: seq<Edge>, a: Artifact)
    requires forall e :: e in order <==> e in edges
    ensures a in Listed(target, order) <==> Brings(target, edges, a)
  {
    hide AllEdgeArtifacts, EdgeBrings;
    AllEdgeFilesMean(order, a);
    var head := SchemaArtifact(target, "SCHEMA");
    assert Listed(target, order)[0] == head;
  }

  // ---------------------------------------------------------------- collecting them

  ghost predicate AgreeingList(listed: seq<Artifact>)
  {
    forall a, b | a in listed && b in listed && a.path == b.path :: a.contents == b.contents
  }

  /** Dropping a file whose path came before changes neither agreement nor which file is first. */
  lemma DropRepeat(first: seq<Artifact>, x: Artifact, rest: seq<Artifact>, y: Artifact)
    requires y in first && y.path == x.path && y.contents == x.contents
    ensures AgreeingList(first + [x] + rest) <==> AgreeingList(first + rest)
    ensures forall a :: FirstAtPath(first + [x] + rest, a) <==> FirstAtPath(first + rest, a)
  {
    var long, short := first + [x] + rest, first + rest;
    assert forall a :: a in long <==> a in short || a == x;
    assert y in short && y in long;
    forall a: Artifact
      ensures FirstAtPath(long, a) <==> FirstAtPath(short, a)
    {
      DropRepeatAt(first, x, rest, y, a);
    }
  }

  lemma DropRepeatAt(first: seq<Artifact>, x: Artifact, rest: seq<Artifact>, y: Artifact, a: Artifact)
    requires y in first && y.path == x.path
    ensures FirstAtPath(first + [x] + rest, a) <==> FirstAtPath(first + rest, a)
  {
    var long, short, n := first + [x] + rest, first + rest, |first|;
    var k :| 0 <= k < n && first[k] == y;
    assert long[k] == y && short[k] == y && long[n] == x;
    if FirstAtPath(long, a) {
      var i :| 0 <= i < |long| && long[i] == a && forall j | 0 <= j < i :: long[j].path != a.path;
      assert i != n;
      var m := if i < n then i else i - 1;
      assert short[m] == a;
      forall j | 0 <= j < m
        ensures short[j].path != a.path
      {
        assert short[j] == long[if j < n then j else j + 1];
      }
    }
    if FirstAtPath(short, a) {
      var i :| 0 <= i < |short| && short[i] == a && forall j | 0 <= j < i :: short[j].path != a.path;
      var m := if i < n then i else i + 1;
      assert long[m] == a;
      forall j | 0 <= j < m
        ensures long[j].path != a.path
      {
        if j != n {
          assert long[j] == short[if j < n then j else j - 1];
        } else {
          assert short[k].path != a.path;
        }
      }
    }
  }

  lemma AllFirst(artifacts: seq<Artifact>)
    requires DistinctPaths(artifacts)
    ensures AgreeingList(artifacts) && forall a :: FirstAtPath(artifacts, a) <==> a in artifacts
  {
    forall a | a in artifacts
      ensures FirstAtPath(artifacts, a)
    {
      var i :| 0 <= i < |artifacts| && artifacts[i] == a;
    }
  }

  /** The collection succeeds exactly when no two files disagree, and keeps the first file of each path. */
  lemma {:induction false} AddAllMeans(first: seq<Artifact>, more: seq<Artifact>)
    requires DistinctPaths(first)
    ensures AddAll(first, more).Some? <==> AgreeingList(first + more)
    ensures AddAll(first, more).Some? ==>
              var r := AddAll(first, more).value;
              DistinctPaths(r) && forall a :: a in r <==> FirstAtPath(first + more, a)
    decreases |more|
  {
    hide AgreeingList, FirstAtPath, DistinctPaths;
    if more == [] {
      assert first + more == first;
      AllFirst(first);
    } else {
      var x, rest := more[0], more[1..];
      assert first + more == first + [x] + rest;
      var existing := FindArtifact(first, x.path);
      if existing.None? {
        OneMoreDistinct(first, x);
        AddAllMeans(first + [x], rest);
      } else if existing.value.contents == x.contents {
        DropRepeat(first, x, rest, existing.value);
        AddAllMeans(first, rest);
      } else {
        Disagreeing(first + more, existing.value, x);
      }
    }
  }

  lemma OneMoreDistinct(first: seq<Artifact>, x: Artifact)
    requires DistinctPaths(first) && x.path !in ArtifactPaths(first)
    ensures DistinctPaths(first + [x])
  {
    assert forall i | 0 <= i < |first| :: first[i] in first;
  }

  lemma Disagreeing(listed: seq<Artifact>, a: Artifact, b: Artifact)
    requires a in listed && b in listed && a.path == b.path && a.contents != b.contents
    ensures !AgreeingList(listed)
  {
  }

  // ---------------------------------------------------------------- the target's entry

  ghost predicate LowerText(a: string, b: string)
  {
    VersionKey(a).Some? && VersionKey(b).Some? && Precedes(VersionKey(a).value, VersionKey(b).value)
  }

  /** Exactly the sources, in ascending numeric order of their versions. */
  ghost predicate SourcesInOrder(preds: seq<SchemaRef>, edges: seq<Edge>)
  {
    && (forall r :: r in preds <==> exists e :: e in edges && e.source == r)
    && forall i, j | 0 <= i < j < |preds| :: LowerText(preds[i].version, preds[j].version)
  }

  /** The entry of an evolution's target. */
  ghost predicate TargetDeclared(w: World, x: SchemaEntry, target: Candidate, edges: seq<Edge>)
  {
    Declares(w, x, target) && x.mode == Backward && SourcesInOrder(x.predecessors, edges)
  }

  ghost predicate SourcesReady(catalog: Catalog, schemaId: string, edges: seq<Edge>)
  {
    forall e | e in edges :: e.source.schemaId == schemaId && exists x :: x in catalog.schemas && x.ref == e.source
  }

  lemma NumbersBefore(x: Version, a: Key, y: Version, b: Key)
    ensures Before([x.major, x.minor, x.patch] + a, [y.major, y.minor, y.patch] + b)
       <==> Precedes(x, y) || (x == y && Before(a, b))
  {
    var k, l := [x.major, x.minor, x.patch] + a, [y.major, y.minor, y.patch] + b;
    assert k[1..][1..][1..] == a && l[1..][1..][1..] == b;
    assert k[0] == x.major && k[1..][0] == x.minor && k[1..][1..][0] == x.patch;
    assert l[0] == y.major && l[1..][0] == y.minor && l[1..][1..][0] == y.patch;
    assert Before(k[1..][1..], l[1..][1..]) <==> x.patch < y.patch || (x.patch == y.patch && Before(a, b));
  }

  /** References of one schema sort by version. */
  lemma PredecessorOrder(a: SchemaRef, b: SchemaRef)
    requires a.schemaId == b.schemaId && VersionKey(a.version).Some? && VersionKey(b.version).Some?
    requires a.version != b.version
    ensures Before(PredecessorKey(a), PredecessorKey(b)) <==> LowerText(a.version, b.version)
  {
    hide Before, TextKey, VersionKey, Precedes, Below;
    var x, y := VersionKey(a.version).value, VersionKey(b.version).value;
    var xs, ys := [x.major, x.minor, x.patch], [y.major, y.minor, y.patch];
    if x == y {
      VersionKeyInjective(a.version, b.version);
    }
    BelowTotal(a.schemaId, a.schemaId);
    TextKeyOrder(a.schemaId, xs + TextKey(a.sha256), a.schemaId, ys + TextKey(b.sha256));
    NumbersBefore(x, TextKey(a.sha256), y, TextKey(b.sha256));
    assert PredecessorKey(a) == TextKey(a.schemaId) + (xs + TextKey(a.sha256));
    assert PredecessorKey(b) == TextKey(a.schemaId) + (ys + TextKey(b.sha256));
  }

  lemma CataloguedRefs(w: World, catalog: Catalog, a: SchemaRef, b: SchemaRef)
    requires CatalogOK(w, catalog) && Resolves(catalog, a) && Resolves(catalog, b)
    ensures VersionKey(a.version).Some?
    ensures a.schemaId == b.schemaId && a.version == b.version ==> a == b
  {
    hide UpcasterOK, SeparateUpcasters, SinglePaths, VersionKey;
    var schemas := catalog.schemas;
    var x :| x in schemas && x.ref == a;
    var y :| y in schemas && y.ref == b;
    var i :| 0 <= i < |schemas| && schemas[i] == x;
    var j :| 0 <= j < |schemas| && schemas[j] == y;
    assert EntryOK(w, catalog, schemas[i]);
    forall k, l | 0 <= k < l < |schemas|
      ensures RefKey(schemas[k].ref) != RefKey(schemas[l].ref)
    {
      assert SeparateEntries(schemas[k], schemas[l]);
    }
  }

  /** Of references to entries of one schema, the order by key is the order by version. */
  lemma CataloguedOrder(w: World, catalog: Catalog, schemaId: string, a: SchemaRef, b: SchemaRef)
    requires CatalogOK(w, catalog) && Resolves(catalog, a) && Resolves(catalog, b)
    requires a.schemaId == schemaId == b.schemaId
    ensures Before(PredecessorKey(a), PredecessorKey(b)) <==> LowerText(a.version, b.version)
    ensures a != b ==> PredecessorKey(a) != PredecessorKey(b)
  {
    hide CatalogOK, Resolves, Before, PredecessorKey, VersionKey;
    CataloguedRefs(w, catalog, a, b);
    CataloguedRefs(w, catalog, b, a);
    if a.version != b.version {
      PredecessorOrder(a, b);
      PredecessorOrder(b, a);
      LowerTotal(a.version, b.version);
      BeforeTotal(PredecessorKey(a), PredecessorKey(b));
    } else {
      BeforeTotal(PredecessorKey(a), PredecessorKey(b));
    }
  }

  lemma LowerTotal(a: string, b: string)
    requires VersionKey(a).Some? && VersionKey(b).Some?
    ensures a == b || LowerText(a, b) || LowerText(b, a)
    ensures !LowerText(a, a)
  {
    hide VersionKey;
    if VersionKey(a) == VersionKey(b) {
      VersionKeyInjective(a, b);
    }
  }

  ghost predicate NoSourceTwice(edges: seq<Edge>)
  {
    forall i, j | 0 <= i < j < |edges| :: edges[i].source != edges[j].source
  }

  lemma SourceMember(edges: seq<Edge>, r: SchemaRef)
    ensures r in Sources(edges) <==> exists e :: e in edges && e.source == r
  {
    if r in Sources(edges) {
      var i :| 0 <= i < |edges| && Sources(edges)[i] == r;
      assert edges[i] in edges;
    }
    if e :| e in edges && e.source == r {
      var i :| 0 <= i < |edges| && edges[i] == e;
      assert Sources(edges)[i] == r;
    }
  }

  lemma SourcesMean(w: World, catalog: Catalog, schemaId: string, edges: seq<Edge>, preds: seq<SchemaRef>)
    requires CatalogOK(w, catalog) && SourcesReady(catalog, schemaId, edges) && NoSourceTwice(edges)
    ensures SourcesInOrder(preds, edges) <==> preds == SortBy(Sources(edges), PredecessorKey)
  {
    hide CatalogOK, SortBy, PredecessorKey, Before, LowerText, Resolves;
    var sources := Sources(edges);
    var sorted := SortBy(sources, PredecessorKey);
    forall r: SchemaRef
      ensures r in sources <==> exists e :: e in edges && e.source == r
      ensures r in sorted <==> r in sources
      ensures r in sources ==> r.schemaId == schemaId && Resolves(catalog, r)
    {
      SourceMember(edges, r);
      SortByMember(sources, PredecessorKey, r);
      if r in sources {
        assert exists x :: x in catalog.schemas && x.ref == r;
        ResolvesMeans(catalog, r);
      }
    }
    forall a, b | a in sources && b in sources
      ensures Before(PredecessorKey(a), PredecessorKey(b)) <==> LowerText(a.version, b.version)
      ensures a != b ==> PredecessorKey(a) != PredecessorKey(b)
    {
      CataloguedOrder(w, catalog, schemaId, a, b);
    }
    assert DistinctKeys(sources, PredecessorKey) by {
      forall i, j | 0 <= i < j < |sources|
        ensures PredecessorKey(sources[i]) != PredecessorKey(sources[j])
      {
        assert sources[i] in sources && sources[j] in sources && sources[i] != sources[j];
      }
    }
    SortIsStrict(sources, PredecessorKey);
    forall i, j | 0 <= i < j < |sorted|
      ensures LowerText(sorted[i].version, sorted[j].version)
    {
      assert sorted[i] in sorted && sorted[j] in sorted;
    }
    if SourcesInOrder(preds, edges) {
      forall i, j | 0 <= i < j < |preds|
        ensures Before(PredecessorKey(preds[i]), PredecessorKey(preds[j]))
      {
        assert preds[i] in preds && preds[j] in preds;
        assert preds[i] in sources && preds[j] in sources;
      }
      StrictUnique(preds, sorted, PredecessorKey);
    }
  }

  lemma ResolvesMeans(catalog: Catalog, r: SchemaRef)
    ensures Resolves(catalog, r) <==> exists x :: x in catalog.schemas && x.ref == r
  {
  }

  lemma TargetMeans(w: World, catalog: Catalog, x: SchemaEntry, target: Candidate, edges: seq<Edge>)
    requires CatalogOK(w, catalog) && SourcesReady(catalog, target.schemaId, edges) && NoSourceTwice(edges)
    requires Addressed(target)
    ensures TargetDeclared(w, x, target, edges) <==> x == TargetEntry(w, target, edges)
  {
    hide CatalogOK, SortBy, SourcesReady, NoSourceTwice, SourcesInOrder;
    SourcesMean(w, catalog, target.schemaId, edges, x.predecessors);
  }

  // ---------------------------------------------------------------- its upcasters

  /** The golden vectors with the digests of their contents. */
  function Digested(w: World, vs: seq<VectorInput>): (r: seq<GoldenVector>)
  {
    seq(|vs|, i requires 0 <= i < |vs| =>
      GoldenVector(vs[i].input.path, w.sha(vs[i].input.contents), vs[i].output.path, w.sha(vs[i].output.contents)))
  }

  /** Exactly those vectors, by input and then output path. */
  ghost predicate VectorsInOrder(w: World, vectors: seq<GoldenVector>, vs: seq<VectorInput>)
  {
    && multiset(vectors) == multiset(Digested(w, vs))
    && forall i, j | 0 <= i < j < |vectors| ::
         !PairBelow((vectors[j].inputPath, vectors[j].outputPath), (vectors[i].inputPath, vectors[i].outputPath))
  }

  ghost predicate UpcasterDeclared(w: World, u: Upcaster, e: Edge, target: SchemaRef)
  {
    && u.id == e.id && u.source == e.source && u.target == target
    && u.codePath == e.code.path && u.codeSha == w.sha(e.code.contents)
    && u.codeId == w.upcasterId("CODE", w.sha(e.code.contents))
    && u.runtimePath == e.runtime.path && u.runtimeSha == w.sha(e.runtime.contents)
    && u.runtimeId == w.upcasterId("RUNTIME", w.sha(e.runtime.contents))
    && VectorsInOrder(w, u.vectors, e.vectors)
  }

  /** Vectors with the same two paths have the same contents. */
  ghost predicate VectorsAgree(vs: seq<VectorInput>)
  {
    forall v, x | v in vs && x in vs ::
      && (v.input.path == x.input.path ==> v.input.contents == x.input.contents)
      && (v.output.path == x.output.path ==> v.output.contents == x.output.contents)
  }

  function GoldenPair(g: GoldenVector): (string, string) { (g.inputPath, g.outputPath) }

  lemma GoldenOrder(a: GoldenVector, b: GoldenVector)
    ensures Before(GoldenKey(a), GoldenKey(b)) <==> PairBelow(GoldenPair(a), GoldenPair(b))
    ensures GoldenKey(a) == GoldenKey(b) ==> GoldenPair(a) == GoldenPair(b)
  {
    hide Before, TextKey, PairBelow;
    PairOrder(GoldenPair(a), GoldenPair(b));
    if GoldenKey(a) == GoldenKey(b) {
      TextKeyPrefixFree(a.inputPath, TextKey(a.outputPath), b.inputPath, TextKey(b.outputPath));
      TextKeyInjective(a.outputPath, b.outputPath);
    }
  }

  lemma DigestedTies(w: World, vs: seq<VectorInput>)
    requires VectorsAgree(vs)
    ensures TiesEqual(Digested(w, vs), GoldenKey)
  {
    hide GoldenKey;
    var gs := Digested(w, vs);
    forall i, j | 0 <= i < |gs| && 0 <= j < |gs| && GoldenKey(gs[i]) == GoldenKey(gs[j])
      ensures gs[i] == gs[j]
    {
      GoldenOrder(gs[i], gs[j]);
      assert vs[i] in vs && vs[j] in vs;
    }
  }

  lemma TiesKeep<T(!new)>(a: seq<T>, b: seq<T>, key: T -> Key)
    requires multiset(a) == multiset(b) && TiesEqual(b, key)
    ensures TiesEqual(a, key)
  {
    forall i, j | 0 <= i < |a| && 0 <= j < |a| && key(a[i]) == key(a[j])
      ensures a[i] == a[j]
    {
      assert a[i] in multiset(b) && a[j] in multiset(b);
      var k :| 0 <= k < |b| && b[k] == a[i];
      var l :| 0 <= l < |b| && b[l] == a[j];
    }
  }

  lemma VectorsMean(w: World, vectors: seq<GoldenVector>, vs: seq<VectorInput>)
    requires VectorsAgree(vs)
    ensures VectorsInOrder(w, vectors, vs) <==> vectors == SortBy(Goldens(w, vs), GoldenKey)
  {
    hide GoldenKey, Before, PairBelow, SortBy, TiesEqual;
    assert Digested(w, vs) == Goldens(w, vs);
    var sorted := SortBy(Goldens(w, vs), GoldenKey);
    SortByKeeps(Goldens(w, vs), GoldenKey);
    forall a: GoldenVector, b: GoldenVector
      ensures Before(GoldenKey(a), GoldenKey(b)) <==> PairBelow(GoldenPair(a), GoldenPair(b))
    {
      GoldenOrder(a, b);
    }
    assert forall i, j | 0 <= i < j < |sorted| :: !PairBelow(GoldenPair(sorted[j]), GoldenPair(sorted[i]));
    if VectorsInOrder(w, vectors, vs) {
      assert forall i, j | 0 <= i < j < |vectors| :: !PairBelow(GoldenPair(vectors[j]), GoldenPair(vectors[i]));
      DigestedTies(w, vs);
      TiesKeep(vectors, Goldens(w, vs), GoldenKey);
      AscendingDetermined(vectors, sorted, GoldenKey);
    }
  }

  lemma UpcasterMeans(w: World, u: Upcaster, e: Edge, target: SchemaRef)
    requires VectorsAgree(e.vectors)
    ensures UpcasterDeclared(w, u, e, target) <==> u == UpcasterOf(w, e, target)
  {
    hide VectorsAgree, VectorsInOrder, SortBy;
    VectorsMean(w, u.vectors, e.vectors);
  }

  /** One upcaster for each edge, in that order. */
  ghost predicate UpcastersDeclared(w: World, added: seq<Upcaster>, order: seq<Edge>, target: SchemaRef)
  {
    |added| == |order| && forall i | 0 <= i < |order| :: UpcasterDeclared(w, added[i], order[i], target)
  }

  lemma UpcastersMean(w: World, added: seq<Upcaster>, order: seq<Edge>, target: SchemaRef)
    requires forall e | e in order :: VectorsAgree(e.vectors)
    ensures UpcastersDeclared(w, added, order, target) <==> added == Upcasters(w, order, target)
  {
    hide UpcasterDeclared, VectorsAgree, UpcasterOf;
    var planned := Upcasters(w, order, target);
    forall i | 0 <= i < |order|
      ensures UpcasterDeclared(w, planned[i], order[i], target)
      ensures i < |added| ==> (UpcasterDeclared(w, added[i], order[i], target) <==> added[i] == planned[i])
    {
      assert order[i] in order;
      UpcasterMeans(w, planned[i], order[i], target);
      if i < |added| {
        UpcasterMeans(w, added[i], order[i], target);
      }
    }
  }

  function InputFile(v: VectorInput): Artifact { Artifact(v.input.path, v.input.contents, "UPCASTER_GOLDEN_INPUT") }

  function OutputFile(v: VectorInput): Artifact { Artifact(v.output.path, v.output.contents, "UPCASTER_GOLDEN_OUTPUT") }

  lemma VectorBrings(target: Candidate, edges: seq<Edge>, e: Edge, v: VectorInput)
    requires e in edges && v in e.vectors
    ensures Brings(target, edges, InputFile(v)) && Brings(target, edges, OutputFile(v))
  {
    assert EdgeBrings(e, InputFile(v)) && EdgeBrings(e, OutputFile(v));
  }

  lemma AgreeingVectors(target: Candidate, edges: seq<Edge>, e: Edge)
    requires Agreeing(target, edges) && e in edges
    ensures VectorsAgree(e.vectors)
  {
    hide Brings, EdgeBrings;
    forall v, x | v in e.vectors && x in e.vectors
      ensures v.input.path == x.input.path ==> v.input.contents == x.input.contents
      ensures v.output.path == x.output.path ==> v.output.contents == x.output.contents
    {
      VectorBrings(target, edges, e, v);
      VectorBrings(target, edges, e, x);
      assert InputFile(v).path == v.input.path && InputFile(x).path == x.input.path;
      assert OutputFile(v).path == v.output.path && OutputFile(x).path == x.output.path;
    }
  }

  lemma IdOrderMeans(edges: seq<Edge>, order: seq<Edge>)
    requires forall i, j | 0 <= i < j < |edges| :: edges[i].id != edges[j].id
    ensures IdOrder(edges, order) <==> order == SortBy(edges, EdgeKey)
  {
    hide SortBy, Below, Before, TextKey;
    var sorted := SortBy(edges, EdgeKey);
    forall i, j | 0 <= i < j < |edges|
      ensures EdgeKey(edges[i]) != EdgeKey(edges[j])
    {
      TextKeyInjective(edges[i].id, edges[j].id);
    }
    SortIsStrict(edges, EdgeKey);
    forall e: Edge
      ensures e in sorted <==> e in edges
    {
      SortByMember(edges, EdgeKey, e);
    }
    forall a: Edge, b: Edge
      ensures Before(EdgeKey(a), EdgeKey(b)) <==> Below(a.id, b.id)
    {
      TextKeysOrder(a.id, b.id);
    }
    if IdOrder(edges, order) {
      StrictUnique(order, sorted, EdgeKey);
    }
  }
}
