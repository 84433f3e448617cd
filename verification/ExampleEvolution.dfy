/** A concrete evolution of schema a: one new version with one incoming upcaster. */
module ExampleEvolution {
  import opened Text
  import opened Ordering
  import opened Versions
  import opened Catalogs
  import opened Registry
  import opened Planning
  import opened Transactions
  import opened Routes
  import opened UpcasterGraph
  import opened Immutability
  import opened PublisherChecker
  import opened BundleSequence
  import opened ExampleWorlds
  import opened ExampleTrees

  predicate Anything(c: Catalog, files: Files) { true }

  function Accepting(): World { Example(Anything) }

  const RUNTIME := "r.json"
  const INPUT := "i.json"
  const OUTPUT := "o.json"

  function Target(): Candidate
  {
    Candidate("t", SCHEMA_HOST + "a", "1.1.0", PathOf('t'), SCHEMA_HOST + PathOf('t'), ByteOf('t'), ByteOf('t'), META)
  }

  function OldRef(): SchemaRef { CandidateRef(Accepting(), CandidateOf('a')) }

  function EdgeWith(code: Path): Edge
  {
    Edge("e", OldRef(), Input(code, [3]), Input(RUNTIME, [4]), true,
         [VectorInput(Input(INPUT, [5]), Input(OUTPUT, [6]))])
  }

  function NewEntry(code: Path): SchemaEntry { TargetEntry(Accepting(), Target(), [EdgeWith(code)]) }

  function NewUpcaster(code: Path): Upcaster
  {
    UpcasterOf(Accepting(), EdgeWith(code), CandidateRef(Accepting(), Target()))
  }

  function OldEntry(): SchemaEntry { EntryOf(Accepting(), CandidateOf('a')) }

  /** The catalog after the evolution. */
  function Evolved(code: Path): Catalog { Catalog([OldEntry(), NewEntry(code)], [NewUpcaster(code)]) }

  /** The same versions, with the predecessor declared but no upcaster. */
  function Declared(code: Path): Catalog { Catalog([OldEntry(), NewEntry(code)], []) }

  // ---------------------------------------------------------------- short paths

  /** A name without directories. */
  predicate ShortName(p: Path)
  {
    1 < |p| < 12 && p != ".." && forall i | 0 <= i < |p| :: SafeCharacter(p[i])
  }

  lemma ShortNameIsSafe(p: Path)
    requires ShortName(p)
    ensures SafePath(p) && RegistryPath(p) && !IsScanned(p)
  {
    assert '/' !in p;
    SplitHead(p, '/', "");
    hide RegistryPath;
    RegistryPathIsSafe(p);
  }

  lemma FixedNames()
    ensures ShortName(RUNTIME) && ShortName(INPUT) && ShortName(OUTPUT) && ShortName("c.py")
    ensures RUNTIME[0] == 'r' && INPUT[0] == 'i' && OUTPUT[0] == 'o' && "c.py"[0] == 'c'
  {
  }

  /** A code path the registry takes. */
  ghost predicate CodePath(code: Path)
  {
    RegistryPath(code) && |code| < 12 && code != "" && code[0] == 'c'
  }

  // ---------------------------------------------------------------- the new version

  lemma SortOne<T>(x: T, key: T -> Key)
    ensures SortBy([x], key) == [x]
  {
    assert [x][1..] == [];
  }

  lemma OnePredecessor(code: Path)
    ensures NewEntry(code).predecessors == [OldRef()]
    ensures NewUpcaster(code).vectors == [Golden(Accepting(), EdgeWith(code).vectors[0])]
  {
    hide CandidateRef, PredecessorKey, GoldenKey, SortBy;
    assert Sources([EdgeWith(code)]) == [OldRef()];
    SortOne(OldRef(), PredecessorKey);
    var g := Golden(Accepting(), EdgeWith(code).vectors[0]);
    assert Goldens(Accepting(), EdgeWith(code).vectors) == [g];
    SortOne(g, GoldenKey);
  }

  lemma VersionsRise()
    ensures LowerVersion(OldRef(), CandidateRef(Accepting(), Target()))
    ensures VersionKey("1.1.0").Some?
  {
    hide VersionKey;
    VersionOne('0', 0);
    VersionOne('1', 1);
    assert "1." + ['0'] + ".0" == "1.0.0" && "1." + ['1'] + ".0" == "1.1.0";
  }

  lemma NewEntryOK(c: Catalog, code: Path)
    requires Resolves(c, OldRef())
    ensures EntryOK(Accepting(), c, NewEntry(code))
  {
    OnePredecessor(code);
    VersionsRise();
    PathFacts('t');
    DigestIsHex('t' as int);
    hide IsScanned, InVersionDirectory, PathOf, VersionKey, RegistryPath, HexDigest, ByteDigest, SortBy, Resolves,
         LowerVersion;
    assert NewEntry(code).ref.schemaId == OldRef().schemaId;
  }

  lemma OldAndNewSeparate(code: Path)
    ensures SeparateEntries(OldEntry(), NewEntry(code))
  {
    hide PathOf, ByteDigest, SortBy;
    PathsDiffer('a', 't');
    SameHostDiffers(PathOf('a'), PathOf('t'));
    DigestInjective(ByteOf('a'), ByteOf('t'));
    assert ByteOf('a')[0] != ByteOf('t')[0];
    assert "1.0.0"[2] != "1.1.0"[2];
  }

  lemma OldResolves(c: Catalog)
    requires OldEntry() in c.schemas
    ensures Resolves(c, OldRef())
  {
  }

  /** The upcaster's pins, in order. */
  lemma NewPins(code: Path)
    ensures UpcasterPins(NewUpcaster(code))
         == [Pin(code, ByteDigest([3])), Pin(RUNTIME, ByteDigest([4])),
             Pin(INPUT, ByteDigest([5])), Pin(OUTPUT, ByteDigest([6]))]
  {
    hide ByteDigest, CandidateRef;
    OnePredecessor(code);
    hide SortBy;
    var u := NewUpcaster(code);
    assert u.vectors[1..] == [];
    assert VectorPins(u.vectors)
        == [Pin(INPUT, ByteDigest([5])), Pin(OUTPUT, ByteDigest([6]))] + VectorPins(u.vectors[1..]);
    assert VectorPins(u.vectors) == [Pin(INPUT, ByteDigest([5])), Pin(OUTPUT, ByteDigest([6]))];
  }

  lemma NewPinsOK(code: Path)
    requires CodePath(code)
    ensures forall p | p in UpcasterPins(NewUpcaster(code)) :: PinOK(p)
  {
    hide UpcasterPins, RegistryPath, HexDigest, ByteDigest, ShortName, NewUpcaster, SafePath, IsScanned;
    NewPins(code);
    FixedNames();
    ShortNameIsSafe(RUNTIME);
    ShortNameIsSafe(INPUT);
    ShortNameIsSafe(OUTPUT);
    DigestIsHex(3);
    DigestIsHex(4);
    DigestIsHex(5);
    DigestIsHex(6);
  }

  /** The parts of the new edge that are not its pins. */
  lemma NewUpcasterIs(code: Path)
    ensures var u := NewUpcaster(code);
            && u.id == "e" && u.source == OldRef() && u.target == NewEntry(code).ref && |u.vectors| == 1
            && u.source.schemaId == u.target.schemaId && u.source in NewEntry(code).predecessors
  {
    hide SortBy, ByteDigest, PathOf;
    OnePredecessor(code);
  }

  lemma IdIsOK()
    ensures UpcasterIdOK("e")
  {
    SplitHead("e", '-', "");
  }

  lemma NewUpcasterOK(c: Catalog, code: Path)
    requires CodePath(code) && OldEntry() in c.schemas && NewEntry(code) in c.schemas
    ensures UpcasterOK(c, NewUpcaster(code))
  {
    hide PinOK, UpcasterPins, UpcasterIdOK, Resolves, LowerVersion, NewUpcaster, NewEntry, OldEntry, OldRef, VersionKey,
         CandidateRef;
    NewPinsOK(code);
    NewUpcasterIs(code);
    IdIsOK();
    VersionsRise();
    NewTargetRef(code);
    OldResolves(c);
  }

  lemma NewTargetRef(code: Path)
    ensures NewEntry(code).ref == CandidateRef(Accepting(), Target())
  {
    hide SortBy, CandidateRef;
  }

  lemma RouteOverOneEdge(u: Upcaster, r: SchemaRef, route: seq<Upcaster>, end: SchemaRef)
    requires Route([u], r, route, end)
    ensures route != [] ==> route[|route| - 1] == u && end == u.target
    ensures |route| == 1 ==> r == u.source
    ensures |route| > 1 ==> u.source == u.target
  {
    if |route| > 1 {
      var init := route[..|route| - 1];
      assert init[|init| - 1] in [u];
    }
  }

  lemma OneEdgeOneRoute(u: Upcaster, r: SchemaRef)
    requires u.source != u.target
    ensures OneRouteEach([u], r)
  {
    forall route, end | Route([u], r, route, end)
      ensures |route| <= 1 && (route == [] ==> r == end)
      ensures route != [] ==> route == [u] && r == u.source && end == u.target
    {
      RouteOverOneEdge(u, r, route, end);
    }
  }

  lemma EvolvedOK(code: Path)
    requires CodePath(code)
    ensures CatalogOK(Accepting(), Evolved(code))
    ensures CatalogOK(Accepting(), Declared(code))
  {
    var w, c, d := Accepting(), Evolved(code), Declared(code);
    hide EntryOK, UpcasterOK, SeparateEntries, SinglePaths, OneRouteEach, Resolves, NewEntry, OldEntry, NewUpcaster,
         SeparateUpcasters;
    assert c.schemas[0] == OldEntry() && c.schemas[1] == NewEntry(code);
    OldResolves(c);
    OldResolves(d);
    NewEntryOK(c, code);
    NewEntryOK(d, code);
    OldStays(c);
    OldStays(d);
    OldAndNewSeparate(code);
    NewUpcasterOK(c, code);
    assert EdgesOK(w, c) && EdgesOK(w, d);
    EdgeRisesHere(code);
    forall r: SchemaRef
      ensures OneRouteEach(c.upcasters, r) && OneRouteEach(d.upcasters, r)
    {
      OneEdgeOneRoute(NewUpcaster(code), r);
      NoEdgeOneRoute(r);
    }
    SweepMeansOneRoute(w, c);
    SweepMeansOneRoute(w, d);
  }

  lemma EdgeRisesHere(code: Path)
    ensures NewUpcaster(code).source != NewUpcaster(code).target
  {
    assert "1.0.0"[2] != "1.1.0"[2];
  }

  lemma NoEdgeOneRoute(r: SchemaRef)
    ensures OneRouteEach([], r)
  {
  }

  lemma OldStays(c: Catalog)
    ensures EntryOK(Accepting(), c, OldEntry())
  {
    PlainEntryOK(Anything, c, 'a');
  }

  // ---------------------------------------------------------------- predecessors without edges

  lemma NotExact(c: Catalog, e: SchemaEntry)
    requires c.upcasters == [] && e in c.schemas && e.predecessors != []
    ensures !Exact(c)
  {
    assert e.predecessors[0] in PredecessorSet(e);
    assert Incoming(c, e.ref) == {};
    assert SourcesOf({}) == {};
    assert !ExactEntry(c, e);
  }

  /** The registry accepts a catalog whose predecessors are not the sources of any edge. */
  lemma DeclaredPredecessorWithoutEdge()
    ensures CatalogOK(Accepting(), Declared("c.py")) && !Exact(Declared("c.py"))
  {
    hide CatalogOK, SortBy, ShortName, RegistryPath, Exact, NewEntry, OldEntry;
    FixedNames();
    ShortNameIsSafe("c.py");
    assert |"c.py"| == 4;
    EvolvedOK("c.py");
    OnePredecessor("c.py");
    assert Declared("c.py").schemas[1] == NewEntry("c.py");
    NotExact(Declared("c.py"), NewEntry("c.py"));
  }

  // ---------------------------------------------------------------- the tree after the evolution

  /** The files the edge brings. */
  function EdgeFiles(code: Path): Files { map[code := [3], RUNTIME := [4], INPUT := [5], OUTPUT := [6]] }

  function EvolvedFiles(code: Path): Files
  {
    EdgeFiles(code) + map[PathOf('a') := ByteOf('a'), PathOf('t') := ByteOf('t')]
  }

  function EvolvedTree(code: Path): Disk { Disk(Evolved(code), EvolvedFiles(code), None) }

  lemma FileNamesDiffer(code: Path)
    requires CodePath(code)
    ensures code !in {RUNTIME, INPUT, OUTPUT} && RUNTIME !in {INPUT, OUTPUT} && INPUT != OUTPUT
    ensures PathOf('a') != PathOf('t') && {PathOf('a'), PathOf('t')} !! {code, RUNTIME, INPUT, OUTPUT}
  {
    FixedNames();
    PathsDiffer('a', 't');
    assert PathOf('a')[0] == 'v' && PathOf('t')[0] == 'v';
  }

  lemma EvolvedPins(code: Path)
    ensures Pins(Evolved(code))
         == [Pin(PathOf('a'), ByteDigest(ByteOf('a'))), Pin(PathOf('t'), ByteDigest(ByteOf('t')))]
            + UpcasterPins(NewUpcaster(code))
    ensures SchemaPaths(Evolved(code)) == {PathOf('a'), PathOf('t')}
  {
    hide PathOf, ByteDigest, UpcasterPins, SortBy, UpcasterOf;
    var c := Evolved(code);
    assert c.upcasters[1..] == [];
    assert AllUpcasterPins(c.upcasters) == UpcasterPins(NewUpcaster(code)) + AllUpcasterPins(c.upcasters[1..]);
    var x, y := SchemaPin(OldEntry()), SchemaPin(NewEntry(code));
    assert SchemaPins(c.schemas) == [x, y];
    PinPair(x, y);
  }

  lemma EvolvedPinned(code: Path)
    requires CodePath(code)
    ensures Pinned(Accepting(), Evolved(code), EvolvedFiles(code))
  {
    hide PathOf, ByteDigest, Pins, UpcasterPins, Evolved, EvolvedFiles, CodePath;
    EvolvedPins(code);
    NewPins(code);
    EvolvedFilesAt(code);
  }

  lemma EvolvedFilesAt(code: Path)
    requires CodePath(code)
    ensures var files := EvolvedFiles(code);
            && files.Keys == {code, RUNTIME, INPUT, OUTPUT, PathOf('a'), PathOf('t')}
            && files[code] == [3] && files[RUNTIME] == [4] && files[INPUT] == [5] && files[OUTPUT] == [6]
            && files[PathOf('a')] == ByteOf('a') && files[PathOf('t')] == ByteOf('t')
  {
    hide PathOf, CodePath;
    FileNamesDiffer(code);
  }

  lemma EvolvedClosed(code: Path)
    requires CodePath(code)
    ensures SchemaClosed(Accepting(), EvolvedTree(code))
  {
    hide PathOf, InVersionDirectory, SchemaPaths, Evolved, RegistryPath;
    EvolvedPins(code);
    PathFacts('a');
    PathFacts('t');
    FixedNames();
    forall p | p in {code, RUNTIME, INPUT, OUTPUT}
      ensures !IsScanned(p)
    {
      assert |p| < 12 == |SCHEMA_SUFFIX|;
    }
    hide IsScanned;
  }

  lemma EvolvedTreeOK(code: Path)
    requires CodePath(code)
    ensures RegistryOK(Accepting(), EvolvedTree(code)) && GraphRuns(Accepting(), Evolved(code), EvolvedFiles(code))
  {
    EvolvedOK(code);
    EvolvedPinned(code);
    EvolvedClosed(code);
    hide CatalogOK, Pinned, SchemaClosed, Evolved, EvolvedFiles, CatalogPaths, Restrict;
  }

  // ---------------------------------------------------------------- a path with a final newline

  lemma NewlineCode()
    ensures CodePath("c.py\n") && EndsWith("c.py\n", "\n")
  {
    var p := "c.py\n";
    assert p[|p| - 1..] == "\n" && p[..|p| - 1] == "c.py";
    SplitHead(p, '/', "");
    assert Split(p, '/') == [p] && p !in {"", ".", ".."};
    var q := "c.py";
    assert q[0] == 'c' && q[1] == '.' && q[2] == 'p' && q[3] == 'y';
    assert forall i | 0 <= i < |q| :: SafeCharacter(q[i]);
    hide SafeCharacter, Split;
    assert PathPattern(p);
  }

  /** The registry accepts this tree; the immutability check refuses it even against itself. */
  lemma NewlinePathFailsTheCheck()
    ensures var d := EvolvedTree("c.py\n");
            && RegistryOK(Accepting(), d)
            && !NoFinalNewline(d.catalog.upcasters)
            && !Passes(Accepting(), TreeOf(d), TreeOf(d))
  {
    var code := "c.py\n";
    var d := EvolvedTree(code);
    hide CodePath, RegistryOK, UpcasterPins, EndsWith, EvolvedFiles, WellFormed;
    NewlineCode();
    EvolvedTreeOK(code);
    RegistryCatalog(Accepting(), d);
    ValidIsWellFormed(Accepting(), d.catalog);
    NewPins(code);
    assert UpcasterPins(NewUpcaster(code))[0].path == code;
    assert d.catalog.upcasters[0] == NewUpcaster(code);
  }

  // ---------------------------------------------------------------- planning the evolution

  const CODE := "c.py"

  function EvolveA(): Request { Evolution(Target(), [EdgeWith(CODE)]) }

  /** The tree of schema a alone. */
  function QuietTree(): Disk { Disk(PlainCatalog(Accepting(), "a"), PlainFiles("a", map[]), None) }

  lemma QuietTreeIs()
    ensures QuietTree().catalog == Catalog([OldEntry()], [])
    ensures QuietTree().files == map[PathOf('a') := ByteOf('a')]
    ensures RegistryOK(Accepting(), QuietTree())
  {
    hide PathOf, RegistryOK, CandidateOf;
    PlainTreeOK(Anything, "a", map[]);
    var cs := Candidates("a");
    assert cs == [CandidateOf('a')] && cs[..0] == [];
    assert Entries(Accepting(), cs) == [OldEntry()];
    CandidatePath('a');
    CandidateContents('a');
    assert FilesOf(cs) == map[PathOf('a') := ByteOf('a')];
  }

  lemma CandidateContents(name: char)
    requires Letter(name)
    ensures CandidateOf(name).contents == ByteOf(name)
  {
  }

  lemma {:induction false} AddAllDistinct(first: seq<Artifact>, more: seq<Artifact>)
    requires DistinctPaths(first + more)
    ensures AddAll(first, more) == Some(first + more)
    decreases |more|
  {
    if more == [] {
      assert first + more == first;
    } else {
      assert (first + more)[|first|] == more[0];
      assert forall i | 0 <= i < |first| :: (first + more)[i] == first[i];
      assert first + [more[0]] + more[1..] == first + more;
      AddAllDistinct(first + [more[0]], more[1..]);
    }
  }

  function SchemaFile(): Artifact { SchemaArtifact(Target(), "SCHEMA") }

  function CodeFile(): Artifact { Artifact(CODE, [3], "UPCASTER_CODE") }

  function RuntimeFile(): Artifact { Artifact(RUNTIME, [4], "UPCASTER_RUNTIME") }

  function InputFile(): Artifact { Artifact(INPUT, [5], "UPCASTER_GOLDEN_INPUT") }

  function OutputFile(): Artifact { Artifact(OUTPUT, [6], "UPCASTER_GOLDEN_OUTPUT") }

  /** The artifacts in path order: the upcaster code comes first, the schema last. */
  function Ordered(): seq<Artifact> { [CodeFile(), InputFile(), OutputFile(), RuntimeFile(), SchemaFile()] }

  lemma EdgeBrings()
    ensures AllEdgeArtifacts([EdgeWith(CODE)]) == [CodeFile(), RuntimeFile(), InputFile(), OutputFile()]
  {
    var e := EdgeWith(CODE);
    assert [e][1..] == [] && e.vectors[1..] == [];
    assert VectorArtifacts(e.vectors) == [InputFile(), OutputFile()];
  }

  lemma CodeIsShort()
    ensures CodePath(CODE)
  {
    hide RegistryPath;
    FixedNames();
    ShortNameIsSafe(CODE);
  }

  lemma CollectedFiles()
    ensures AddAll([SchemaFile()], AllEdgeArtifacts([EdgeWith(CODE)]))
         == Some([SchemaFile(), CodeFile(), RuntimeFile(), InputFile(), OutputFile()])
    ensures DistinctPaths([SchemaFile(), CodeFile(), RuntimeFile(), InputFile(), OutputFile()])
  {
    hide PathOf, AddAll, AllEdgeArtifacts, CodePath;
    EdgeBrings();
    CodeIsShort();
    FileNamesDiffer(CODE);
    var more := [CodeFile(), RuntimeFile(), InputFile(), OutputFile()];
    assert [SchemaFile()] + more == [SchemaFile(), CodeFile(), RuntimeFile(), InputFile(), OutputFile()];
    AddAllDistinct([SchemaFile()], more);
  }

  lemma FirstLetterOrder(a: string, b: string)
    requires a != "" && b != "" && a[0] < b[0]
    ensures Before(TextKey(a), TextKey(b)) && !Before(TextKey(b), TextKey(a)) && TextKey(a) != TextKey(b)
  {
    TextBeforeAt(a, [], b, [], 0);
    assert TextKey(a) + [] == TextKey(a) && TextKey(b) + [] == TextKey(b);
    BeforeTotal(TextKey(a), TextKey(b));
  }

  lemma OrderedIsSorted()
    ensures SortBy([SchemaFile(), CodeFile(), RuntimeFile(), InputFile(), OutputFile()], PathKey) == Ordered()
  {
    hide PathOf, TextKey, Before, SortBy;
    var collected := [SchemaFile(), CodeFile(), RuntimeFile(), InputFile(), OutputFile()];
    var ordered := Ordered();
    FixedNames();
    assert PathOf('t')[0] == 'v' by { PathStarts(); }
    forall i, j | 0 <= i < j < 5
      ensures !Before(PathKey(ordered[j]), PathKey(ordered[i])) && PathKey(ordered[i]) != PathKey(ordered[j])
    {
      FirstLetterOrder(ordered[i].path, ordered[j].path);
    }
    assert multiset(collected) == multiset(ordered);
    SortByKeeps(collected, PathKey);
    AscendingUnique(ordered, SortBy(collected, PathKey), PathKey);
  }

  lemma PathStarts()
    ensures PathOf('t') != "" && PathOf('t')[0] == 'v'
  {
  }

  /** What makes `PlanEvolution` publish. */
  lemma EvolutionPublishesIf(w: World, d: Disk, target: Candidate, edges: seq<Edge>, artifacts: seq<Artifact>,
      catalog: Catalog)
    requires RegistryOK(w, d) && EvolutionInputsOK(d, CandidateRef(w, target), target, edges)
    requires var collected := AddAll([SchemaArtifact(target, "SCHEMA")], AllEdgeArtifacts(SortBy(edges, EdgeKey)));
             collected.Some? && artifacts == SortBy(collected.value, PathKey)
    requires catalog == EvolutionTarget(w, d.catalog, target, edges)
    requires Compatible(d.files, artifacts) && !Published(d.catalog, target) && d.catalog.upcasters == []
    requires RegistryOK(w, Disk(catalog, d.files + Contents(artifacts), None))
    requires GraphRuns(w, catalog, d.files + Contents(artifacts))
    ensures PlanEvolution(w, d, target, edges)
         == Publish(Tx(d.catalog, catalog, artifacts, MarkerFor(w, artifacts, d.catalog, catalog), true))
  {
    hide RegistryOK, GraphRuns, EvolutionInputsOK, SortBy, AddAll, AllEdgeArtifacts, EvolutionTarget, Compatible,
         Published, Contents, Upcasters;
  }

  lemma EdgeIsOK(c: Catalog)
    requires OldEntry() in c.schemas
    ensures EdgeOK(c, CandidateRef(Accepting(), Target()), EdgeWith(CODE))
  {
    hide LowerVersion, SafePath, Resolves, ShortName, RegistryPath, IsScanned, ByteDigest;
    OldResolves(c);
    VersionsRise();
    FixedNames();
    ShortNameIsSafe(CODE);
    ShortNameIsSafe(RUNTIME);
    ShortNameIsSafe(INPUT);
    ShortNameIsSafe(OUTPUT);
    assert CODE[1..] == ".py" && RUNTIME[1..] == ".json" && INPUT[1..] == ".json" && OUTPUT[1..] == ".json";
  }

  lemma EvolutionInputs(d: Disk)
    requires OldEntry() in d.catalog.schemas
    ensures EvolutionInputsOK(d, CandidateRef(Accepting(), Target()), Target(), [EdgeWith(CODE)])
  {
    hide EdgeOK, SchemaPathOK, PathOf, EdgeWith, CandidateRef;
    EdgeIsOK(d.catalog);
    PathFacts('t');
  }

  lemma TargetIs()
    ensures EvolutionTarget(Accepting(), Catalog([OldEntry()], []), Target(), [EdgeWith(CODE)]) == Evolved(CODE)
    ensures SortBy([EdgeWith(CODE)], EdgeKey) == [EdgeWith(CODE)]
  {
    hide SortBy, UpcasterOf, TargetEntry, OldEntry, CandidateRef, EdgeWith;
    SortOne(EdgeWith(CODE), EdgeKey);
    assert Upcasters(Accepting(), [EdgeWith(CODE)], CandidateRef(Accepting(), Target())) == [NewUpcaster(CODE)];
  }

  lemma TargetUnpublished()
    ensures !Published(Catalog([OldEntry()], []), Target())
  {
    hide PathOf, ByteDigest;
    assert "1.0.0"[2] != "1.1.0"[2];
    assert [OldEntry()][1..] == [];
  }

  lemma OrderedPaths()
    ensures DistinctPaths(Ordered())
    ensures ArtifactPaths(Ordered()) == {CODE, INPUT, OUTPUT, RUNTIME, PathOf('t')}
  {
    hide PathOf, CodePath;
    CodeIsShort();
    FileNamesDiffer(CODE);
    var o := Ordered();
    assert o[0] in o && o[1] in o && o[2] in o && o[3] in o && o[4] in o;
  }

  lemma ContentsIs(artifacts: seq<Artifact>, files: Files)
    requires DistinctPaths(artifacts) && files.Keys == ArtifactPaths(artifacts)
    requires forall i | 0 <= i < |artifacts| :: files[artifacts[i].path] == artifacts[i].contents
    ensures Contents(artifacts) == files
  {
    hide Contents;
    forall p | p in files
      ensures Contents(artifacts)[p] == files[p]
    {
      var a :| a in artifacts && a.path == p;
      ContentsAt(artifacts, a);
    }
  }

  lemma FiveFiles(code: Bytes, input: Bytes, output: Bytes, runtime: Bytes, p: Path, schema: Bytes)
    requires {CODE, RUNTIME, INPUT, OUTPUT} !! {p}
    ensures var files := map[CODE := code, RUNTIME := runtime, INPUT := input, OUTPUT := output][p := schema];
            && files.Keys == {CODE, INPUT, OUTPUT, RUNTIME, p}
            && files[CODE] == code && files[INPUT] == input && files[OUTPUT] == output && files[RUNTIME] == runtime
            && files[p] == schema
  {
    FixedNames();
  }

  lemma OrderedContents()
    ensures Contents(Ordered()) == EdgeFiles(CODE)[PathOf('t') := ByteOf('t')]
  {
    OrderedPaths();
    CodeIsShort();
    FileNamesDiffer(CODE);
    hide PathOf, Contents, CodePath, DistinctPaths, ArtifactPaths;
    FiveFiles([3], [5], [6], [4], PathOf('t'), ByteOf('t'));
    ContentsIs(Ordered(), EdgeFiles(CODE)[PathOf('t') := ByteOf('t')]);
  }

  lemma Overlaid(edge: Files, p: Path, x: Bytes, q: Path, y: Bytes)
    requires p !in edge && q !in edge && p != q
    ensures map[p := x] + edge[q := y] == edge + map[p := x, q := y]
  {
  }

  lemma OrderedFiles()
    ensures Compatible(map[PathOf('a') := ByteOf('a')], Ordered())
    ensures map[PathOf('a') := ByteOf('a')] + Contents(Ordered()) == EvolvedFiles(CODE)
  {
    OrderedPaths();
    OrderedContents();
    CodeIsShort();
    FileNamesDiffer(CODE);
    hide PathOf, Contents, CodePath, Ordered, DistinctPaths;
    Overlaid(EdgeFiles(CODE), PathOf('a'), ByteOf('a'), PathOf('t'), ByteOf('t'));
    assert PathOf('a') !in ArtifactPaths(Ordered());
  }

  /** The transaction of the evolution. */
  function EvolutionTx(): Tx
  {
    var c := Catalog([OldEntry()], []);
    Tx(c, Evolved(CODE), Ordered(), MarkerFor(Accepting(), Ordered(), c, Evolved(CODE)), true)
  }

  lemma EvolutionIsPlanned()
    ensures MakePlan(Accepting(), QuietTree(), EvolveA()) == Publish(EvolutionTx())
    ensures Admits(Accepting(), QuietTree(), EvolutionTx())
  {
    hide RegistryOK, GraphRuns, EvolutionInputsOK, SortBy, AddAll, AllEdgeArtifacts, EvolutionTarget, Compatible,
         Published, Contents, PlanEvolution, Evolved, EvolvedFiles, OldEntry, EdgeWith, CodePath, Ordered, MarkerFor,
         Target, QuietTree, DistinctPaths;
    var w, d := Accepting(), QuietTree();
    QuietTreeIs();
    EvolutionInputs(d);
    TargetIs();
    CollectedFiles();
    OrderedIsSorted();
    OrderedPaths();
    OrderedFiles();
    TargetUnpublished();
    CodeIsShort();
    EvolvedTreeOK(CODE);
    EvolutionPublishesIf(w, d, Target(), [EdgeWith(CODE)], Ordered(), Evolved(CODE));
    OrderedRoles();
  }

  lemma OrderedRoles()
    ensures Ordered() != [] && forall a | a in Ordered() :: a.role != ""
  {
  }
}
