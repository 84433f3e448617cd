/** Concrete valid trees: schemas named by single letters, each with one byte of content. */
module ExampleTrees {
  import opened Text
  import opened Ordering
  import opened Versions
  import opened Catalogs
  import opened Registry
  import opened Planning
  import opened Transactions
  import opened Routes
  import opened PublisherChecker
  import opened BundleSequence
  import opened ExampleWorlds

  const META := Metadata("1.0", "owner", "rfc8785-v1", "p1", "0.1.0", "0.2.0")

  predicate Letter(c: char) { 'a' <= c <= 'z' }

  function PathOf(name: char): Path { "v1/" + [name] + SCHEMA_SUFFIX }

  function ByteOf(name: char): (b: Bytes)
    requires Letter(name)
    ensures |b| == 1
  {
    [name as int]
  }

  function CandidateOf(name: char): Candidate
    requires Letter(name)
  {
    Candidate([name], SCHEMA_HOST + [name], "1.0.0", PathOf(name), SCHEMA_HOST + PathOf(name),
              ByteOf(name), ByteOf(name), META)
  }

  // ---------------------------------------------------------------- paths and versions

  lemma PathPieces(name: char)
    requires Letter(name)
    ensures Split(PathOf(name), '/') == ["v1", [name] + SCHEMA_SUFFIX]
  {
    hide Split;
    var file := [name] + SCHEMA_SUFFIX;
    SplitHead("v1", '/', file);
    assert '/' !in file;
    SplitHead(file, '/', "");
    assert PathOf(name) == "v1" + ['/'] + file;
  }

  lemma PathSuffix(name: char)
    ensures IsScanned(PathOf(name)) && EndsWith(PathOf(name), SCHEMA_SUFFIX)
  {
    var p := PathOf(name);
    assert p[|p| - 12..] == SCHEMA_SUFFIX;
    assert p[0] == 'v' && CATALOG_SCHEMA_FILENAME[0] == 's';
  }

  lemma PathFacts(name: char)
    requires Letter(name)
    ensures IsScanned(PathOf(name)) && InVersionDirectory(PathOf(name)) && SchemaPathOK(PathOf(name))
    ensures RegistryPath(PathOf(name))
  {
    hide IsScanned, EndsWith, PathOf, Split;
    PathPieces(name);
    PathSuffix(name);
    var file := [name] + SCHEMA_SUFFIX;
    assert SafeSegment("v1");
    assert SafeSegment(file) by {
      assert |file| == 13;
      assert forall i | 0 <= i < |SCHEMA_SUFFIX| :: SafeCharacter(SCHEMA_SUFFIX[i]);
      assert forall i | 1 <= i < |file| :: file[i] == SCHEMA_SUFFIX[i - 1];
    }
    assert AllDigits("v1"[1..]);
    assert SafePath(PathOf(name));
    hide RegistryPath;
    RegistryPathIsSafe(PathOf(name));
  }

  lemma PathsDiffer(a: char, b: char)
    ensures PathOf(a) == PathOf(b) ==> a == b
  {
    assert PathOf(a)[3] == a && PathOf(b)[3] == b;
  }

  lemma VersionOne(minor: char, n: nat)
    requires '0' <= minor <= '9' && n == minor as int - '0' as int
    ensures VersionKey("1." + [minor] + ".0") == Some(Version(1, n, 0))
  {
    var s := "1." + [minor] + ".0";
    assert s == "1" + ['.'] + ([minor] + ['.'] + "0");
    SplitHead("1", '.', [minor] + ['.'] + "0");
    SplitHead([minor], '.', "0");
    SplitHead("0", '.', "");
    assert Split(s, '.') == ["1", [minor], "0"];
    OneDigit('1');
    OneDigit(minor);
    OneDigit('0');
  }

  lemma OneDigit(c: char)
    requires '0' <= c <= '9'
    ensures Component([c]) && Value(FromChars([c])) == c as int - '0' as int
  {
    var ds := FromChars([c]);
    assert ds[0] == c as int - '0' as int && ds[..0] == [];
  }

  lemma SameHostDiffers(a: string, b: string)
    requires a != b
    ensures SCHEMA_HOST + a != SCHEMA_HOST + b
  {
    assert (SCHEMA_HOST + a)[|SCHEMA_HOST|..] == a && (SCHEMA_HOST + b)[|SCHEMA_HOST|..] == b;
  }

  // ---------------------------------------------------------------- plain catalogs

  predicate Names(names: string)
  {
    && (forall i | 0 <= i < |names| :: Letter(names[i]))
    && (forall i, j | 0 <= i < j < |names| :: names[i] != names[j])
  }

  function Candidates(names: string): (cs: seq<Candidate>)
    requires Names(names)
    ensures |cs| == |names|
  {
    seq(|names|, i requires 0 <= i < |names| => CandidateOf(names[i]))
  }

  function PlainCatalog(w: World, names: string): Catalog
    requires Names(names)
  {
    Catalog(Entries(w, Candidates(names)), [])
  }

  lemma PlainEntryOK(accepts: (Catalog, Files) -> bool, c: Catalog, name: char)
    requires Letter(name)
    ensures EntryOK(Example(accepts), c, EntryOf(Example(accepts), CandidateOf(name)))
  {
    hide IsScanned, InVersionDirectory, PathOf, VersionKey, RegistryPath, HexDigest, ByteDigest;
    PathFacts(name);
    VersionOne('0', 0);
    assert "1." + ['0'] + ".0" == "1.0.0";
    DigestIsHex(name as int);
  }

  lemma PlainEntriesSeparate(accepts: (Catalog, Files) -> bool, a: char, b: char)
    requires Letter(a) && Letter(b) && a != b
    ensures SeparateEntries(EntryOf(Example(accepts), CandidateOf(a)), EntryOf(Example(accepts), CandidateOf(b)))
  {
    hide PathOf, ByteDigest;
    PathsDiffer(a, b);
    assert [a][0] != [b][0];
    SameHostDiffers([a], [b]);
    SameHostDiffers(PathOf(a), PathOf(b));
    DigestInjective(ByteOf(a), ByteOf(b));
    assert ByteOf(a)[0] != ByteOf(b)[0];
  }

  lemma {:induction false} NoEdges(nodes: seq<SchemaRef>, counts: Counts)
    ensures Sweep([], nodes, counts).Some?
  {
    if nodes != [] {
      assert Outgoing([], nodes[0]) == [];
      NoEdges(nodes[1..], counts);
    }
  }

  lemma PlainCatalogOK(accepts: (Catalog, Files) -> bool, names: string)
    requires Names(names) && names != ""
    ensures CatalogOK(Example(accepts), PlainCatalog(Example(accepts), names))
  {
    hide EntryOK, SeparateEntries, EntryOf, CandidateOf;
    var w := Example(accepts);
    var c := PlainCatalog(w, names);
    forall i | 0 <= i < |c.schemas|
      ensures EntryOK(w, c, c.schemas[i])
    {
      PlainEntryOK(accepts, c, names[i]);
    }
    forall i, j | 0 <= i < j < |c.schemas|
      ensures SeparateEntries(c.schemas[i], c.schemas[j])
    {
      PlainEntriesSeparate(accepts, names[i], names[j]);
    }
    forall i | 0 <= i < |OrderedNodes(c)|
      ensures Sweep([], OrderedNodes(c), map[OrderedNodes(c)[i] := 1]).Some?
    {
      NoEdges(OrderedNodes(c), map[OrderedNodes(c)[i] := 1]);
    }
    hide OrderedNodes;
  }

  // ---------------------------------------------------------------- plain trees

  /** The letters' files, and others the closure scan does not look at. */
  function PlainFiles(names: string, extra: Files): Files
    requires Names(names)
  {
    extra + FilesOf(Candidates(names))
  }

  ghost predicate Unscanned(extra: Files) { forall p | p in extra :: !IsScanned(p) }

  ghost predicate AlwaysAccepts(accepts: (Catalog, Files) -> bool, c: Catalog)
  {
    forall files: Files :: accepts(c, files)
  }

  lemma CandidateIs(names: string, c: Candidate)
    requires Names(names) && c in Candidates(names)
    ensures exists name :: name in names && Letter(name) && c == CandidateOf(name)
  {
    var i :| 0 <= i < |names| && Candidates(names)[i] == c;
    assert names[i] in names;
  }

  lemma PlainFilesAt(names: string, extra: Files, c: Candidate)
    requires Names(names) && c in Candidates(names)
    ensures c.artifactPath in PlainFiles(names, extra) && PlainFiles(names, extra)[c.artifactPath] == c.contents
  {
    hide PathOf, FilesOf;
    forall x, y | x in Candidates(names) && y in Candidates(names) && x.artifactPath == y.artifactPath
      ensures x == y
    {
      CandidateIs(names, x);
      CandidateIs(names, y);
      var a :| a in names && Letter(a) && x == CandidateOf(a);
      var b :| b in names && Letter(b) && y == CandidateOf(b);
      PathsDiffer(a, b);
    }
    FilesOfAt(Candidates(names), c);
  }

  lemma PlainPaths(w: World, names: string)
    requires Names(names)
    ensures CatalogPaths(PlainCatalog(w, names)) == SchemaPaths(PlainCatalog(w, names)) ==
            CandidatePaths(Candidates(names))
    ensures forall p | p in CandidatePaths(Candidates(names)) :: IsScanned(p) && InVersionDirectory(p)
  {
    hide IsScanned, InVersionDirectory, PathOf, CatalogPaths, SchemaPaths;
    EntryPaths(w, Candidates(names));
    forall p | p in CandidatePaths(Candidates(names))
      ensures IsScanned(p) && InVersionDirectory(p)
    {
      var c :| c in Candidates(names) && c.artifactPath == p;
      CandidateIs(names, c);
      var name :| name in names && Letter(name) && c == CandidateOf(name);
      PathFacts(name);
    }
  }

  lemma PlainPinned(w: World, names: string, extra: Files)
    requires Names(names)
    ensures Pinned(w, PlainCatalog(w, names), PlainFiles(names, extra))
  {
    hide PlainFiles;
    var cs, c := Candidates(names), PlainCatalog(w, names);
    forall p | p in Pins(c)
      ensures p.path in PlainFiles(names, extra) && w.sha(PlainFiles(names, extra)[p.path]) == p.sha
    {
      var i :| 0 <= i < |Pins(c)| && Pins(c)[i] == p;
      assert p == SchemaPin(EntryOf(w, cs[i])) && cs[i] in cs;
      PlainFilesAt(names, extra, cs[i]);
    }
  }

  lemma PlainClosed(w: World, names: string, extra: Files)
    requires Names(names) && Unscanned(extra)
    ensures SchemaClosed(w, Disk(PlainCatalog(w, names), PlainFiles(names, extra), None))
  {
    PlainPaths(w, names);
    FilesOfKeys(Candidates(names));
    hide IsScanned, InVersionDirectory, CatalogPaths, SchemaPaths, FilesOf, CandidatePaths;
  }

  /** A tree of letter schemas is accepted wherever its documents are. */
  lemma PlainTreeOK(accepts: (Catalog, Files) -> bool, names: string, extra: Files)
    requires Names(names) && names != "" && Unscanned(extra)
    requires AlwaysAccepts(accepts, PlainCatalog(Example(accepts), names))
    ensures RegistryOK(Example(accepts), Disk(PlainCatalog(Example(accepts), names), PlainFiles(names, extra), None))
  {
    var w := Example(accepts);
    PlainCatalogOK(accepts, names);
    PlainPinned(w, names, extra);
    PlainClosed(w, names, extra);
    hide CatalogOK, Pinned, SchemaClosed, PlainCatalog, PlainFiles, Unscanned, CatalogPaths, Restrict;
    assert w.accepts == accepts;
  }

  // ---------------------------------------------------------------- bundles of letters

  lemma SortedStays<T>(s: seq<T>, key: T -> Key)
    requires Ascending(s, key) && DistinctKeys(s, key)
    ensures SortBy(s, key) == s
  {
    SortByKeeps(s, key);
    AscendingUnique(s, SortBy(s, key), key);
  }

  lemma BeforeAt(a: Key, b: Key, i: nat)
    requires i < |a| && i < |b| && a[..i] == b[..i] && a[i] < b[i]
    ensures Before(a, b)
  {
    BeforeShared(a[..i], a[i..], b[i..]);
    assert a == a[..i] + a[i..] && b == a[..i] + b[i..];
  }

  lemma TextBeforeAt(a: string, x: Key, b: string, y: Key, i: nat)
    requires i < |a| && i < |b| && a[..i] == b[..i] && a[i] < b[i]
    ensures Before(TextKey(a) + x, TextKey(b) + y)
  {
    var k, l := TextKey(a) + x, TextKey(b) + y;
    assert forall j | 0 <= j <= i :: k[j] == a[j] as int && l[j] == b[j] as int;
    assert forall j | 0 <= j < i :: a[j] == a[..i][j] && b[j] == b[..i][j];
    assert k[..i] == l[..i];
    BeforeAt(k, l, i);
  }

  predicate Alphabetical(names: string) { forall i, j | 0 <= i < j < |names| :: names[i] < names[j] }

  lemma CandidatesInOrder(a: char, b: char)
    requires Letter(a) && Letter(b) && a < b
    ensures Before(CandidateKey(CandidateOf(a)), CandidateKey(CandidateOf(b)))
    ensures Before(TextKey(PathOf(a)), TextKey(PathOf(b)))
  {
    var x, y, n := SCHEMA_HOST + [a], SCHEMA_HOST + [b], |SCHEMA_HOST|;
    assert x[..n] == y[..n] == SCHEMA_HOST && x[n] == a && y[n] == b;
    TextBeforeAt(x, TextKey("1.0.0") + TextKey(PathOf(a)), y, TextKey("1.0.0") + TextKey(PathOf(b)), n);
    var p, q := PathOf(a), PathOf(b);
    assert p[..3] == q[..3] == "v1/" && p[3] == a && q[3] == b;
    TextBeforeAt(p, [], q, [], 3);
    assert TextKey(p) + [] == TextKey(p) && TextKey(q) + [] == TextKey(q);
  }

  lemma LettersAreSorted(names: string)
    requires Names(names) && Alphabetical(names)
    ensures SortBy(Candidates(names), CandidateKey) == Candidates(names)
    ensures SortBy(BundleArtifacts(Candidates(names)), PathKey) == BundleArtifacts(Candidates(names))
  {
    hide CandidateOf, PathOf, Before, CandidateKey, SortBy;
    var cs := Candidates(names);
    var artifacts := BundleArtifacts(cs);
    forall i, j | 0 <= i < j < |cs|
      ensures Before(CandidateKey(cs[i]), CandidateKey(cs[j])) && Before(PathKey(artifacts[i]), PathKey(artifacts[j]))
      ensures CandidateKey(cs[i]) != CandidateKey(cs[j]) && PathKey(artifacts[i]) != PathKey(artifacts[j])
      ensures !Before(CandidateKey(cs[j]), CandidateKey(cs[i])) && !Before(PathKey(artifacts[j]), PathKey(artifacts[i]))
    {
      CandidatesInOrder(names[i], names[j]);
      CandidatePath(names[i]);
      CandidatePath(names[j]);
      BeforeTotal(CandidateKey(cs[i]), CandidateKey(cs[j]));
      BeforeTotal(PathKey(artifacts[i]), PathKey(artifacts[j]));
    }
    SortedStays(cs, CandidateKey);
    SortedStays(artifacts, PathKey);
  }

  lemma CandidatePath(name: char)
    requires Letter(name)
    ensures CandidateOf(name).artifactPath == PathOf(name)
  {
  }

  lemma {:induction false} FilesOfAppend(a: seq<Candidate>, b: seq<Candidate>)
    ensures FilesOf(a + b) == FilesOf(a) + FilesOf(b)
  {
    if b == [] {
      assert a + b == a;
      assert FilesOf(a) + map[] == FilesOf(a);
    } else {
      var n := |b| - 1;
      assert (a + b)[..|a + b| - 1] == a + b[..n] && (a + b)[|a + b| - 1] == b[n];
      FilesOfAppend(a, b[..n]);
    }
  }

  lemma NamesSplit(names: string, more: string)
    requires Names(names + more)
    ensures Names(names) && Names(more)
    ensures Candidates(names + more) == Candidates(names) + Candidates(more)
  {
    var all := names + more;
    assert forall i | 0 <= i < |names| :: names[i] == all[i];
    assert forall i | 0 <= i < |more| :: more[i] == all[|names| + i];
  }

  /** Adding letters to a tree of letters. */
  lemma PlainAfter(w: World, names: string, more: string, extra: Files, d: Disk)
    requires Names(names + more) && Names(names) && Names(more)
    requires d.catalog == PlainCatalog(w, names) && d.files == PlainFiles(names, extra)
    ensures After(w, d, Candidates(more))
         == Disk(PlainCatalog(w, names + more), PlainFiles(names + more, extra), None)
  {
    hide Candidates, FilesOf, Entries, Names;
    NamesSplit(names, more);
    var a, b := Candidates(names), Candidates(more);
    FilesOfAppend(a, b);
    EntriesAppend(w, a, b);
    OverlayAssociative(extra, FilesOf(a), FilesOf(b));
  }

  lemma EntriesAppend(w: World, a: seq<Candidate>, b: seq<Candidate>)
    ensures Entries(w, a + b) == Entries(w, a) + Entries(w, b)
  {
    hide EntryOf;
  }

  lemma OverlayAssociative(a: Files, b: Files, c: Files)
    ensures a + b + c == a + (b + c)
  {
  }

  lemma LettersAreUnique(names: string)
    requires Names(names)
    ensures UniqueInputs(Candidates(names))
  {
    hide PathOf;
    var cs := Candidates(names);
    forall i, j | 0 <= i < j < |cs|
      ensures cs[i].schemaId != cs[j].schemaId && cs[i].artifactPath != cs[j].artifactPath &&
              cs[i].source != cs[j].source
    {
      var a, b := names[i], names[j];
      PathsDiffer(a, b);
      assert [a][0] != [b][0];
      SameHostDiffers([a], [b]);
    }
  }

  lemma LetterUnpublished(w: World, names: string, name: char)
    requires Names(names) && Letter(name) && name !in names
    ensures !Published(PlainCatalog(w, names), CandidateOf(name))
    ensures PathOf(name) !in SchemaPaths(PlainCatalog(w, names))
  {
    hide PathOf, FindSchema, SchemaPaths, CatalogPaths;
    var c := PlainCatalog(w, names);
    forall i | 0 <= i < |names|
      ensures c.schemas[i].ref.schemaId != CandidateOf(name).schemaId &&
              Candidates(names)[i].artifactPath != PathOf(name)
    {
      var a := names[i];
      PathsDiffer(a, name);
      assert a in names && [a][0] != [name][0];
      SameHostDiffers([a], [name]);
    }
    PlainPaths(w, names);
    forall e | e in c.schemas
      ensures RefKey(e.ref) != (CandidateOf(name).schemaId, CandidateOf(name).version)
    {
      var i :| 0 <= i < |c.schemas| && c.schemas[i] == e;
    }
  }

  lemma LettersAreNewItems(w: World, names: string, more: string, extra: Files, d: Disk)
    requires Names(names + more) && Names(names) && Names(more) && Unscanned(extra)
    requires d.catalog == PlainCatalog(w, names) && d.files == PlainFiles(names, extra)
    ensures BundleItemsOK(w, d, Candidates(more))
    ensures forall c | c in Candidates(more) :: !Published(d.catalog, c) && c.artifactPath !in d.files
  {
    hide PathOf, SchemaPaths, Published, SchemaPathOK, IsScanned, PlainCatalog, FilesOf;
    var cs := Candidates(more);
    FilesOfKeys(Candidates(names));
    forall i | 0 <= i < |cs|
      ensures BundleItemOK(w, d, cs[i]) && !Published(d.catalog, cs[i]) && cs[i].artifactPath !in d.files
    {
      assert more[i] == (names + more)[|names| + i];
      assert forall k | 0 <= k < |names| :: names[k] == (names + more)[k];
      LetterUnpublished(w, names, more[i]);
      PathFacts(more[i]);
      PlainPaths(w, names);
    }
  }

  lemma {:induction false} AllFresh(catalog: Catalog, cs: seq<Candidate>)
    requires forall c | c in cs :: !Published(catalog, c)
    ensures Fresh(catalog, cs) == cs
  {
    hide Published;
    if cs != [] {
      AllFresh(catalog, cs[1..]);
      assert cs == [cs[0]] + cs[1..];
    }
  }

  /** What makes `PlanBundle` publish. */
  lemma BundlePublishesIf(w: World, d: Disk, cs: seq<Candidate>, artifacts: seq<Artifact>, target: Catalog)
    requires cs != [] && UniqueInputs(cs) && RegistryOK(w, d) && BundleItemsOK(w, d, cs)
    requires artifacts == SortBy(BundleArtifacts(SortBy(cs, CandidateKey)), PathKey)
    requires target == BundleTarget(w, d.catalog, cs)
    requires RegistryOK(w, Disk(target, d.files + Contents(artifacts), None))
    requires Fresh(d.catalog, SortBy(cs, CandidateKey)) != []
    ensures PlanBundle(w, d, cs)
         == Publish(Tx(d.catalog, target, artifacts, MarkerFor(w, artifacts, d.catalog, target), false))
  {
    hide RegistryOK, BundleItemsOK, UniqueInputs, SortBy, BundleArtifacts, BundleTarget, Fresh, Contents;
  }

  /** The transaction of a bundle of letters. */
  function LettersTx(w: World, catalog: Catalog, names: string, more: string): Tx
    requires Names(more) && Names(names + more)
  {
    var artifacts, target := BundleArtifacts(Candidates(more)), PlainCatalog(w, names + more);
    Tx(catalog, target, artifacts, MarkerFor(w, artifacts, catalog, target), false)
  }

  lemma AdmitsAbsent(w: World, d: Disk, cs: seq<Candidate>, tx: Tx)
    requires cs != [] && tx.artifacts == BundleArtifacts(cs) && DistinctPaths(tx.artifacts) && tx.original == d.catalog
    requires RegistryOK(w, d) && forall c | c in cs :: c.artifactPath !in d.files
    ensures Admits(w, d, tx)
  {
    hide RegistryOK;
    forall a | a in tx.artifacts
      ensures a.role != "" && a.path !in d.files
    {
      var i :| 0 <= i < |cs| && BundleArtifacts(cs)[i] == a;
      assert cs[i] in cs;
    }
  }

  lemma LettersTarget(w: World, names: string, more: string, extra: Files, d: Disk)
    requires Names(names + more) && Names(names) && Names(more) && Alphabetical(more) && Unscanned(extra)
    requires d.catalog == PlainCatalog(w, names) && d.files == PlainFiles(names, extra)
    ensures BundleTarget(w, d.catalog, Candidates(more)) == PlainCatalog(w, names + more)
    ensures d.files + Contents(BundleArtifacts(Candidates(more))) == PlainFiles(names + more, extra)
    ensures Fresh(d.catalog, SortBy(Candidates(more), CandidateKey)) == Candidates(more)
  {
    var cs := Candidates(more);
    LettersAreUnique(more);
    LettersAreSorted(more);
    LettersAreNewItems(w, names, more, extra, d);
    hide BundleItemsOK, UniqueInputs, SortBy, Contents, Fresh, Published, PlainCatalog, PlainFiles, FilesOf, Candidates,
         Unscanned;
    AllFresh(d.catalog, cs);
    PlainAfter(w, names, more, extra, d);
    SameFiles(w, d, cs);
  }

  lemma LettersAdmitted(w: World, names: string, more: string, extra: Files, d: Disk)
    requires Names(names + more) && Names(names) && Names(more) && more != "" && Unscanned(extra)
    requires d.catalog == PlainCatalog(w, names) && d.files == PlainFiles(names, extra) && RegistryOK(w, d)
    requires SortBy(Candidates(more), CandidateKey) == Candidates(more)
    ensures Admits(w, d, LettersTx(w, d.catalog, names, more))
  {
    var cs := Candidates(more);
    hide RegistryOK, BundleItemsOK, UniqueInputs, SortBy, PlainCatalog, PlainFiles, Candidates, Unscanned, MarkerFor,
         Admits, BundleArtifacts, Names, DistinctPaths, DistinctKeys, Published;
    LettersAreUnique(more);
    LettersAreNewItems(w, names, more, extra, d);
    BundleDistinct(cs);
    AdmitsAbsent(w, d, cs, LettersTx(w, d.catalog, names, more));
  }

  /** A bundle of new letters is published on a tree of letters, whatever marker lies beside it. */
  lemma LettersPlan(accepts: (Catalog, Files) -> bool, names: string, more: string, extra: Files, d: Disk)
    requires Names(names + more) && Names(names) && Names(more) && Alphabetical(more) && more != ""
    requires Unscanned(extra) && AlwaysAccepts(accepts, PlainCatalog(Example(accepts), names + more))
    requires d.catalog == PlainCatalog(Example(accepts), names) && d.files == PlainFiles(names, extra)
    requires RegistryOK(Example(accepts), d)
    ensures var tx := LettersTx(Example(accepts), d.catalog, names, more);
            MakePlan(Example(accepts), d, Bundle(Candidates(more))) == Publish(tx) && Admits(Example(accepts), d, tx)
  {
    var w, cs := Example(accepts), Candidates(more);
    hide RegistryOK, BundleItemsOK, UniqueInputs, SortBy, Contents, Fresh, Published, PlanBundle, PlainCatalog,
         PlainFiles, FilesOf, Candidates, AlwaysAccepts, Unscanned, CatalogPaths, MarkerFor, BundleArtifacts,
         BundleTarget, Admits, Example, Names, Alphabetical;
    LettersAreUnique(more);
    LettersAreSorted(more);
    LettersAreNewItems(w, names, more, extra, d);
    LettersTarget(w, names, more, extra, d);
    PlainTreeOK(accepts, names + more, extra);
    BundlePublishesIf(w, d, cs, BundleArtifacts(cs), PlainCatalog(w, names + more));
    LettersAdmitted(w, names, more, extra, d);
  }
}
