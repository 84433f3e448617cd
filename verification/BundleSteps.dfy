/** When a bundle is the same as its new schemas registered one at a time. */
module BundleSteps {
  import opened Text
  import opened Ordering
  import opened Catalogs
  import opened Registry
  import opened Planning
  import opened Transactions
  import opened Publication
  import opened Replanning
  import opened Convergence
  import opened Routes
  import opened RouteSearch
  import opened PublisherChecker
  import opened BundleSequence

  // ---------------------------------------------------------------- what a startable bundle gives

  /** One new candidate of a bundle on the tree `d`. */
  ghost predicate NewItem(d: Disk, c: Candidate)
  {
    && SchemaPathOK(c.artifactPath)
    && c.declaredId == SCHEMA_HOST + c.artifactPath
    && !Published(d.catalog, c)
    && (c.artifactPath in d.files ==> d.files[c.artifactPath] == c.contents)
  }

  ghost predicate Distinct(cs: seq<Candidate>)
  {
    forall i, j | 0 <= i < j < |cs| ::
      (cs[i].schemaId, cs[i].version) != (cs[j].schemaId, cs[j].version) && cs[i].artifactPath != cs[j].artifactPath
  }

  /** The new candidates of a bundle, in sorted key order. */
  ghost predicate Series(w: World, d: Disk, cs: seq<Candidate>)
  {
    && CollisionFree(w)
    && RegistryOK(w, d)
    && d.marker.None?
    && CatalogOK(w, After(w, d, cs).catalog)
    && (forall c | c in cs :: NewItem(d, c))
    && Distinct(cs)
  }

  lemma FreshIsDistinct(catalog: Catalog, cs: seq<Candidate>)
    requires UniqueInputs(cs)
    ensures Distinct(Fresh(catalog, cs))
  {
    hide Published;
    if cs != [] {
      FreshIsDistinct(catalog, cs[1..]);
      forall x | x in Fresh(catalog, cs[1..])
        ensures (x.schemaId, x.version) != (cs[0].schemaId, cs[0].version) && x.artifactPath != cs[0].artifactPath
      {
        FreshMember(catalog, cs[1..], x);
        var i :| 0 <= i < |cs[1..]| && cs[1..][i] == x;
        assert cs[i + 1] == x;
      }
    }
  }

  lemma SortedIsUnique(cs: seq<Candidate>)
    requires UniqueInputs(cs)
    ensures UniqueInputs(SortBy(cs, CandidateKey))
  {
    hide UniqueInputs, SortBy;
    SortByKeeps(cs, CandidateKey);
    UniqueForgetsOrder(cs, SortBy(cs, CandidateKey));
  }

  lemma ItemIsNew(w: World, d: Disk, cs: seq<Candidate>, tx: Tx, c: Candidate)
    requires UniqueInputs(cs) && BundleItemsOK(w, d, cs) && Compatible(d.files, tx.artifacts)
    requires tx.artifacts == SortBy(BundleArtifacts(SortBy(cs, CandidateKey)), PathKey)
    requires c in Fresh(d.catalog, SortBy(cs, CandidateKey))
    ensures NewItem(d, c)
  {
    hide UniqueInputs, SortBy, Published, SchemaPathOK, Fresh;
    AddedOrPublished(w, d, cs, c);
    var i :| 0 <= i < |cs| && cs[i] == c;
    assert BundleItemOK(w, d, cs[i]);
    var sorted := SortBy(cs, CandidateKey);
    SortByMember(cs, CandidateKey, c);
    var k :| 0 <= k < |sorted| && sorted[k] == c;
    var a := SchemaArtifact(c, "json-schema");
    assert BundleArtifacts(sorted)[k] == a;
    SortByMember(BundleArtifacts(sorted), PathKey, a);
  }

  lemma StartGivesSeries(w: World, d: Disk, cs: seq<Candidate>, tx: Tx)
    requires Start(w, Bundle(cs), d, tx)
    ensures Series(w, d, Fresh(d.catalog, SortBy(cs, CandidateKey)))
  {
    var added := Fresh(d.catalog, SortBy(cs, CandidateKey));
    BundleFacts(w, d, cs, tx);
    SortedIsUnique(cs);
    FreshIsDistinct(d.catalog, SortBy(cs, CandidateKey));
    StartParts(w, Bundle(cs), d, tx);
    StartChecks(w, d, cs, tx);
    hide UniqueInputs, SortBy, Fresh, RegistryOK, CatalogOK, BundleItemsOK, CollisionFree, Distinct, NewItem, Start;
    forall c | c in added
      ensures NewItem(d, c)
    {
      ItemIsNew(w, d, cs, tx, c);
    }
  }

  lemma StartChecks(w: World, d: Disk, cs: seq<Candidate>, tx: Tx)
    requires Start(w, Bundle(cs), d, tx)
    ensures CollisionFree(w) && RegistryOK(w, d) && Compatible(d.files, tx.artifacts)
    ensures CatalogOK(w, After(w, d, Fresh(d.catalog, SortBy(cs, CandidateKey))).catalog)
  {
    StartFits(w, Bundle(cs), d, tx);
    BundleFacts(w, d, cs, tx);
    hide CatalogOK, CollisionFree, SortBy, Fresh, PlanBundle, TreeOK, Pinned, Accepted, MarkerOK, SchemaClosed;
  }

  // ---------------------------------------------------------------- prefixes are valid trees

  lemma PrefixCatalog(w: World, d: Disk, cs: seq<Candidate>, k: nat)
    requires k <= |cs|
    ensures var c, full := After(w, d, cs[..k]).catalog, After(w, d, cs).catalog;
            && |c.schemas| == |d.catalog.schemas| + k
            && d.catalog.schemas <= c.schemas <= full.schemas
            && c.upcasters == d.catalog.upcasters
            && (forall i | |d.catalog.schemas| <= i < |c.schemas| ::
                  c.schemas[i] == EntryOf(w, cs[i - |d.catalog.schemas|]))
  {
    assert Entries(w, cs[..k]) <= Entries(w, cs);
  }

  lemma ResolvesMore(a: Catalog, b: Catalog, r: SchemaRef)
    requires a.schemas <= b.schemas && Resolves(a, r)
    ensures Resolves(b, r)
  {
    var e :| e in a.schemas && e.ref == r;
    assert e in b.schemas;
  }

  lemma EntryStaysOK(w: World, a: Catalog, b: Catalog, e: SchemaEntry)
    requires a.schemas <= b.schemas && EntryOK(w, a, e)
    ensures EntryOK(w, b, e)
  {
    hide PinOK, IsScanned, InVersionDirectory, LowerVersion, Resolves;
    forall p | p in e.predecessors
      ensures Resolves(b, p)
    {
      ResolvesMore(a, b, p);
    }
  }

  lemma PlainEntryAnywhere(w: World, a: Catalog, b: Catalog, e: SchemaEntry)
    requires EntryOK(w, a, e) && e.predecessors == []
    ensures EntryOK(w, b, e)
  {
    hide PinOK, IsScanned, InVersionDirectory, LowerVersion, Resolves;
  }

  lemma UpcasterStaysOK(a: Catalog, b: Catalog, u: Upcaster)
    requires a.schemas <= b.schemas && UpcasterOK(a, u)
    ensures UpcasterOK(b, u)
  {
    hide PinOK, LowerVersion, UpcasterIdOK, UpcasterPins, Resolves;
    ResolvesMore(a, b, u.source);
    var e :| e in a.schemas && e.ref == u.target && u.source in e.predecessors;
    assert e in b.schemas;
  }

  lemma PrefixEdgesOK(w: World, d: Disk, cs: seq<Candidate>, k: nat)
    requires CatalogOK(w, d.catalog) && CatalogOK(w, After(w, d, cs).catalog) && k <= |cs|
    ensures EdgesOK(w, After(w, d, cs[..k]).catalog)
  {
    hide EntryOK, UpcasterOK, SinglePaths, SeparateEntries, SeparateUpcasters;
    var c, full, n := After(w, d, cs[..k]).catalog, After(w, d, cs).catalog, |d.catalog.schemas|;
    PrefixCatalog(w, d, cs, k);
    hide After;
    forall i | 0 <= i < |c.schemas|
      ensures EntryOK(w, c, c.schemas[i])
    {
      if i < n {
        assert c.schemas[i] == d.catalog.schemas[i];
        EntryStaysOK(w, d.catalog, c, c.schemas[i]);
      } else {
        assert EntryOK(w, full, full.schemas[i]);
        PlainEntryAnywhere(w, full, c, c.schemas[i]);
      }
    }
    forall i, j | 0 <= i < j < |c.schemas|
      ensures SeparateEntries(c.schemas[i], c.schemas[j])
    {
      assert SeparateEntries(full.schemas[i], full.schemas[j]);
    }
    forall i | 0 <= i < |c.upcasters|
      ensures UpcasterOK(c, c.upcasters[i])
    {
      UpcasterStaysOK(d.catalog, c, c.upcasters[i]);
    }
  }

  lemma PrefixCatalogOK(w: World, d: Disk, cs: seq<Candidate>, k: nat)
    requires CatalogOK(w, d.catalog) && CatalogOK(w, After(w, d, cs).catalog) && k <= |cs|
    ensures CatalogOK(w, After(w, d, cs[..k]).catalog)
  {
    var c := After(w, d, cs[..k]).catalog;
    PrefixEdgesOK(w, d, cs, k);
    PrefixCatalog(w, d, cs, k);
    forall r: SchemaRef
      ensures OneRouteEach(c.upcasters, r)
    {
      CatalogHasOneRoute(w, d.catalog, r);
    }
    SweepMeansOneRoute(w, c);
    hide EntryOK, UpcasterOK, SinglePaths, SeparateEntries, SeparateUpcasters, OneRouteEach, Resolves, After;
    assert d.catalog.schemas != [];
  }

  lemma PathsPickItems(cs: seq<Candidate>, k: nat)
    requires Distinct(cs) && k <= |cs|
    ensures forall x, y | x in cs[..k] && y in cs[..k] && x.artifactPath == y.artifactPath :: x == y
  {
    forall x, y | x in cs[..k] && y in cs[..k] && x.artifactPath == y.artifactPath
      ensures x == y
    {
      var i :| 0 <= i < k && cs[i] == x;
      var j :| 0 <= j < k && cs[j] == y;
    }
  }

  /** What the prefix tree holds at a path of `d`, and at a path of one of its candidates. */
  lemma PrefixFiles(w: World, d: Disk, cs: seq<Candidate>, k: nat, p: Path)
    requires Distinct(cs) && (forall c | c in cs :: NewItem(d, c)) && k <= |cs|
    ensures var files := After(w, d, cs[..k]).files;
            && (p in files <==> p in d.files || p in CandidatePaths(cs[..k]))
            && (p in d.files ==> files[p] == d.files[p])
            && (forall c | c in cs[..k] :: c.artifactPath in files && files[c.artifactPath] == c.contents)
  {
    hide SchemaPathOK, Published, Distinct;
    PathsPickItems(cs, k);
    FilesOfKeys(cs[..k]);
    forall c | c in cs[..k]
      ensures c.artifactPath in FilesOf(cs[..k]) && FilesOf(cs[..k])[c.artifactPath] == c.contents
      ensures NewItem(d, c)
    {
      FilesOfAt(cs[..k], c);
    }
    hide FilesOf;
    if p in CandidatePaths(cs[..k]) {
      var c :| c in cs[..k] && c.artifactPath == p;
    }
  }

  lemma PinCases(w: World, d: Disk, cs: seq<Candidate>, p: Pin)
    requires p in Pins(After(w, d, cs).catalog)
    ensures p in Pins(d.catalog) || exists c :: c in cs && p == Pin(c.artifactPath, w.sha(c.contents))
  {
    hide AllUpcasterPins, FilesOf;
    var es := Entries(w, cs);
    assert SchemaPins(d.catalog.schemas + es) == SchemaPins(d.catalog.schemas) + SchemaPins(es);
    if p in SchemaPins(es) {
      var i :| 0 <= i < |es| && SchemaPins(es)[i] == p;
      assert cs[i] in cs;
    }
  }

  lemma PrefixPinned(w: World, d: Disk, cs: seq<Candidate>, k: nat)
    requires Distinct(cs) && (forall c | c in cs :: NewItem(d, c)) && k <= |cs| && Pinned(w, d.catalog, d.files)
    ensures Pinned(w, After(w, d, cs[..k]).catalog, After(w, d, cs[..k]).files)
  {
    hide Distinct, NewItem, Pins;
    var t := After(w, d, cs[..k]);
    forall p | p in Pins(t.catalog)
      ensures p.path in t.files && w.sha(t.files[p.path]) == p.sha
    {
      PinCases(w, d, cs[..k], p);
      PrefixFiles(w, d, cs, k, p.path);
    }
  }

  lemma PrefixClosed(w: World, d: Disk, cs: seq<Candidate>, k: nat)
    requires Distinct(cs) && (forall c | c in cs :: NewItem(d, c)) && k <= |cs|
    requires d.marker.None? && SchemaClosed(w, d)
    ensures SchemaClosed(w, After(w, d, cs[..k]))
  {
    var t, es := After(w, d, cs[..k]), Entries(w, cs[..k]);
    PinsAppend(d.catalog, es, []);
    assert d.catalog.upcasters + [] == d.catalog.upcasters;
    EntryPaths(w, cs[..k]);
    hide Distinct, SchemaPaths, CatalogPaths, IsScanned, FilesOf, Entries;
    forall p | p in t.files && IsScanned(p)
      ensures InVersionDirectory(p) && p in SchemaPaths(t.catalog)
    {
      PrefixFiles(w, d, cs, k, p);
      if p !in d.files {
        var c :| c in cs[..k] && c.artifactPath == p;
        assert NewItem(d, c);
      }
    }
  }

  /** Everything the registry checks of a prefix follows from the bundle, except that its documents are accepted. */
  lemma PrefixIsValidWhenAccepted(w: World, d: Disk, cs: seq<Candidate>, k: nat)
    requires Series(w, d, cs) && k <= |cs|
    ensures var t := After(w, d, cs[..k]); RegistryOK(w, t) <==> Accepted(w, t.catalog, t.files)
  {
    PrefixCatalogOK(w, d, cs, k);
    PrefixPinned(w, d, cs, k);
    PrefixClosed(w, d, cs, k);
    hide CatalogOK, Pinned, Accepted, SchemaClosed, NewItem, Distinct, FilesOf, Entries;
  }

  // ---------------------------------------------------------------- one more single registration

  lemma SafePathForSingle(p: Path)
    requires SchemaPathOK(p)
    ensures SinglePathOK(p)
  {
    var parts := Split(p, '/');
    SafePathCharacters(p);
    assert !SafeCharacter('\\');
    forall i | 0 <= i < |parts|
      ensures parts[i] != "" && parts[i] != "." && parts[i] != ".."
    {
      assert SafeSegment(parts[i]);
    }
    assert parts[0][..1] == "v";
  }

  lemma NoneAmong(w: World, cs: seq<Candidate>, c: Candidate)
    requires forall x | x in cs :: (x.schemaId, x.version) != (c.schemaId, c.version)
    ensures FindSchema(Entries(w, cs), c.schemaId, c.version).None?
  {
    hide FindSchema;
    forall e | e in Entries(w, cs)
      ensures RefKey(e.ref) != (c.schemaId, c.version)
    {
      var i :| 0 <= i < |cs| && Entries(w, cs)[i] == e;
      assert cs[i] in cs;
    }
  }

  lemma StillUnpublished(w: World, d: Disk, cs: seq<Candidate>, k: nat)
    requires Distinct(cs) && k < |cs| && !Published(d.catalog, cs[k])
    ensures !Published(After(w, d, cs[..k]).catalog, cs[k])
  {
    hide FindSchema, FilesOf;
    var c := cs[k];
    forall x | x in cs[..k]
      ensures (x.schemaId, x.version) != (c.schemaId, c.version)
    {
      var i :| 0 <= i < k && cs[i] == x;
    }
    NoneAmong(w, cs[..k], c);
    FindSchemaAppend(d.catalog.schemas, Entries(w, cs[..k]), c.schemaId, c.version);
  }

  lemma OneMore(w: World, d: Disk, cs: seq<Candidate>, k: nat)
    requires k < |cs|
    ensures var e, t, c := After(w, d, cs[..k]), After(w, d, cs[..k + 1]), cs[k];
            && t.catalog == Catalog(e.catalog.schemas + [EntryOf(w, c)], e.catalog.upcasters)
            && t.files == e.files[c.artifactPath := c.contents]
            && t.files == e.files + Contents([SchemaArtifact(c, "json-schema")])
  {
    hide EntryOf;
    OneMoreFile(cs, k);
    assert Entries(w, cs[..k + 1]) == Entries(w, cs[..k]) + [EntryOf(w, cs[k])];
    OneArtifact(SchemaArtifact(cs[k], "json-schema"));
    hide Contents, FilesOf, Entries;
    OneMoreOverlay(d.files, FilesOf(cs[..k]), cs[k].artifactPath, cs[k].contents);
  }

  lemma OneMoreFile(cs: seq<Candidate>, k: nat)
    requires k < |cs|
    ensures FilesOf(cs[..k + 1]) == FilesOf(cs[..k])[cs[k].artifactPath := cs[k].contents]
  {
    assert cs[..k + 1][..k] == cs[..k];
  }

  lemma OneArtifact(a: Artifact)
    ensures Contents([a]) == map[a.path := a.contents]
  {
    assert [a][..0] == [];
  }

  lemma OneMoreOverlay(low: Files, more: Files, p: Path, x: Bytes)
    ensures low + more[p := x] == (low + more)[p := x]
    ensures (low + more)[p := x] == low + more + map[p := x]
  {
  }

  lemma SinglePublishes(w: World, e: Disk, c: Candidate, t: Disk)
    requires RegistryOK(w, e) && RegistryOK(w, t) && e.marker.None? && t.marker.None?
    requires SinglePathOK(c.artifactPath) && c.declaredId == SCHEMA_HOST + c.artifactPath && !Published(e.catalog, c)
    requires t.catalog == Catalog(e.catalog.schemas + [EntryOf(w, c)], e.catalog.upcasters)
    requires t.files == e.files + Contents([SchemaArtifact(c, "json-schema")])
    requires c.artifactPath in e.files ==> e.files[c.artifactPath] == c.contents
    ensures PlanSingle(w, e, c).Publish? && Admits(w, e, PlanSingle(w, e, c).tx)
  {
    hide RegistryOK, SinglePathOK, Published, Contents, CatalogDigest;
  }

  lemma StartableWhen(w: World, c: Candidate, e: Disk)
    requires CollisionFree(w) && RegistryOK(w, e) && e.marker.None?
    requires PlanSingle(w, e, c).Publish? && Admits(w, e, PlanSingle(w, e, c).tx)
    ensures Startable(w, c, e)
  {
    hide CollisionFree, RegistryOK, PlanSingle, Admits;
  }

  lemma ItemOf(w: World, d: Disk, cs: seq<Candidate>, k: nat)
    requires Series(w, d, cs) && k < |cs|
    ensures NewItem(d, cs[k]) && CollisionFree(w) && Distinct(cs) && forall c | c in cs :: NewItem(d, c)
  {
    hide CollisionFree, RegistryOK, CatalogOK, Distinct, NewItem;
    assert cs[k] in cs;
  }

  lemma NextIsStartable(w: World, d: Disk, cs: seq<Candidate>, k: nat)
    requires Series(w, d, cs) && k < |cs|
    requires RegistryOK(w, After(w, d, cs[..k])) && RegistryOK(w, After(w, d, cs[..k + 1]))
    ensures Startable(w, cs[k], After(w, d, cs[..k]))
  {
    hide Series, RegistryOK, CollisionFree, SinglePathOK, SchemaPathOK, Published, FilesOf, Entries, PlanSingle, Admits,
         Contents, Distinct, Startable;
    var e, t, c := After(w, d, cs[..k]), After(w, d, cs[..k + 1]), cs[k];
    ItemOf(w, d, cs, k);
    SafePathForSingle(c.artifactPath);
    StillUnpublished(w, d, cs, k);
    OneMore(w, d, cs, k);
    PrefixFiles(w, d, cs, k, c.artifactPath);
    AbsentBefore(cs, k);
    hide CandidatePaths, EntryOf, SchemaArtifact;
    SinglePublishes(w, e, c, t);
    StartableWhen(w, c, e);
  }

  lemma AbsentBefore(cs: seq<Candidate>, k: nat)
    requires Distinct(cs) && k < |cs|
    ensures cs[k].artifactPath !in CandidatePaths(cs[..k])
  {
  }

  // ---------------------------------------------------------------- the sequence

  /** The documents of every proper stage of the sequence are accepted. */
  ghost predicate StagesAccepted(w: World, d: Disk, cs: seq<Candidate>, n: nat)
    requires n <= |cs|
  {
    forall k | 1 <= k <= n :: Accepted(w, After(w, d, cs[..k]).catalog, After(w, d, cs[..k]).files)
  }

  lemma StageZero(w: World, d: Disk, cs: seq<Candidate>)
    requires d.marker.None?
    ensures After(w, d, cs[..0]) == d
  {
    assert cs[..0] == [];
    assert d.catalog.schemas + Entries(w, []) == d.catalog.schemas;
    assert d.files + FilesOf([]) == d.files;
  }

  lemma {:induction false} AcceptedStagesRun(w: World, d: Disk, cs: seq<Candidate>, n: nat)
    requires Series(w, d, cs) && n <= |cs| && StagesAccepted(w, d, cs, n)
    ensures EachAccepted(w, d, cs[..n]) && RegistryOK(w, After(w, d, cs[..n]))
    decreases n
  {
    hide Series, Accepted, RegistryOK, Startable, After;
    SeriesStart(w, d, cs);
    if n == 0 {
      StageZero(w, d, cs);
    } else {
      AcceptedStagesRun(w, d, cs, n - 1);
      PrefixIsValidWhenAccepted(w, d, cs, n);
      NextIsStartable(w, d, cs, n - 1);
      OneByOneGives(w, d, cs[..n - 1]);
      assert cs[..n][..n - 1] == cs[..n - 1];
    }
  }

  lemma SeriesStart(w: World, d: Disk, cs: seq<Candidate>)
    requires Series(w, d, cs)
    ensures d.marker.None? && RegistryOK(w, d) && CollisionFree(w)
  {
    hide RegistryOK, CollisionFree, CatalogOK;
  }

  /** A single registration on a quiescent valid tree either publishes or leaves the tree alone. */
  lemma SingleOrNothing(w: World, c: Candidate, e: Disk)
    requires CollisionFree(w) && RegistryOK(w, e) && e.marker.None?
    ensures !Startable(w, c, e) ==> Finish(w, Single(c), Attempt(e)).disk == e
  {
    hide CollisionFree, RegistryOK, MakePlan, Admits, Finish, Next;
    OpeningDispatch(w, Single(c), e, Ok);
    FinishStep(w, Single(c), State(e, Recovering));
    FinishStep(w, Single(c), State(e, Preparing));
    FinishStep(w, Single(c), State(e, Ended(Rejected)));
    FinishStep(w, Single(c), State(e, Ended(Unchanged)));
  }

  lemma PublishedStaysValid(w: World, c: Candidate, e: Disk)
    requires Startable(w, c, e)
    ensures var t := Finish(w, Single(c), Attempt(e)).disk;
            && RegistryOK(w, t) && t.marker.None?
            && |t.catalog.schemas| == |e.catalog.schemas| + 1
  {
    var tx := MakePlan(w, e, Single(c)).tx;
    StartFits(w, Single(c), e, tx);
    assert AdmissibleAttempts(w, Single(c), e, []);
    RetriesConverge(w, Single(c), e, tx, []);
    SingleRun(w, c, e);
    hide RegistryOK, Finish, CollisionFree, TreeOK;
  }

  /** Each registration adds at most one entry, and all add one only if every one was accepted. */
  lemma {:induction false} EachAddsAtMostOne(w: World, d: Disk, cs: seq<Candidate>)
    requires CollisionFree(w) && RegistryOK(w, d) && d.marker.None?
    ensures var t := OneByOne(w, d, cs);
            && RegistryOK(w, t) && t.marker.None?
            && |t.catalog.schemas| <= |d.catalog.schemas| + |cs|
            && (|t.catalog.schemas| == |d.catalog.schemas| + |cs| ==> EachAccepted(w, d, cs))
    decreases |cs|
  {
    hide CollisionFree, RegistryOK, Startable, Finish;
    if cs != [] {
      var n := |cs| - 1;
      var e := OneByOne(w, d, cs[..n]);
      EachAddsAtMostOne(w, d, cs[..n]);
      SingleOrNothing(w, cs[n], e);
      if Startable(w, cs[n], e) {
        PublishedStaysValid(w, cs[n], e);
      }
    }
  }

  lemma StartableMeansAccepted(w: World, d: Disk, cs: seq<Candidate>, k: nat)
    requires k < |cs| && Startable(w, cs[k], After(w, d, cs[..k]))
    ensures Accepted(w, After(w, d, cs[..k + 1]).catalog, After(w, d, cs[..k + 1]).files)
  {
    var e, c := After(w, d, cs[..k]), cs[k];
    OneMore(w, d, cs, k);
    SingleShape(w, e, c);
    hide PlanSingle, CatalogOK, Pinned, Accepted, SchemaClosed, MarkerOK, Contents, CollisionFree, Admits, FilesOf,
         Entries;
  }

  lemma {:induction false} RunStagesAccepted(w: World, d: Disk, cs: seq<Candidate>, n: nat)
    requires d.marker.None? && n <= |cs| && EachAccepted(w, d, cs[..n])
    ensures StagesAccepted(w, d, cs, n)
    decreases n
  {
    hide Accepted, Startable, After, OneByOne;
    if n > 0 {
      LastAccepted(w, d, cs, n);
      RunStagesAccepted(w, d, cs, n - 1);
      OneByOneGives(w, d, cs[..n - 1]);
      StartableMeansAccepted(w, d, cs, n - 1);
    }
  }

  lemma LastAccepted(w: World, d: Disk, cs: seq<Candidate>, n: nat)
    requires 0 < n <= |cs| && EachAccepted(w, d, cs[..n])
    ensures EachAccepted(w, d, cs[..n - 1]) && Startable(w, cs[n - 1], OneByOne(w, d, cs[..n - 1]))
  {
    hide Startable, OneByOne;
    assert cs[..n][..n - 1] == cs[..n - 1];
  }

  lemma SequenceReachesAfter(w: World, d: Disk, cs: seq<Candidate>)
    requires Series(w, d, cs)
    ensures OneByOne(w, d, cs) == After(w, d, cs) <==> StagesAccepted(w, d, cs, |cs|)
  {
    hide Accepted, Startable, RegistryOK, Series, CollisionFree;
    SeriesStart(w, d, cs);
    assert cs[..|cs|] == cs;
    if StagesAccepted(w, d, cs, |cs|) {
      AcceptedStagesRun(w, d, cs, |cs|);
      OneByOneGives(w, d, cs);
    }
    if OneByOne(w, d, cs) == After(w, d, cs) {
      EachAddsAtMostOne(w, d, cs);
      PrefixCatalog(w, d, cs, |cs|);
      RunStagesAccepted(w, d, cs, |cs|);
    }
  }

  /**
   * A bundle leaves the same tree as its new schemas registered one at a time in sorted key order if
   * and only if the documents of every stage of that sequence are accepted: a schema that refers to
   * one sorted after it can be published in a bundle but not on its own.
   */
  lemma BundleEqualsSequence(w: World, d: Disk, cs: seq<Candidate>, tx: Tx)
    requires Start(w, Bundle(cs), d, tx)
    ensures var added := Fresh(d.catalog, SortBy(cs, CandidateKey));
            Finish(w, Bundle(cs), Attempt(d)).disk == OneByOne(w, d, added) <==> StagesAccepted(w, d, added, |added|)
  {
    hide Start, Finish, SortBy, Fresh, After, OneByOne, StagesAccepted, Series;
    StartGivesSeries(w, d, cs, tx);
    BundleLeaves(w, d, cs, tx);
    SequenceReachesAfter(w, d, Fresh(d.catalog, SortBy(cs, CandidateKey)));
  }
}
