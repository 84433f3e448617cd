/** Every history the registrars can produce passes the immutability check, without repairs. */
module PublisherChecker {
  import opened Text
  import opened Ordering
  import opened Catalogs
  import opened Registry
  import opened Planning
  import opened Transactions
  import opened Publication
  import opened Convergence
  import opened Registrars
  import opened RegistrarRuns
  import opened Immutability
  import opened ImmutabilityFaults

  function TreeOf(d: Disk): Tree { Tree(d.catalog, d.files) }

  // ---------------------------------------------------------------- safe upcaster paths

  ghost predicate SafePins(u: Upcaster) { forall p | p in UpcasterPins(u) :: SafePath(p.path) }

  ghost predicate SafeUpcasters(us: seq<Upcaster>) { forall u | u in us :: SafePins(u) }

  /** What the check asks of upcaster paths beyond what the registry asks. */
  ghost predicate NoFinalNewline(us: seq<Upcaster>)
  {
    forall u | u in us :: forall p | p in UpcasterPins(u) :: !EndsWith(p.path, "\n")
  }

  lemma PatternCharacters(p: Path, x: char)
    requires PathPattern(p) && !EndsWith(p, "\n") && x in p
    ensures SafeCharacter(x) || x == '/'
  {
    var i :| 0 <= i < |p| && p[i] == x;
  }

  lemma PatternIsSafe(p: Path)
    requires RegistryPath(p) && !EndsWith(p, "\n")
    ensures SafePath(p)
  {
    hide Split, EndsWith, PathPattern;
    var parts := Split(p, '/');
    JoinSplit(p, '/');
    forall i, k | 0 <= i < |parts| && 0 <= k < |parts[i]|
      ensures SafeCharacter(parts[i][k])
    {
      var x := parts[i][k];
      assert x in parts[i] && '/' !in parts[i] && x != '/';
      SplitMembers(p, '/', x);
      PatternCharacters(p, x);
    }
  }

  lemma SafeIsPattern(p: Path)
    requires SafePath(p)
    ensures RegistryPath(p) && !EndsWith(p, "\n")
  {
    hide Split;
    SafePathCharacters(p);
    assert p[|p| - 1] in p;
    forall i | 0 <= i < |Split(p, '/')|
      ensures Split(p, '/')[i] !in {"", ".", ".."}
    {
      assert SafeSegment(Split(p, '/')[i]);
    }
  }

  /** The registry and the check differ on nothing but a final newline. */
  lemma RegistryPathIsSafe(p: Path)
    ensures SafePath(p) <==> RegistryPath(p) && !EndsWith(p, "\n")
  {
    hide SafePath, RegistryPath, EndsWith;
    if SafePath(p) {
      SafeIsPattern(p);
    } else if RegistryPath(p) && !EndsWith(p, "\n") {
      PatternIsSafe(p);
    }
  }

  lemma SafePathCharacters(p: Path)
    requires SafePath(p)
    ensures p != "" && forall x | x in p :: SafeCharacter(x) || x == '/'
  {
    hide Split;
    var parts := Split(p, '/');
    forall x: char | x != '/'
      ensures x in p ==> SafeCharacter(x)
    {
      SplitMembers(p, '/', x);
      if x in p {
        var i :| 0 <= i < |parts| && x in parts[i];
        assert SafeSegment(parts[i]);
      }
    }
    assert SafeSegment(parts[0]);
    SplitMembers(p, '/', parts[0][0]);
    JoinSplit(p, '/');
  }

  predicate SafeRequest(r: Request)
  {
    r.Evolution? ==> forall i | 0 <= i < |r.edges| :: EdgeFilesOK(r.edges[i])
  }

  lemma {:induction false} VectorPathsSafe(vectors: seq<VectorInput>)
    requires forall i | 0 <= i < |vectors| :: VectorOK(vectors[i])
    ensures forall a | a in VectorArtifacts(vectors) :: SafePath(a.path)
  {
    hide SafePath;
    if vectors != [] {
      assert VectorOK(vectors[0]);
      VectorPathsSafe(vectors[1..]);
    }
  }

  lemma EdgePathsSafe(w: World, e: Edge, target: SchemaRef)
    requires EdgeFilesOK(e)
    ensures SafePins(UpcasterOf(w, e, target))
  {
    hide SafePath, UpcasterPins, VectorOK;
    UpcasterPaths(w, e, target);
    VectorPathsSafe(e.vectors);
    forall p | p in UpcasterPins(UpcasterOf(w, e, target))
      ensures SafePath(p.path)
    {
      assert p.path in PathsOf(UpcasterPins(UpcasterOf(w, e, target)));
      var a :| a in EdgeArtifacts(e) && a.path == p.path;
    }
  }

  lemma AfterStaysSafe(w: World, c: Catalog, request: Request)
    requires SafeUpcasters(c.upcasters) && SafeRequest(request)
    ensures SafeUpcasters(CatalogAfter(w, c, request).upcasters)
  {
    hide SafePins, EdgeFilesOK, SortBy;
    if request.Evolution? {
      var sorted := SortBy(request.edges, EdgeKey);
      var ref := CandidateRef(w, request.target);
      var us := Upcasters(w, sorted, ref);
      forall i | 0 <= i < |us|
        ensures SafePins(us[i])
      {
        SortByMember(request.edges, EdgeKey, sorted[i]);
        EdgePathsSafe(w, sorted[i], ref);
      }
    }
  }

  lemma PublishedIsSafe(w: World, d: Disk, request: Request, tx: Tx)
    requires MakePlan(w, d, request) == Publish(tx)
    ensures SafeRequest(request)
  {
  }

  // ---------------------------------------------------------------- requests committed since

  ghost predicate SafeSince(n: nat, s: System)
  {
    && (forall i | n <= i < |s.log| :: SafeRequest(s.log[i]))
    && (forall p | 0 <= p < |s.procs| && JobOf(s.procs[p].phase).Some? :: SafeRequest(s.procs[p].request))
  }

  lemma JobOnlyFromPlan(w: World, c: Catalog, s: System, p: nat, ev: Event)
    requires SystemOK(w, c, s) && p < |s.procs| && Active(s.procs[p].phase) && JobOf(s.procs[p].phase).None?
    ensures var t := Next(w, s.procs[p].request, State(s.disk, s.procs[p].phase), ev);
            JobOf(t.phase).Some? ==> SafeRequest(s.procs[p].request)
  {
    hide SystemOK, Next, SafeRequest, RecoverStep, MakePlan, Admits;
    var pr := s.procs[p];
    OpeningDispatch(w, pr.request, s.disk, ev);
    RecoveryEnds(w, s.disk, ev);
    if pr.phase.Preparing? && MakePlan(w, s.disk, pr.request).Publish? {
      PublishedIsSafe(w, s.disk, pr.request, MakePlan(w, s.disk, pr.request).tx);
    }
  }

  lemma SafeSinceStep(w: World, c: Catalog, n: nat, s: System, a: Action)
    requires SystemOK(w, c, s) && SafeSince(n, s)
    ensures SafeSince(n, Step(w, s, a))
  {
    hide SystemOK, Next, SafeRequest;
    var t := Step(w, s, a);
    if a.Advance? && a.p < |s.procs| && Active(s.procs[a.p].phase) && JobOf(s.procs[a.p].phase).None? {
      JobOnlyFromPlan(w, c, s, a.p, a.ev);
    }
    forall p | 0 <= p < |t.procs| && JobOf(t.procs[p].phase).Some?
      ensures SafeRequest(t.procs[p].request)
    {
      if p < |s.procs| && JobOf(s.procs[p].phase).Some? {
        assert SafeRequest(s.procs[p].request);
      }
    }
  }

  lemma {:induction false} SafeSinceSteps(w: World, c: Catalog, n: nat, s: System, actions: seq<Action>)
    requires CollisionFree(w) && SystemOK(w, c, s) && SafeSince(n, s) && AdmissibleActions(w, s, actions)
    ensures SafeSince(n, Steps(w, s, actions))
    decreases |actions|
  {
    hide SystemOK, CollisionFree, Step, SafeSince;
    if actions != [] {
      SystemStep(w, c, s, actions[0]);
      SafeSinceStep(w, c, n, s, actions[0]);
      SafeSinceSteps(w, c, n, Step(w, s, actions[0]), actions[1..]);
    }
  }

  // ---------------------------------------------------------------- growth of the serial catalog

  /** How many schema versions and upcasters one committed request adds. */
  function AddedBy(c: Catalog, request: Request): (r: (nat, nat))
  {
    match request
    case Single(_) => (1, 0)
    case Bundle(cs) => (|Fresh(c, SortBy(cs, CandidateKey))|, 0)
    case Evolution(_, edges) => (1, |edges|)
  }

  function AddedByAll(w: World, c: Catalog, log: seq<Request>): (r: (nat, nat))
  {
    if log == [] then (0, 0)
    else
      var before := AddedByAll(w, c, log[..|log| - 1]);
      var last := AddedBy(Serial(w, c, log[..|log| - 1]), log[|log| - 1]);
      (before.0 + last.0, before.1 + last.1)
  }

  lemma AfterGrows(w: World, c: Catalog, request: Request)
    ensures var d := CatalogAfter(w, c, request);
            && c.schemas <= d.schemas && c.upcasters <= d.upcasters
            && |d.schemas| == |c.schemas| + AddedBy(c, request).0
            && |d.upcasters| == |c.upcasters| + AddedBy(c, request).1
  {
    hide SortBy, Fresh;
    if request.Evolution? {
      SortByKeeps(request.edges, EdgeKey);
    }
  }

  lemma {:induction false} SerialGrows(w: World, c: Catalog, log: seq<Request>)
    ensures var d := Serial(w, c, log);
            && c.schemas <= d.schemas && c.upcasters <= d.upcasters
            && |d.schemas| == |c.schemas| + AddedByAll(w, c, log).0
            && |d.upcasters| == |c.upcasters| + AddedByAll(w, c, log).1
  {
    hide CatalogAfter, AddedBy;
    if log != [] {
      SerialGrows(w, c, log[..|log| - 1]);
      AfterGrows(w, Serial(w, c, log[..|log| - 1]), log[|log| - 1]);
    }
  }

  lemma {:induction false} SerialSplit(w: World, c: Catalog, a: seq<Request>, b: seq<Request>)
    ensures Serial(w, c, a + b) == Serial(w, Serial(w, c, a), b)
    decreases |b|
  {
    hide CatalogAfter;
    if b == [] {
      assert a + b == a;
    } else {
      var n := |b| - 1;
      assert (a + b)[..|a + b| - 1] == a + b[..n];
      SerialSplit(w, c, a, b[..n]);
    }
  }

  lemma {:induction false} SerialSafe(w: World, c: Catalog, log: seq<Request>)
    requires SafeUpcasters(c.upcasters) && forall i | 0 <= i < |log| :: SafeRequest(log[i])
    ensures SafeUpcasters(Serial(w, c, log).upcasters)
  {
    hide SafeUpcasters, SafeRequest, CatalogAfter;
    if log != [] {
      SerialSafe(w, c, log[..|log| - 1]);
      AfterStaysSafe(w, Serial(w, c, log[..|log| - 1]), log[|log| - 1]);
    }
  }

  // ---------------------------------------------------------------- the check on valid trees

  lemma {:induction false} PinsOfUpcaster(us: seq<Upcaster>, u: Upcaster, p: Pin)
    requires u in us && p in UpcasterPins(u)
    ensures p in AllUpcasterPins(us)
  {
    hide UpcasterPins;
    if us[0] != u {
      PinsOfUpcaster(us[1..], u, p);
    }
  }

  lemma PinOfUpcasterHolds(w: World, d: Disk, u: Upcaster, p: Pin)
    requires Pinned(w, d.catalog, d.files) && u in d.catalog.upcasters && p in UpcasterPins(u)
    ensures p in Pins(d.catalog) && p.path in d.files && w.sha(d.files[p.path]) == p.sha
  {
    hide UpcasterPins, AllUpcasterPins;
    PinsOfUpcaster(d.catalog.upcasters, u, p);
  }

  lemma PinOfSchemaHolds(w: World, d: Disk, e: SchemaEntry)
    requires Pinned(w, d.catalog, d.files) && e in d.catalog.schemas
    ensures e.artifactPath in d.files && w.sha(d.files[e.artifactPath]) == e.ref.sha256
  {
    hide AllUpcasterPins;
    EntryInSchemaPaths(d.catalog, e);
    assert SchemaPin(e) in Pins(d.catalog);
  }

  lemma CatalogIsDistinct(w: World, c: Catalog)
    requires CatalogOK(w, c)
    ensures DistinctVersions(c.schemas) && DistinctIds(c.upcasters)
    ensures forall u | u in c.upcasters :: u.vectors != []
  {
  }

  lemma ValidUpcasterForm(w: World, c: Catalog, u: Upcaster)
    requires CatalogOK(w, c) && u in c.upcasters
    ensures UpcasterForm(u) <==> SafePins(u)
    ensures SafePins(u) <==> forall p | p in UpcasterPins(u) :: !EndsWith(p.path, "\n")
  {
    hide UpcasterPins, SafePath, RegistryPath, HexDigest, EntryOK, SinglePaths, SeparateEntries, Resolves, LowerVersion;
    var k :| 0 <= k < |c.upcasters| && c.upcasters[k] == u;
    assert UpcasterOK(c, c.upcasters[k]);
    forall p | p in UpcasterPins(u)
      ensures PinForm(p) <==> SafePath(p.path)
      ensures SafePath(p.path) <==> !EndsWith(p.path, "\n")
    {
      RegistryPathIsSafe(p.path);
    }
    hide PinForm, EndsWith;
    if UpcasterForm(u) {
      forall p | p in UpcasterPins(u)
        ensures SafePath(p.path)
      {
        var i :| 0 <= i < |UpcasterPins(u)| && UpcasterPins(u)[i] == p;
      }
    }
  }

  /** A valid catalog is well formed for the check exactly when no upcaster path ends in a newline. */
  lemma ValidIsWellFormed(w: World, c: Catalog)
    requires CatalogOK(w, c)
    ensures WellFormed(c) <==> NoFinalNewline(c.upcasters)
    ensures SafeUpcasters(c.upcasters) <==> NoFinalNewline(c.upcasters)
  {
    hide CatalogOK, UpcasterPins, EndsWith, UpcasterForm, SafePins;
    CatalogIsDistinct(w, c);
    forall u | u in c.upcasters
      ensures UpcasterForm(u) <==> SafePins(u)
      ensures SafePins(u) <==> forall p | p in UpcasterPins(u) :: !EndsWith(p.path, "\n")
    {
      ValidUpcasterForm(w, c, u);
    }
  }

  lemma ValidHoldsUpcasters(w: World, d: Disk)
    requires Pinned(w, d.catalog, d.files)
    ensures UpcastersHold(w, TreeOf(d))
  {
    hide Pinned, UpcasterPins;
    forall u, p | u in d.catalog.upcasters && p in UpcasterPins(u)
      ensures PinHolds(w, TreeOf(d), p)
    {
      PinOfUpcasterHolds(w, d, u, p);
    }
  }

  lemma SameBytes(w: World, x: Bytes, y: Bytes)
    requires CollisionFree(w) && w.sha(x) == w.sha(y)
    ensures x == y
  {
  }

  lemma SchemasUnchanged(w: World, s: Disk, t: Disk, e: SchemaEntry)
    requires CollisionFree(w) && Pinned(w, s.catalog, s.files) && Pinned(w, t.catalog, t.files)
    requires e in s.catalog.schemas && e in t.catalog.schemas
    ensures SchemaKept(w, TreeOf(s), TreeOf(t), e) && !Differs(TreeOf(s), TreeOf(t), e)
  {
    hide Pinned, CollisionFree;
    PinOfSchemaHolds(w, s, e);
    PinOfSchemaHolds(w, t, e);
    SameBytes(w, s.files[e.artifactPath], t.files[e.artifactPath]);
  }

  lemma UpcastersUnchanged(w: World, s: Disk, t: Disk, u: Upcaster)
    requires CollisionFree(w) && Pinned(w, s.catalog, s.files) && Pinned(w, t.catalog, t.files)
    requires u in s.catalog.upcasters && u in t.catalog.upcasters
    ensures UpcasterKept(TreeOf(s), TreeOf(t), u)
  {
    hide Pinned, CollisionFree, UpcasterPins;
    forall p | p in UpcasterPins(u)
      ensures p.path in s.files && p.path in t.files && s.files[p.path] == t.files[p.path]
    {
      PinOfUpcasterHolds(w, s, u, p);
      PinOfUpcasterHolds(w, t, u, p);
      SameBytes(w, s.files[p.path], t.files[p.path]);
    }
  }

  /** Between two valid trees where the later catalog extends the earlier one nothing is repaired. */
  lemma ExtensionPasses(w: World, s: Disk, t: Disk)
    requires CollisionFree(w) && RegistryOK(w, s) && RegistryOK(w, t)
    requires s.catalog.schemas <= t.catalog.schemas && s.catalog.upcasters <= t.catalog.upcasters
    ensures Repaired(TreeOf(s), TreeOf(t)) == {}
    ensures Passes(w, TreeOf(s), TreeOf(t)) <==> NoFinalNewline(t.catalog.upcasters)
  {
    hide CollisionFree, CatalogOK, Pinned, Accepted, MarkerOK, SchemaClosed, WellFormed, UpcastersHold, SchemaKept,
         UpcasterKept, Differs, SafePins, UpcasterPins, EndsWith;
    ValidIsWellFormed(w, s.catalog);
    ValidIsWellFormed(w, t.catalog);
    ValidHoldsUpcasters(w, s);
    ValidHoldsUpcasters(w, t);
    forall e | e in s.catalog.schemas
      ensures SchemaKept(w, TreeOf(s), TreeOf(t), e) && !Differs(TreeOf(s), TreeOf(t), e)
    {
      SchemasUnchanged(w, s, t, e);
    }
    forall u | u in s.catalog.upcasters
      ensures UpcasterKept(TreeOf(s), TreeOf(t), u)
    {
      UpcastersUnchanged(w, s, t, u);
    }
    assert NoFinalNewline(t.catalog.upcasters) ==> NoFinalNewline(s.catalog.upcasters);
  }

  // ---------------------------------------------------------------- the theorem

  lemma Extends(w: World, c: Catalog, s: System, t: System)
    requires s.log <= t.log && s.disk.catalog == Serial(w, c, s.log) && t.disk.catalog == Serial(w, c, t.log)
    ensures var since := t.log[|s.log|..];
            && t.disk.catalog == Serial(w, s.disk.catalog, since)
            && s.disk.catalog.schemas <= t.disk.catalog.schemas
            && s.disk.catalog.upcasters <= t.disk.catalog.upcasters
            && |t.disk.catalog.schemas| - |s.disk.catalog.schemas| == AddedByAll(w, s.disk.catalog, since).0
            && |t.disk.catalog.upcasters| - |s.disk.catalog.upcasters| == AddedByAll(w, s.disk.catalog, since).1
  {
    hide CatalogAfter, Serial, AddedByAll;
    var since := t.log[|s.log|..];
    assert t.log == s.log + since;
    SerialSplit(w, c, s.log, since);
    SerialGrows(w, s.disk.catalog, since);
  }

  /**
   * The publisher refines the checker: from any reachable system with the lock free to any later
   * one, through any interleaving of single, bundle and evolution registrations with faults and
   * kills, the check of the later tree against the earlier passes, reports no repair, and its added
   * counts are what was committed in between, exactly when no upcaster path of the earlier catalog
   * ends in a newline.
   */
  lemma HistoriesPassTheCheck(w: World, c: Catalog, s: System, actions: seq<Action>)
    requires CollisionFree(w)
    requires SystemOK(w, c, s) && s.holder.None? && AdmissibleActions(w, s, actions)
    ensures s.log <= Steps(w, s, actions).log
    ensures var t := Steps(w, s, actions);
            var since := t.log[|s.log|..];
            && (Passes(w, TreeOf(s.disk), TreeOf(t.disk)) <==> NoFinalNewline(s.disk.catalog.upcasters))
            && Repaired(TreeOf(s.disk), TreeOf(t.disk)) == {}
            && |t.disk.catalog.schemas| - |s.disk.catalog.schemas| == AddedByAll(w, s.disk.catalog, since).0
            && |t.disk.catalog.upcasters| - |s.disk.catalog.upcasters| == AddedByAll(w, s.disk.catalog, since).1
  {
    hide CollisionFree, SystemOK, AdmissibleActions, Steps, Passes, Repaired, Serial, AddedByAll, SafeUpcasters,
         NoFinalNewline, RegistryOK;
    var t := Steps(w, s, actions);
    CommitsAreFinal(w, c, s, actions);
    SystemSteps(w, c, s, actions);
    SystemParts(w, c, s);
    SystemParts(w, c, t);
    Extends(w, c, s, t);
    ExtensionPasses(w, s.disk, t.disk);
    SafeSinceStart(s);
    SafeSinceSteps(w, c, |s.log|, s, actions);
    RegistryCatalog(w, s.disk);
    RegistryCatalog(w, t.disk);
    ValidIsWellFormed(w, s.disk.catalog);
    ValidIsWellFormed(w, t.disk.catalog);
    if SafeUpcasters(s.disk.catalog.upcasters) {
      SerialSafe(w, s.disk.catalog, t.log[|s.log|..]);
    }
    SafePrefix(s.disk.catalog.upcasters, t.disk.catalog.upcasters);
  }

  lemma RegistryCatalog(w: World, d: Disk)
    requires RegistryOK(w, d)
    ensures CatalogOK(w, d.catalog)
  {
    hide CatalogOK, Pinned, Accepted, MarkerOK, SchemaClosed;
  }

  lemma SafePrefix(a: seq<Upcaster>, b: seq<Upcaster>)
    requires a <= b
    ensures SafeUpcasters(b) ==> SafeUpcasters(a)
  {
  }

  lemma SafeSinceStart(s: System)
    requires Exclusive(s) && s.holder.None?
    ensures SafeSince(|s.log|, s)
  {
  }
}
