/** Concrete runs of two registrars: one that loses an orphan's marker, one that passes the immutability check. */
module ExampleRuns {
  import opened Text
  import opened Catalogs
  import opened Registry
  import opened Planning
  import opened Transactions
  import opened Publication
  import opened CrashSafety
  import opened Replanning
  import opened Convergence
  import opened Registrars
  import opened RegistrarRuns
  import opened RegistrarCoverage
  import opened RegistrarScripts
  import opened BundleSequence
  import opened Immutability
  import opened PublisherChecker
  import opened ExampleWorlds
  import opened ExampleTrees
  import opened ExampleEvolution

  // ---------------------------------------------------------------- the hazard is reached

  function AddB(): Request { Bundle(Candidates("b")) }

  /** Two registrars waiting at the tree of schema a: an evolution of a, and a bundle with b. */
  function Meeting(): System
  {
    System(QuietTree(), None, [Process(EvolveA(), Waiting), Process(AddB(), Waiting)], [])
  }

  /** The evolution is killed after its first file; then the bundle runs to its end. */
  function KillThenBundle(): seq<Action>
  {
    ([Begin(0)] + Advances(0, 5)) + [Kill(0)] + ([Begin(1)] + Advances(1, 6))
  }

  lemma EvolutionStarts()
    ensures Start(Accepting(), EvolveA(), QuietTree(), EvolutionTx())
    ensures TxFits(Accepting(), QuietTree(), EvolutionTx())
    ensures EvolutionTx().artifacts != [] && EvolutionTx().artifacts[0] == CodeFile() && CODE !in QuietTree().files
  {
    hide RegistryOK, MakePlan, Admits, CollisionFree, TxFits, EvolveA, MarkerFor, Evolved, OldEntry, SchemaFile, PathOf,
         CodePath;
    QuietTreeIs();
    EvolutionIsPlanned();
    AcceptingIsCollisionFree();
    StartFits(Accepting(), EvolveA(), QuietTree(), EvolutionTx());
    CodeIsShort();
    FileNamesDiffer(CODE);
  }

  /** The tree the killed evolution leaves. */
  function LeftBehind(): Disk
  {
    Disk(QuietTree().catalog, QuietTree().files[CODE := [3]], Some(EvolutionTx().marker))
  }

  lemma LeftBehindIs()
    ensures LeftBehind() == AfterFirst(QuietTree(), EvolutionTx())
  {
    hide QuietTree, EvolutionTx;
    EvolutionStarts();
  }

  function WithA(extra: Files): Files { PlainFiles("a", extra) }

  lemma AcceptingIsCollisionFree()
    ensures CollisionFree(Accepting())
  {
    hide CollisionFree, Example;
    ExampleIsCollisionFree(Anything);
  }

  lemma LaidOver(files: Files, p: Path, x: Bytes)
    requires p !in files
    ensures (map[] + files)[p := x] == map[p := x] + files
  {
  }

  lemma LeftBehindHolds()
    ensures LeftBehind().files == WithA(map[CODE := [3]])
  {
    hide PathOf, CodePath, EvolutionTx, CandidateOf, FilesOf;
    QuietTreeIs();
    CodeIsShort();
    FileNamesDiffer(CODE);
    assert map[] + FilesOf(Candidates("a")) == FilesOf(Candidates("a"));
    LaidOver(FilesOf(Candidates("a")), CODE, [3]);
  }

  lemma CodeIsForeign(c: Catalog)
    requires CatalogPaths(c) == {PathOf('a')}
    ensures Unscanned(map[CODE := [3]]) && CODE !in CatalogPaths(c) && PathOf('b') !in {CODE, PathOf('a')}
  {
    assert PathOf('b')[0] == 'v';
    hide PathOf, IsScanned, CatalogPaths, CodePath;
    FixedNames();
    ShortNameIsSafe(CODE);
    CodeIsShort();
    FileNamesDiffer(CODE);
    PathsDiffer('a', 'b');
  }

  lemma QuietPaths()
    ensures CatalogPaths(QuietTree().catalog) == {PathOf('a')}
  {
    hide PathOf, CatalogPaths, SchemaPaths, CandidateOf;
    PlainPaths(Accepting(), "a");
    CandidatePath('a');
    assert Candidates("a") == [CandidateOf('a')];
  }

  lemma LeftBehindFiles()
    ensures LeftBehind().files == WithA(map[CODE := [3]])
    ensures Unscanned(map[CODE := [3]]) && PathOf('b') !in LeftBehind().files && IsOrphan(LeftBehind(), CODE)
  {
    hide PathOf, CatalogPaths, QuietTree, EvolutionTx, Unscanned, PlainFiles;
    LeftBehindHolds();
    QuietPaths();
    CodeIsForeign(QuietTree().catalog);
    QuietTreeIs();
  }

  lemma QuietHasNoOrphan()
    ensures forall p :: !IsOrphan(QuietTree(), p)
  {
    hide PathOf, CatalogPaths, SchemaPaths, FilesOf;
    PlainPaths(Accepting(), "a");
    FilesOfKeys(Candidates("a"));
  }

  /** The killed evolution's tree is valid, recovered and covered. */
  lemma LeftBehindTree()
    ensures TreeOK(Accepting(), LeftBehind()) && Covered(Accepting(), LeftBehind()) &&
            Recovered(Accepting(), LeftBehind())
  {
    var w, e, tx, d := Accepting(), QuietTree(), EvolutionTx(), LeftBehind();
    hide EvolutionTx, QuietTree, TreeOK, TxFits, InFlight, Recovered, IsOrphan, Start, CodeFile, Accepting;
    EvolutionStarts();
    LeftBehindIs();
    LeftBehindFiles();
    QuietHasNoOrphan();
    QuietMarker();
    FirstInFlight(w, e, tx);
    MarkedByFirst(w, e, tx);
    InFlightTreeOK(w, e, tx, d);
    InFlightCovered(w, e, tx, d);
  }

  lemma QuietMarker()
    ensures QuietTree().marker.None? && CodeFile() == Artifact(CODE, [3], "UPCASTER_CODE")
  {
  }

  function BundleTx(): Tx { LettersTx(Accepting(), QuietTree().catalog, "a", "b") }

  lemma MarkersDiffer()
    ensures EvolutionTx().marker != BundleTx().marker
  {
    assert PathOf('b')[0] == 'v' && CODE[0] == 'c';
    hide PathOf, Evolved, PlainCatalog, CandidateOf, CatalogDigest, OldEntry, ByteDigest, EncodeCatalog;
    CandidatePath('b');
    assert Candidates("b")[0] == CandidateOf('b');
    assert EvolutionTx().marker.items[0].path == CODE;
    assert BundleTx().marker.items[0].path == PathOf('b');
  }

  lemma BundleArtifact()
    ensures forall a | a in BundleTx().artifacts :: a.path == PathOf('b')
  {
    hide PathOf, CandidateOf, MarkerFor, PlainCatalog;
    CandidatePath('b');
    assert Candidates("b") == [CandidateOf('b')];
  }

  /** The bundle passes every check on the killed evolution's tree and is in its hazard. */
  lemma BundleMeetsHazard()
    ensures var d := LeftBehind();
            && MakePlan(Accepting(), d, AddB()) == Publish(BundleTx()) && Admits(Accepting(), d, BundleTx())
            && TxFits(Accepting(), d, BundleTx()) && Hazard(d, BundleTx())
  {
    LeftBehindTree();
    LeftBehindFiles();
    MarkersDiffer();
    BundleArtifact();
    AcceptingIsCollisionFree();
    hide RegistryOK, PathOf, PlainCatalog, PlainFiles, Candidates, LettersTx, EvolutionTx, MakePlan, Admits, TxFits,
         Recovered, Covered, CollisionFree, Example, QuietTree, CatalogPaths;
    LeftBehindCatalog();
    assert "a" + "b" == "ab";
    TreeIsRegistry(Accepting(), LeftBehind());
    LettersPlan(Anything, "a", "b", map[CODE := [3]], LeftBehind());
    PlanFits(Accepting(), LeftBehind(), AddB());
  }

  lemma LeftBehindCatalog()
    ensures LeftBehind().catalog == PlainCatalog(Accepting(), "a")
    ensures LeftBehind().marker == Some(EvolutionTx().marker)
  {
  }

  /** After the evolution is killed its lock is free and the bundle still waits. */
  lemma EvolutionKilled()
    ensures var s := Steps(Accepting(), Meeting(), [Begin(0)] + Advances(0, 5) + [Kill(0)]);
            && s.disk == LeftBehind() && s.holder.None?
            && |s.procs| == 2 && s.procs[1] == Process(AddB(), Waiting)
  {
    hide QuietTree, EvolutionTx, EvolveA, AddB, Accepting, Run, Next, StaysActive, Steps, Oks, Advances, Start, TxFits,
         CodeFile;
    var w, s := Accepting(), Meeting();
    EvolutionStarts();
    QuietMarker();
    LeftBehindIs();
    FiveSteps(w, EvolveA(), QuietTree(), EvolutionTx());
    BeginFollows(w, s, 0, 5);
    var t := Steps(w, s, [Begin(0)] + Advances(0, 5));
    StepsAppend(w, s, [Begin(0)] + Advances(0, 5), [Kill(0)]);
    OneStep(w, t, Kill(0));
  }

  lemma BundleRollsBack()
    ensures Steps(Accepting(), Meeting(), KillThenBundle()).disk == LeftBehind().(marker := None)
  {
    hide LeftBehind, Accepting, Run, Next, StaysActive, Steps, Oks, Advances, TxFits, MakePlan, Admits, Hazard,
         BundleTx, Meeting, AddB;
    var w := Accepting();
    EvolutionKilled();
    BundleMeetsHazard();
    var s := Steps(w, Meeting(), [Begin(0)] + Advances(0, 5) + [Kill(0)]);
    HazardSteps(w, AddB(), s.disk, BundleTx());
    BeginFollows(w, s, 1, 6);
    StepsAppend(w, Meeting(), [Begin(0)] + Advances(0, 5) + [Kill(0)], [Begin(1)] + Advances(1, 6));
  }

  lemma MeetingIsInitial()
    ensures Initial(Accepting(), Meeting())
  {
    hide RegistryOK, PathOf;
    QuietTreeIs();
  }

  lemma KillThenBundleFaultless()
    ensures Faultless(KillThenBundle())
  {
    hide Advances;
    AdvancesFaultless(0, 5);
    AdvancesFaultless(1, 6);
  }

  /**
   * Orphan coverage is not kept by every run. From a valid tree without orphans, an evolution with one
   * edge is killed after its code file, then a bundle that has nothing to do with it fails on the
   * foreign marker and rolls back. The code file is left with no marker that names it.
   */
  lemma HazardIsReached()
    ensures var w, s, t := Accepting(), Meeting(), Steps(Accepting(), Meeting(), KillThenBundle());
            && CollisionFree(w) && Initial(w, s) && (forall p :: !IsOrphan(s.disk, p))
            && AdmissibleActions(w, s, KillThenBundle())
            && IsOrphan(t.disk, CODE) && t.disk.marker.None? && !Covered(w, t.disk)
            && !CalmActions(w, s, KillThenBundle())
  {
    var w, s := Accepting(), Meeting();
    AcceptingIsCollisionFree();
    MeetingIsInitial();
    QuietHasNoOrphan();
    KillThenBundleFaultless();
    FaultlessIsAdmissible(w, s, KillThenBundle());
    BundleRollsBack();
    LeftBehindFiles();
    assert s.disk == QuietTree();
    hide Accepting, Meeting, KillThenBundle, Steps, CollisionFree, Initial, AdmissibleActions, CalmActions, LeftBehind,
         CatalogPaths, QuietTree;
    assert !Covered(w, Steps(w, s, KillThenBundle()).disk);
    if CalmActions(w, s, KillThenBundle()) {
      OrphansStayCovered(w, s, KillThenBundle());
    }
  }

  // ---------------------------------------------------------------- a registration that succeeds

  lemma BundleStarts()
    ensures Start(Accepting(), AddB(), QuietTree(), BundleTx())
  {
    hide RegistryOK, PathOf, PlainCatalog, PlainFiles, Candidates, LettersTx, MakePlan, Admits, CollisionFree;
    QuietTreeIs();
    AcceptingIsCollisionFree();
    assert "a" + "b" == "ab";
    LettersPlan(Anything, "a", "b", map[], QuietTree());
  }

  lemma MeetingParts()
    ensures var s := Meeting();
            && SystemOK(Accepting(), s.disk.catalog, s) && s.disk == QuietTree() && s.holder.None? && |s.procs| == 2
            && s.procs[1] == Process(AddB(), Waiting)
  {
    hide SystemOK, Initial, QuietTree, EvolveA, AddB;
    MeetingIsInitial();
    InitialOK(Accepting(), Meeting());
  }

  /**
   * The publisher and the immutability check agree on a real history: the bundle is registered with
   * nothing in its way, the check passes, and it reports the one schema that was added.
   */
  lemma HistoryPasses() returns (n: nat)
    ensures var w, s, t := Accepting(), Meeting(), Steps(Accepting(), Meeting(), [Begin(1)] + Advances(1, n));
            && CollisionFree(w) && SystemOK(w, s.disk.catalog, s) && s.holder.None?
            && AdmissibleActions(w, s, [Begin(1)] + Advances(1, n))
            && t.disk == PublishedDisk(s.disk, BundleTx())
            && Passes(w, TreeOf(s.disk), TreeOf(t.disk))
            && |t.disk.catalog.schemas| == |s.disk.catalog.schemas| + 1
  {
    var w, s := Accepting(), Meeting();
    AcceptingIsCollisionFree();
    hide Accepting, Meeting, CollisionFree, SystemOK, QuietTree, AddB, BundleTx, Steps, Start, AdmissibleActions,
         Passes, Repaired, AddedByAll, Advances, NoFinalNewline, FullFiles;
    MeetingParts();
    BundleStarts();
    BundleAddsOne();
    n := UndisturbedRegistration(w, s, 1, BundleTx());
    HistoriesPassTheCheck(w, s.disk.catalog, s, [Begin(1)] + Advances(1, n));
  }

  lemma BundleAddsOne()
    ensures |BundleTx().target.schemas| == |QuietTree().catalog.schemas| + 1
    ensures NoFinalNewline(QuietTree().catalog.upcasters)
  {
    hide CandidateOf;
    assert "a" + "b" == "ab";
  }
}
