/**
 * The one failure the publication protocol does not absorb: the final marker unlink takes effect
 * and then fails, so the rollback runs without the marker that would excuse its orphans.
 */
module LostMarker {
  import opened Text
  import opened Catalogs
  import opened Registry
  import opened Planning
  import opened Transactions
  import opened Publication
  import opened CrashSafety
  import opened PublicationRuns
  import opened Convergence

  /** A validated publication about to unlink its marker. */
  ghost predicate AboutToClear(e: Disk, tx: Tx, s: State)
  {
    s.phase.Clearing? && PubInv(e, tx, s)
  }

  lemma UnmarkWithoutMarker(w: World, request: Request, d: Disk, j: Job)
    requires d.marker.None?
    ensures Finish(w, request, State(d, Unmarking(j))) == State(d, Ended(RolledBack))
  {
  }

  /** One fault-free removal. */
  lemma RemoveOne(w: World, request: Request, e: Disk, tx: Tx, j: Job, k: nat, d: Disk)
    requires 0 < k <= |j.installed| && Placed(e, tx, j.installed)
    requires d == Disk(tx.original, FilesWith(e, tx, SetOf(j.installed[..k])), None)
    ensures Finish(w, request, State(d, Removing(j, k)))
         == Finish(w, request, State(Disk(tx.original, FilesWith(e, tx, SetOf(j.installed[..k - 1])), None),
                                     Removing(j, k - 1)))
  {
    WithRemoved(e, tx, j.installed, k);
    hide Finish, Next, FilesWith, Placed, SetOf, Without;
    RollbackDispatch(w, request, d, j, k, Ok);
    FinishStep(w, request, State(d, Removing(j, k)));
  }

  lemma RemoveNone(w: World, request: Request, d: Disk, j: Job)
    requires d.marker.None?
    ensures Finish(w, request, State(d, Removing(j, 0))) == State(d, Ended(RolledBack))
  {
    hide Finish, Next;
    RollbackDispatch(w, request, d, j, 0, Ok);
    FinishStep(w, request, State(d, Removing(j, 0)));
    UnmarkWithoutMarker(w, request, d, j);
  }

  lemma {:induction false} RollbackWithoutMarker(w: World, request: Request, e: Disk, tx: Tx, j: Job, k: nat)
    requires j.tx == tx && j.entry == e && Placed(e, tx, j.installed) && k <= |j.installed|
    ensures var d := Disk(tx.original, FilesWith(e, tx, SetOf(j.installed[..k])), None);
            Finish(w, request, State(d, Removing(j, k))) == State(Disk(tx.original, e.files, None), Ended(RolledBack))
    decreases k
  {
    hide Finish, FilesWith, Placed;
    var d := Disk(tx.original, FilesWith(e, tx, SetOf(j.installed[..k])), None);
    if k == 0 {
      assert SetOf(j.installed[..0]) == {};
      WithNone(e, tx);
      RemoveNone(w, request, d, j);
    } else {
      RemoveOne(w, request, e, tx, j, k, d);
      RollbackWithoutMarker(w, request, e, tx, j, k - 1);
    }
  }

  lemma ClearingFacts(e: Disk, tx: Tx, s: State)
    requires AboutToClear(e, tx, s)
    ensures var j := s.phase.job;
            && j.tx == tx && j.entry == e && j.committed && Placed(e, tx, j.installed)
            && Progress(e, tx, j.installed, |tx.artifacts|)
            && s.disk == Disk(tx.target, FullFiles(e.files, tx), Some(tx.marker))
  {
  }

  /**
   * If the final unlink fails after its effect and the rollback then runs to its end, the tree is
   * the entry tree without any marker.
   */
  lemma LateUnlinkRollsBackUnmarked(w: World, request: Request, e: Disk, tx: Tx, s: State)
    requires TxFits(w, e, tx) && AboutToClear(e, tx, s)
    ensures Finish(w, request, Next(w, request, s, Late))
         == State(Disk(tx.original, e.files, None), Ended(RolledBack))
  {
    hide Finish, Next, TxFits, FilesWith, FullFiles, TxShape;
    FitsShape(w, e, tx);
    ShapeParts(e, tx);
    ClearingFacts(e, tx, s);
    var j := s.phase.job;
    WithAll(w, e, tx, j.installed);
    assert j.installed[..|j.installed|] == j.installed;
    RollbackWithoutMarker(w, request, e, tx, j, |j.installed|);
    RollbackDispatch(w, request, s.disk, j, 0, Late);
    RollbackDispatch(w, request, s.disk.(marker := None), j, 0, Ok);
    FinishStep(w, request, State(s.disk.(marker := None), RestoringCatalog(j)));
    hide AboutToClear, Placed, Progress, SetOf;
  }

  lemma ShapeParts(e: Disk, tx: Tx)
    requires TxShape(e, tx)
    ensures tx.original == e.catalog && DistinctPaths(tx.artifacts) && Compatible(e.files, tx.artifacts)
  {
  }

  // ---------------------------------------------------------------- killed during that rollback

  /** The tree while the first `k` installed artifacts are still there. */
  function Unrolled(e: Disk, tx: Tx, installed: seq<Path>, k: nat): Disk
    requires k <= |installed|
  {
    Disk(tx.original, FilesWith(e, tx, SetOf(installed[..k])), None)
  }

  ghost predicate NoneScanned(paths: seq<Path>) { forall p | p in paths :: !IsScanned(p) }

  /** No scanned artifact of the transaction was lying on disk, uncatalogued, when it began. */
  ghost predicate NoScannedOrphan(e: Disk, tx: Tx)
  {
    forall p :: p in ArtifactPaths(tx.artifacts) && IsScanned(p) ==> !IsOrphan(e, p)
  }

  lemma UnrolledFiles(e: Disk, tx: Tx, installed: seq<Path>, k: nat, p: Path)
    requires Placed(e, tx, installed) && k <= |installed|
    ensures p in Unrolled(e, tx, installed, k).files <==> p in e.files || p in installed[..k]
    ensures p in installed[..k] ==> p !in e.files
  {
    if p in installed[..k] {
      var i :| 0 <= i < k && installed[i] == p;
    }
  }

  lemma UnrolledClosed(w: World, e: Disk, tx: Tx, installed: seq<Path>, k: nat)
    requires TxFits(w, e, tx) && Placed(e, tx, installed) && k <= |installed|
    ensures SchemaClosed(w, Unrolled(e, tx, installed, k)) <==> NoneScanned(installed[..k]) && NoScannedOrphan(e, tx)
  {
    var d := Unrolled(e, tx, installed, k);
    FitsEntry(w, e, tx);
    forall p: Path
      ensures p in d.files <==> p in e.files || p in installed[..k]
      ensures p in installed[..k] ==> p !in e.files
    {
      UnrolledFiles(e, tx, installed, k, p);
    }
    WithBetween(w, e, tx, SetOf(installed[..k]));
    hide TxFits, Placed, IsScanned, SchemaPaths, CatalogPaths, InVersionDirectory, FilesWith, FullFiles, ArtifactPaths;
    if NoneScanned(installed[..k]) && NoScannedOrphan(e, tx) {
      forall p | p in d.files && IsScanned(p)
        ensures InVersionDirectory(p) && p in SchemaPaths(tx.original)
      {
        assert p in e.files;
      }
    }
    if SchemaClosed(w, d) {
      assert forall p | p in d.files && IsScanned(p) :: p in SchemaPaths(tx.original);
    }
  }

  /** What `TxFits` says about scanned files, path by path. */
  lemma FitsEntry(w: World, e: Disk, tx: Tx)
    requires TxFits(w, e, tx)
    ensures tx.original == e.catalog && TxShape(e, tx) && DistinctPaths(tx.artifacts)
    ensures SchemaPaths(tx.original) <= CatalogPaths(tx.original) <= e.files.Keys
    ensures forall p | p in FullFiles(e.files, tx) && IsScanned(p) ::
              InVersionDirectory(p) && (p in SchemaPaths(tx.original) || p in ArtifactPaths(tx.artifacts))
    ensures forall p | p in CatalogPaths(tx.original) && IsScanned(p) :: p in SchemaPaths(tx.original)
  {
    SchemaPathsInCatalog(tx.original);
    PinnedPaths(w, tx.original, e.files);
    assert Pending(w, PublishedDisk(e, tx)) == {};
    hide IsScanned, SchemaPaths, CatalogPaths, InVersionDirectory, FullFiles, CatalogOK, Accepted, MarkerOK, Pinned;
    assert PublishedDisk(e, tx).files == FullFiles(e.files, tx);
  }

  /** Exactly when such a tree is still a valid registry. */
  lemma UnrolledValidIff(w: World, e: Disk, tx: Tx, installed: seq<Path>, k: nat)
    requires TxFits(w, e, tx) && Placed(e, tx, installed) && k <= |installed|
    ensures RegistryOK(w, Unrolled(e, tx, installed, k)) <==> NoneScanned(installed[..k]) && NoScannedOrphan(e, tx)
  {
    var d := Unrolled(e, tx, installed, k);
    UnrolledClosed(w, e, tx, installed, k);
    FitsEntry(w, e, tx);
    EntryPinned(w, e, tx);
    WithBetween(w, e, tx, SetOf(installed[..k]));
    OriginalStaysPinned(w, e, d.files, FullFiles(e.files, tx));
    hide TxFits, Placed, SchemaClosed, CatalogOK, Pinned, Accepted, FilesWith, FullFiles, NoneScanned, NoScannedOrphan;
  }

  lemma EntryPinned(w: World, e: Disk, tx: Tx)
    requires TxFits(w, e, tx)
    ensures CatalogOK(w, e.catalog) && Pinned(w, e.catalog, e.files) && Accepted(w, e.catalog, e.files)
  {
    hide CatalogOK, Pinned, Accepted, SchemaClosed, MarkerOK;
  }

  lemma {:induction false} RemovalRun(w: World, request: Request, e: Disk, tx: Tx, j: Job, n: nat, k: nat)
    requires k <= n <= |j.installed| && Placed(e, tx, j.installed)
    ensures Run(w, request, State(Unrolled(e, tx, j.installed, n), Removing(j, n)), Oks(n - k))
         == State(Unrolled(e, tx, j.installed, k), Removing(j, k))
    decreases n
  {
    hide Next, Run, Oks, FilesWith, Placed, SetOf, Without;
    var d := Unrolled(e, tx, j.installed, n);
    if n == k {
      RunOks(w, request, State(d, Removing(j, n)), 0);
    } else {
      WithRemoved(e, tx, j.installed, n);
      RollbackDispatch(w, request, d, j, n, Ok);
      RunOks(w, request, State(d, Removing(j, n)), n - k - 1);
      RemovalRun(w, request, e, tx, j, n - 1, k);
    }
  }

  lemma LateUnlinkThenRestore(w: World, request: Request, e: Disk, tx: Tx, s: State)
    requires TxShape(e, tx) && AboutToClear(e, tx, s)
    ensures var j := s.phase.job;
            Next(w, request, Next(w, request, s, Late), Ok)
            == State(Unrolled(e, tx, j.installed, |j.installed|), Removing(j, |j.installed|))
    ensures Unrolled(e, tx, s.phase.job.installed, |s.phase.job.installed|).files == FullFiles(e.files, tx)
    ensures Placed(e, tx, s.phase.job.installed)
  {
    hide FullFiles, Placed, Progress, Next, FilesWith;
    ClearingFacts(e, tx, s);
    var j := s.phase.job;
    WithAll(w, e, tx, j.installed);
    assert j.installed[..|j.installed|] == j.installed;
    RollbackDispatch(w, request, s.disk, j, 0, Late);
    RollbackDispatch(w, request, s.disk.(marker := None), j, 0, Ok);
  }

  lemma RunAfterLate(w: World, request: Request, s: State, n: nat)
    ensures Run(w, request, s, [Late] + Oks(n + 1))
         == Run(w, request, Next(w, request, Next(w, request, s, Late), Ok), Oks(n))
  {
    hide Next, Oks;
    assert ([Late] + Oks(n + 1))[1..] == Oks(n + 1);
    RunOks(w, request, Next(w, request, s, Late), n);
  }

  /**
   * A kill during the rollback that follows the late failure, once the old catalog is back: with the
   * first `k` installed artifacts still there, the tree is valid exactly when none of those is
   * scanned and no scanned artifact was an orphan on entry.
   */
  lemma LateUnlinkThenKillValidIff(w: World, request: Request, e: Disk, tx: Tx, s: State, k: nat)
    requires TxFits(w, e, tx) && AboutToClear(e, tx, s) && k <= |s.phase.job.installed|
    ensures var installed := s.phase.job.installed;
            var d := Run(w, request, s, [Late] + Oks(1 + |installed| - k)).disk;
            && d == Disk(tx.original, FilesWith(e, tx, SetOf(installed[..k])), None)
            && (RegistryOK(w, d) <==> NoneScanned(installed[..k]) && NoScannedOrphan(e, tx))
  {
    hide TxFits, PubInv, Placed, FilesWith, FullFiles, Next, Run, Oks, RegistryOK, NoneScanned, NoScannedOrphan;
    FitsShape(w, e, tx);
    LateUnlinkThenRestore(w, request, e, tx, s);
    var installed := s.phase.job.installed;
    RunAfterLate(w, request, s, |installed| - k);
    RemovalRun(w, request, e, tx, s.phase.job, |installed|, k);
    UnrolledValidIff(w, e, tx, installed, k);
  }

  /**
   * Exactly when the completed rollback still leaves a usable registry: no scanned artifact of the
   * transaction was already lying on disk, uncatalogued, when it began.
   */
  lemma LateUnlinkSurvivesIff(w: World, request: Request, e: Disk, tx: Tx, s: State)
    requires TxFits(w, e, tx) && AboutToClear(e, tx, s)
    ensures RegistryOK(w, Finish(w, request, Next(w, request, s, Late)).disk) <==> NoScannedOrphan(e, tx)
  {
    hide TxFits, PubInv, Placed, FilesWith, Finish, Next, RegistryOK, NoScannedOrphan, Progress;
    LateUnlinkRollsBackUnmarked(w, request, e, tx, s);
    ClearingFacts(e, tx, s);
    var installed := s.phase.job.installed;
    UnrolledValidIff(w, e, tx, installed, 0);
    assert SetOf(installed[..0]) == {};
    WithNone(e, tx);
  }

  lemma AppendedPathIsNew(w: World, original: Catalog, target: Catalog)
    requires CatalogOK(w, target)
    requires |original.schemas| < |target.schemas| && original.schemas <= target.schemas
    ensures var p := target.schemas[|original.schemas|].artifactPath;
            IsScanned(p) && p in SchemaPaths(target) && p !in SchemaPaths(original)
  {
    var n := |original.schemas|;
    var x := target.schemas[n];
    assert EntryOK(w, target, x);
    EntryInSchemaPaths(target, x);
    forall q | q in SchemaPaths(original)
      ensures q != x.artifactPath
    {
      var pin :| pin in SchemaPins(original.schemas) && pin.path == q;
      var i :| 0 <= i < n && SchemaPins(original.schemas)[i] == pin;
      assert target.schemas[i] == original.schemas[i];
      assert SeparateEntries(target.schemas[i], target.schemas[n]);
    }
  }

  /** Some entry of the new catalog is new; its file is scanned and not in the old catalog. */
  lemma NewSchemaIsScanned(w: World, e: Disk, tx: Tx) returns (p: Path)
    requires TxFits(w, e, tx)
    requires |tx.original.schemas| < |tx.target.schemas| && tx.original.schemas <= tx.target.schemas
    ensures p in FullFiles(e.files, tx) && IsScanned(p) && p !in SchemaPaths(tx.original)
  {
    p := tx.target.schemas[|tx.original.schemas|].artifactPath;
    SchemaPathsInCatalog(tx.target);
    FitsTarget(w, e, tx);
    AppendedPathIsNew(w, tx.original, tx.target);
    PinnedPaths(w, tx.target, FullFiles(e.files, tx));
    hide TxFits, CatalogOK, Pinned, FullFiles, SchemaPaths, CatalogPaths, IsScanned;
  }

  lemma FitsTarget(w: World, e: Disk, tx: Tx)
    requires TxFits(w, e, tx)
    ensures CatalogOK(w, tx.target) && Pinned(w, tx.target, FullFiles(e.files, tx))
  {
  }

  /** Right after the old catalog is back and before anything is removed, the tree is never valid. */
  lemma LateUnlinkThenKillIsInvalid(w: World, request: Request, e: Disk, tx: Tx, s: State)
    requires TxFits(w, e, tx) && AboutToClear(e, tx, s)
    requires |tx.original.schemas| < |tx.target.schemas| && tx.original.schemas <= tx.target.schemas
    ensures !RegistryOK(w, Run(w, request, s, [Late] + Oks(1)).disk)
  {
    hide AboutToClear, FullFiles, RegistryOK, Run, TxFits, IsScanned, SchemaPaths, Next, Oks, Placed, FilesWith;
    var p := NewSchemaIsScanned(w, e, tx);
    FitsShape(w, e, tx);
    LateUnlinkThenRestore(w, request, e, tx, s);
    RunAfterLate(w, request, s, 0);
    RunOks(w, request, Next(w, request, Next(w, request, s, Late), Ok), 0);
    UnmarkedOrphanRefused(w, Run(w, request, s, [Late] + Oks(1)).disk, p);
  }

  lemma UnmarkedOrphanRefused(w: World, d: Disk, p: Path)
    requires d.marker.None? && p in d.files && IsScanned(p) && p !in SchemaPaths(d.catalog)
    ensures !RegistryOK(w, d)
  {
  }

  /** From an invalid tree without a marker no registration, of anything, ever does anything again. */
  lemma {:induction false} InvalidTreeStaysStuck(w: World, request: Request, d: Disk, script: seq<Event>)
    requires !RegistryOK(w, d) && d.marker.None?
    ensures var s := Run(w, request, Attempt(d), script);
            s.disk == d && s.phase in {Recovering, Preparing, Ended(Rejected)}
  {
    InvalidTreePhases(w, request, State(d, Recovering), script);
  }

  lemma InvalidTreeStep(w: World, request: Request, s: State, ev: Event)
    requires !RegistryOK(w, s.disk) && s.disk.marker.None? && s.phase in {Recovering, Preparing, Ended(Rejected)}
    ensures var t := Next(w, request, s, ev);
            t.disk == s.disk && t.phase in {Recovering, Preparing, Ended(Rejected)}
  {
    hide RegistryOK, MakePlan, Next;
    InvalidTreeRefuses(w, request, s.disk);
    OpeningDispatch(w, request, s.disk, ev);
    EndedStays(w, request, s, ev);
  }

  lemma EndedStays(w: World, request: Request, s: State, ev: Event)
    ensures s.phase.Ended? ==> Next(w, request, s, ev) == s
  {
    hide RecoverStep, PrepareStep, StageStep, MarkStep, InstallStep, CommitStep, ValidateStep, ClearStep, RestoreStep,
         RemoveStep, UnmarkStep;
  }

  lemma {:induction false} InvalidTreePhases(w: World, request: Request, s: State, script: seq<Event>)
    requires !RegistryOK(w, s.disk) && s.disk.marker.None?
    requires s.phase in {Recovering, Preparing, Ended(Rejected)}
    ensures var t := Run(w, request, s, script);
            t.disk == s.disk && t.phase in {Recovering, Preparing, Ended(Rejected)}
    decreases |script|
  {
    hide RegistryOK, Next;
    if script != [] {
      var t := Next(w, request, s, script[0]);
      InvalidTreeStep(w, request, s, script[0]);
      InvalidTreePhases(w, request, t, script[1..]);
    }
  }

  lemma InvalidTreeRefuses(w: World, request: Request, d: Disk)
    requires !RegistryOK(w, d)
    ensures MakePlan(w, d, request) == Refuse
  {
  }
}
