/** Safety of whole publication runs: all or nothing, closure and coverage at every step. */
module PublicationRuns {
  import opened Text
  import opened Catalogs
  import opened Registry
  import opened Planning
  import opened Transactions
  import opened Publication
  import opened CrashSafety

  /** The entry files plus the transaction's artifacts at the given paths. */
  function FilesWith(e: Disk, tx: Tx, paths: set<Path>): (r: Files)
  {
    e.files + Restrict(Contents(tx.artifacts), paths)
  }

  function SetOf(s: seq<Path>): (r: set<Path>) { set p | p in s }

  /** `installed_here` lists distinct artifact paths that were absent on entry. */
  ghost predicate Placed(e: Disk, tx: Tx, installed: seq<Path>)
  {
    && (forall k | 0 <= k < |installed| :: installed[k] in ArtifactPaths(tx.artifacts) && installed[k] !in e.files)
    && (forall k, l | 0 <= k < l < |installed| :: installed[k] != installed[l])
  }

  /** The loop has dealt with the first `i` artifacts and no other. */
  ghost predicate Progress(e: Disk, tx: Tx, installed: seq<Path>, i: nat)
  {
    && i <= |tx.artifacts|
    && Placed(e, tx, installed)
    && (forall k | 0 <= k < i :: tx.artifacts[k].path in e.files || tx.artifacts[k].path in installed)
    && (forall p | p in installed :: exists k :: 0 <= k < i && tx.artifacts[k].path == p)
  }

  ghost predicate JobAt(j: Job, e: Disk, tx: Tx, i: nat, committed: bool)
  {
    j.tx == tx && j.entry == e && j.committed == committed && Progress(e, tx, j.installed, i)
  }

  /** The marker while rolling back: ours, or untouched because nothing was done yet. */
  ghost predicate RollbackMarker(e: Disk, tx: Tx, j: Job, m: Option<Marker>)
  {
    || (m == Some(tx.marker) && EntryMarked(e, tx))
    || (m == e.marker && j.installed == [] && !j.committed)
  }

  ghost predicate RolledBackTo(e: Disk, tx: Tx, d: Disk)
  {
    && d.catalog == e.catalog
    && d.files == e.files
    && (if Unpublished(e, tx) then d.marker == e.marker || (d.marker == Some(tx.marker) && EntryMarked(e, tx))
        else d.marker.None?)
  }

  /** The invariant of a publication of `tx` that started on `e`. */
  ghost predicate PubInv(e: Disk, tx: Tx, s: State)
  {
    var d := s.disk;
    var n := |tx.artifacts|;
    match s.phase
    case Staging(j) => j == Job(tx, e, [], false) && d == e
    case Marking(j) => j == Job(tx, e, [], false) && d == e
    case Installing(j, i) =>
      && JobAt(j, e, tx, i, false) && EntryMarked(e, tx)
      && d == Disk(tx.original, FilesWith(e, tx, SetOf(j.installed)), Some(tx.marker))
    case Committing(j) =>
      && JobAt(j, e, tx, n, false) && EntryMarked(e, tx)
      && d == Disk(tx.original, FullFiles(e.files, tx), Some(tx.marker))
    case Validating(j) => JobAt(j, e, tx, n, true) && CommittedTo(e, tx, d)
    case Clearing(j) => JobAt(j, e, tx, n, true) && CommittedTo(e, tx, d)
    case RestoringCatalog(j) => JobAt(j, e, tx, n, true) && CommittedTo(e, tx, d)
    case Removing(j, k) =>
      && j.tx == tx && j.entry == e && Placed(e, tx, j.installed) && k <= |j.installed|
      && d.catalog == tx.original && d.files == FilesWith(e, tx, SetOf(j.installed[..k]))
      && RollbackMarker(e, tx, j, d.marker)
    case Unmarking(j) =>
      && j.tx == tx && j.entry == e
      && d.catalog == tx.original && d.files == e.files
      && RollbackMarker(e, tx, j, d.marker)
    case Ended(outcome) =>
      (match outcome
       case Registered => d == PublishedDisk(e, tx) && EntryMarked(e, tx)
       case RolledBack => RolledBackTo(e, tx, d)
       case Broken => InFlight(e, tx, d)
       case _ => false)
    case _ => false
  }

  ghost predicate CommittedTo(e: Disk, tx: Tx, d: Disk)
  {
    d == Disk(tx.target, FullFiles(e.files, tx), Some(tx.marker)) && EntryMarked(e, tx)
  }

  /** Excludes the one failure that can lose the marker: the final unlink failing after its effect. */
  predicate Admissible(ph: Phase, ev: Event) { !(ph.Clearing? && ev.Late?) }

  /** The part of `TxFits` that the file bookkeeping needs. */
  ghost predicate TxShape(e: Disk, tx: Tx)
  {
    tx.original == e.catalog && DistinctPaths(tx.artifacts) && Compatible(e.files, tx.artifacts)
  }

  // ---------------------------------------------------------------- files

  lemma WithNone(e: Disk, tx: Tx)
    ensures FilesWith(e, tx, {}) == e.files
  {
  }

  lemma WithBetween(w: World, e: Disk, tx: Tx, paths: set<Path>)
    requires DistinctPaths(tx.artifacts) && Compatible(e.files, tx.artifacts)
    ensures Between(e.files, FilesWith(e, tx, paths), FullFiles(e.files, tx))
  {
    FullKeepsEntry(w, e, tx);
  }

  lemma WithAll(w: World, e: Disk, tx: Tx, installed: seq<Path>)
    requires DistinctPaths(tx.artifacts) && Compatible(e.files, tx.artifacts)
    requires Progress(e, tx, installed, |tx.artifacts|)
    ensures FilesWith(e, tx, SetOf(installed)) == FullFiles(e.files, tx)
  {
    AllPlaced(e, tx, installed);
    hide Progress, Contents, DistinctPaths, Compatible;
    FullKeepsEntry(w, e, tx);
  }

  lemma AllPlaced(e: Disk, tx: Tx, installed: seq<Path>)
    requires Progress(e, tx, installed, |tx.artifacts|)
    ensures forall p | p in ArtifactPaths(tx.artifacts) :: p in e.files || p in SetOf(installed)
  {
    forall p | p in ArtifactPaths(tx.artifacts)
      ensures p in e.files || p in SetOf(installed)
    {
      var a :| a in tx.artifacts && a.path == p;
      var k :| 0 <= k < |tx.artifacts| && tx.artifacts[k] == a;
    }
  }

  lemma ProgressInstalled(e: Disk, tx: Tx, installed: seq<Path>, i: nat)
    requires DistinctPaths(tx.artifacts) && i < |tx.artifacts|
    requires Progress(e, tx, installed, i) && tx.artifacts[i].path !in e.files
    ensures Progress(e, tx, installed + [tx.artifacts[i].path], i + 1)
  {
    var a := tx.artifacts[i];
    var more := installed + [a.path];
    assert a in tx.artifacts;
    forall p | p in more
      ensures exists k :: 0 <= k < i + 1 && tx.artifacts[k].path == p
    {
      if p in installed {
        var k :| 0 <= k < i && tx.artifacts[k].path == p;
      } else {
        assert tx.artifacts[i].path == p;
      }
    }
    assert a.path !in installed;
  }

  lemma RestrictAdd(low: Files, more: Files, paths: set<Path>, p: Path)
    requires p in more
    ensures low + Restrict(more, paths + {p}) == (low + Restrict(more, paths))[p := more[p]]
  {
  }

  lemma WithInstalled(e: Disk, tx: Tx, installed: seq<Path>, a: Artifact)
    requires DistinctPaths(tx.artifacts) && a in tx.artifacts
    ensures FilesWith(e, tx, SetOf(installed + [a.path])) == FilesWith(e, tx, SetOf(installed))[a.path := a.contents]
  {
    ContentsAt(tx.artifacts, a);
    assert SetOf(installed + [a.path]) == SetOf(installed) + {a.path};
    RestrictAdd(e.files, Contents(tx.artifacts), SetOf(installed), a.path);
  }

  lemma WithRemoved(e: Disk, tx: Tx, installed: seq<Path>, k: nat)
    requires 0 < k <= |installed| && Placed(e, tx, installed)
    ensures Without(FilesWith(e, tx, SetOf(installed[..k])), installed[k - 1])
         == FilesWith(e, tx, SetOf(installed[..k - 1]))
  {
    hide Contents, ArtifactPaths;
    var p := installed[k - 1];
    LastPlaced(installed, k);
    RestrictRemove(e.files, Contents(tx.artifacts), SetOf(installed[..k - 1]), p);
  }

  lemma LastPlaced(installed: seq<Path>, k: nat)
    requires 0 < k <= |installed|
    requires forall i, j | 0 <= i < j < |installed| :: installed[i] != installed[j]
    ensures SetOf(installed[..k]) == SetOf(installed[..k - 1]) + {installed[k - 1]}
    ensures installed[k - 1] !in SetOf(installed[..k - 1])
  {
    assert installed[..k] == installed[..k - 1] + [installed[k - 1]];
  }

  lemma RestrictRemove(low: Files, more: Files, paths: set<Path>, p: Path)
    requires p !in low && p !in paths
    ensures Without(low + Restrict(more, paths + {p}), p) == low + Restrict(more, paths)
  {
  }

  // ---------------------------------------------------------------- one step

  lemma StartUndo(e: Disk, tx: Tx, d: Disk, j: Job)
    requires j.tx == tx && j.entry == e && !j.committed && Placed(e, tx, j.installed)
    requires d.catalog == tx.original && d.files == FilesWith(e, tx, SetOf(j.installed))
    requires RollbackMarker(e, tx, j, d.marker)
    ensures PubInv(e, tx, State(d, Undo(j)))
  {
    assert j.installed[..|j.installed|] == j.installed;
  }

  lemma MarkKeeps(w: World, e: Disk, tx: Tx, d: Disk, j: Job, ev: Event)
    requires TxShape(e, tx) && PubInv(e, tx, State(d, Marking(j)))
    ensures PubInv(e, tx, MarkStep(d, j, ev))
  {
  }

  lemma SkipKeeps(e: Disk, tx: Tx, installed: seq<Path>, i: nat)
    requires i < |tx.artifacts| && Progress(e, tx, installed, i) && tx.artifacts[i].path in e.files
    ensures Progress(e, tx, installed, i + 1)
  {
  }

  lemma InstallOne(e: Disk, tx: Tx, d: Disk, j: Job, i: nat)
    requires TxShape(e, tx) && PubInv(e, tx, State(d, Installing(j, i)))
    requires i < |tx.artifacts| && tx.artifacts[i].path !in e.files
    ensures var a := tx.artifacts[i];
            var job := j.(installed := j.installed + [a.path]);
            var t := d.(files := d.files[a.path := a.contents]);
            PubInv(e, tx, State(t, Installing(job, i + 1))) && PubInv(e, tx, State(t, Undo(job)))
  {
    hide PubInv, Progress, Placed, FilesWith, SetOf, DistinctPaths, Undo;
    var a := tx.artifacts[i];
    InstallShape(e, tx, d, j, i);
    InstallingParts(e, tx, d, j, i);
    var job, t := j.(installed := j.installed + [a.path]), d.(files := d.files[a.path := a.contents]);
    ProgressInstalled(e, tx, j.installed, i);
    WithInstalled(e, tx, j.installed, a);
    StartUndoPlaced(e, tx, job.installed, i + 1);
    InstallingInv(e, tx, t, job, i + 1);
    StartUndo(e, tx, t, job);
  }

  lemma InstallingParts(e: Disk, tx: Tx, d: Disk, j: Job, i: nat)
    requires PubInv(e, tx, State(d, Installing(j, i)))
    ensures JobAt(j, e, tx, i, false) && EntryMarked(e, tx)
    ensures d == Disk(tx.original, FilesWith(e, tx, SetOf(j.installed)), Some(tx.marker))
  {
    hide FilesWith, Progress, SetOf, EntryMarked;
  }

  lemma InstallingInv(e: Disk, tx: Tx, d: Disk, j: Job, i: nat)
    requires JobAt(j, e, tx, i, false) && EntryMarked(e, tx)
    requires d == Disk(tx.original, FilesWith(e, tx, SetOf(j.installed)), Some(tx.marker))
    ensures PubInv(e, tx, State(d, Installing(j, i)))
  {
    hide FilesWith, Progress, SetOf, EntryMarked;
  }

  lemma StartUndoPlaced(e: Disk, tx: Tx, installed: seq<Path>, i: nat)
    requires Progress(e, tx, installed, i)
    ensures Placed(e, tx, installed)
  {
  }

  lemma InstallKeeps(w: World, e: Disk, tx: Tx, d: Disk, j: Job, i: nat, ev: Event)
    requires TxShape(e, tx) && PubInv(e, tx, State(d, Installing(j, i)))
    ensures PubInv(e, tx, InstallStep(d, j, i, ev))
  {
    hide FilesWith, Placed, TxShape;
    InstallShape(e, tx, d, j, i);
    if i >= |tx.artifacts| {
      WithAll(w, e, tx, j.installed);
    } else if tx.artifacts[i].path in e.files {
      SkipKeeps(e, tx, j.installed, i);
    } else {
      InstallOne(e, tx, d, j, i);
      StartUndoPlaced(e, tx, j.installed, i);
      StartUndo(e, tx, d, j);
    }
  }

  lemma InstallShape(e: Disk, tx: Tx, d: Disk, j: Job, i: nat)
    requires TxShape(e, tx) && PubInv(e, tx, State(d, Installing(j, i)))
    ensures DistinctPaths(tx.artifacts) && Compatible(e.files, tx.artifacts) && tx.original == e.catalog
    ensures j.tx == tx && j.entry == e && i <= |tx.artifacts|
  {
  }

  lemma CommitKeeps(w: World, e: Disk, tx: Tx, d: Disk, j: Job, ev: Event)
    requires TxShape(e, tx) && PubInv(e, tx, State(d, Committing(j)))
    ensures PubInv(e, tx, CommitStep(d, j, ev))
  {
    if ev.Fail? {
      WithAll(w, e, tx, j.installed);
      StartUndo(e, tx, d, j);
    }
  }

  /** Once the catalog is in place its validation cannot fail by itself: the snapshot already passed it. */
  lemma CommittedValidates(w: World, e: Disk, tx: Tx, d: Disk)
    requires TxFits(w, e, tx) && CommittedTo(e, tx, d)
    ensures RegistryOK(w, d) && (tx.graph ==> GraphRuns(w, d.catalog, d.files))
  {
    CommittedTreeOK(w, e, tx, d);
  }

  lemma RemovedOne(w: World, e: Disk, tx: Tx, d: Disk, j: Job, k: nat)
    requires TxShape(e, tx) && PubInv(e, tx, State(d, Removing(j, k))) && k > 0
    ensures PubInv(e, tx, State(d.(files := Without(d.files, j.installed[k - 1])), Removing(j, k - 1)))
  {
    hide PubInv, FilesWith, Placed, Without, SetOf, RollbackMarker, TxShape;
    RemovingParts(e, tx, d, j, k);
    WithRemoved(e, tx, j.installed, k);
    RemovingInv(e, tx, d.(files := Without(d.files, j.installed[k - 1])), j, k - 1);
  }

  lemma RemovingParts(e: Disk, tx: Tx, d: Disk, j: Job, k: nat)
    requires PubInv(e, tx, State(d, Removing(j, k)))
    ensures j.tx == tx && j.entry == e && Placed(e, tx, j.installed) && k <= |j.installed|
    ensures d.catalog == tx.original && d.files == FilesWith(e, tx, SetOf(j.installed[..k]))
    ensures RollbackMarker(e, tx, j, d.marker)
  {
    hide FilesWith, Placed, SetOf, RollbackMarker;
  }

  lemma RemovingInv(e: Disk, tx: Tx, d: Disk, j: Job, k: nat)
    requires j.tx == tx && j.entry == e && Placed(e, tx, j.installed) && k <= |j.installed|
    requires d.catalog == tx.original && d.files == FilesWith(e, tx, SetOf(j.installed[..k]))
    requires RollbackMarker(e, tx, j, d.marker)
    ensures PubInv(e, tx, State(d, Removing(j, k)))
  {
    hide FilesWith, Placed, SetOf, RollbackMarker;
  }

  lemma RemovingInFlight(w: World, e: Disk, tx: Tx, d: Disk, j: Job, k: nat)
    requires TxShape(e, tx) && PubInv(e, tx, State(d, Removing(j, k)))
    ensures InFlight(e, tx, d)
  {
    hide FilesWith, Placed, Between, FullFiles, Unpublished, Progress;
    WithBetween(w, e, tx, SetOf(j.installed[..k]));
    if j.installed == [] {
      assert SetOf(j.installed[..k]) == {};
      WithNone(e, tx);
    }
  }

  lemma RemovingFacts(e: Disk, tx: Tx, d: Disk, j: Job, k: nat)
    requires PubInv(e, tx, State(d, Removing(j, k)))
    ensures k <= |j.installed|
    ensures k == 0 ==> PubInv(e, tx, State(d, Unmarking(j)))
  {
  }

  lemma BrokenInv(e: Disk, tx: Tx, d: Disk)
    requires InFlight(e, tx, d)
    ensures PubInv(e, tx, State(d, Ended(Broken)))
  {
  }

  lemma RemoveKeeps(w: World, e: Disk, tx: Tx, d: Disk, j: Job, k: nat, ev: Event)
    requires TxShape(e, tx) && PubInv(e, tx, State(d, Removing(j, k)))
    ensures PubInv(e, tx, RemoveStep(d, j, k, ev))
  {
    hide PubInv, TxShape, InFlight, Without;
    RemovingFacts(e, tx, d, j, k);
    if k > 0 {
      var t := d.(files := Without(d.files, j.installed[k - 1]));
      RemovedOne(w, e, tx, d, j, k);
      RemovingInFlight(w, e, tx, d, j, k);
      RemovingInFlight(w, e, tx, t, j, k - 1);
      BrokenInv(e, tx, d);
      BrokenInv(e, tx, t);
    }
  }

  lemma RestoringFacts(w: World, e: Disk, tx: Tx, d: Disk, j: Job)
    requires TxShape(e, tx) && PubInv(e, tx, State(d, RestoringCatalog(j)))
    ensures j.tx == tx && InFlight(e, tx, d) && InFlight(e, tx, d.(catalog := tx.original))
    ensures PubInv(e, tx, State(d.(catalog := tx.original), Removing(j, |j.installed|)))
  {
    RestoringInFlight(w, e, tx, d, j);
    RestoringParts(e, tx, d, j);
    WithAll(w, e, tx, j.installed);
    hide InFlight, PubInv, FilesWith, FullFiles, Progress, Placed, TxShape, Between, Unpublished, EntryMarked, SetOf,
         Compatible, DistinctPaths;
    assert j.installed[..|j.installed|] == j.installed;
    RemovingInv(e, tx, d.(catalog := tx.original), j, |j.installed|);
  }

  lemma RestoringInFlight(w: World, e: Disk, tx: Tx, d: Disk, j: Job)
    requires TxShape(e, tx) && PubInv(e, tx, State(d, RestoringCatalog(j)))
    ensures InFlight(e, tx, d) && InFlight(e, tx, d.(catalog := tx.original))
  {
    RestoringParts(e, tx, d, j);
    hide PubInv, FilesWith, FullFiles, Progress, Placed, TxShape, Between, Unpublished, EntryMarked;
    FullInFlight(w, e, tx, d.(catalog := tx.original));
  }

  lemma RestoringParts(e: Disk, tx: Tx, d: Disk, j: Job)
    requires TxShape(e, tx) && PubInv(e, tx, State(d, RestoringCatalog(j)))
    ensures j.tx == tx && j.entry == e && Placed(e, tx, j.installed) && Progress(e, tx, j.installed, |tx.artifacts|)
    ensures d == Disk(tx.target, FullFiles(e.files, tx), Some(tx.marker)) && EntryMarked(e, tx)
    ensures DistinctPaths(tx.artifacts) && Compatible(e.files, tx.artifacts) && tx.original == e.catalog
  {
    hide FilesWith, FullFiles, Placed, DistinctPaths, Compatible;
  }

  lemma RestoreKeeps(w: World, e: Disk, tx: Tx, d: Disk, j: Job, ev: Event)
    requires TxShape(e, tx) && PubInv(e, tx, State(d, RestoringCatalog(j)))
    ensures PubInv(e, tx, RestoreStep(d, j, ev))
  {
    hide PubInv, TxShape, InFlight;
    RestoringFacts(w, e, tx, d, j);
    BrokenInv(e, tx, d);
    BrokenInv(e, tx, d.(catalog := tx.original));
  }

  lemma UnmarkingInFlight(w: World, e: Disk, tx: Tx, d: Disk, j: Job)
    requires TxShape(e, tx) && PubInv(e, tx, State(d, Unmarking(j)))
    ensures InFlight(e, tx, d)
  {
    FullKeepsEntry(w, e, tx);
  }

  lemma UnmarkedInFlight(e: Disk, tx: Tx, d: Disk, j: Job)
    requires TxShape(e, tx) && PubInv(e, tx, State(d, Unmarking(j)))
    ensures HasUnpublished(d, tx.artifacts, CatalogPaths(e.catalog)) == Unpublished(e, tx)
    ensures Unpublished(e, tx) ==> RolledBackTo(e, tx, d)
    ensures !Unpublished(e, tx) ==> RolledBackTo(e, tx, d.(marker := None)) && InFlight(e, tx, d.(marker := None))
    ensures j.tx == tx && j.entry == e
  {
  }

  lemma RolledBackInv(e: Disk, tx: Tx, d: Disk)
    requires RolledBackTo(e, tx, d)
    ensures PubInv(e, tx, State(d, Ended(RolledBack)))
  {
  }

  lemma UnmarkKeeps(w: World, e: Disk, tx: Tx, d: Disk, j: Job, ev: Event)
    requires TxShape(e, tx) && PubInv(e, tx, State(d, Unmarking(j)))
    ensures PubInv(e, tx, UnmarkStep(d, j, ev))
  {
    hide PubInv, TxShape, InFlight, RolledBackTo, HasUnpublished, Unpublished;
    UnmarkingInFlight(w, e, tx, d, j);
    UnmarkedInFlight(e, tx, d, j);
    BrokenInv(e, tx, d);
    if Unpublished(e, tx) {
      RolledBackInv(e, tx, d);
    } else {
      BrokenInv(e, tx, d.(marker := None));
      RolledBackInv(e, tx, d.(marker := None));
    }
  }

  lemma StageKeeps(w: World, e: Disk, tx: Tx, d: Disk, j: Job, ev: Event)
    requires TxShape(e, tx) && PubInv(e, tx, State(d, Staging(j)))
    ensures PubInv(e, tx, StageStep(d, j, ev))
  {
  }

  lemma ValidateKeeps(w: World, e: Disk, tx: Tx, d: Disk, j: Job, ev: Event)
    requires TxFits(w, e, tx) && PubInv(e, tx, State(d, Validating(j)))
    ensures PubInv(e, tx, ValidateStep(w, d, j, ev))
  {
    hide RegistryOK, TreeOK, TxFits;
    CommittedValidates(w, e, tx, d);
  }

  lemma ClearKeeps(e: Disk, tx: Tx, d: Disk, j: Job, ev: Event)
    requires PubInv(e, tx, State(d, Clearing(j))) && !ev.Late?
    ensures PubInv(e, tx, ClearStep(d, j, ev))
  {
  }

  lemma FitsShape(w: World, e: Disk, tx: Tx)
    requires TxFits(w, e, tx)
    ensures TxShape(e, tx)
  {
  }

  lemma PubPhases(e: Disk, tx: Tx, s: State)
    requires PubInv(e, tx, s)
    ensures !s.phase.Waiting? && !s.phase.Recovering? && !s.phase.Preparing?
  {
  }

  lemma PubStep(w: World, request: Request, e: Disk, tx: Tx, s: State, ev: Event)
    requires TxFits(w, e, tx) && PubInv(e, tx, s) && Admissible(s.phase, ev)
    ensures PubInv(e, tx, Next(w, request, s, ev))
  {
    hide PubInv, TxFits, TxShape, StageStep, MarkStep, InstallStep, CommitStep, ValidateStep, ClearStep, RestoreStep,
         RemoveStep, UnmarkStep, RecoverStep, PrepareStep;
    FitsShape(w, e, tx);
    PubPhases(e, tx, s);
    var d := s.disk;
    match s.phase
    case Staging(j) => StageKeeps(w, e, tx, d, j, ev);
    case Marking(j) => MarkKeeps(w, e, tx, d, j, ev);
    case Installing(j, i) => InstallKeeps(w, e, tx, d, j, i, ev);
    case Committing(j) => CommitKeeps(w, e, tx, d, j, ev);
    case Validating(j) => ValidateKeeps(w, e, tx, d, j, ev);
    case Clearing(j) => ClearKeeps(e, tx, d, j, ev);
    case RestoringCatalog(j) => RestoreKeeps(w, e, tx, d, j, ev);
    case Removing(j, k) => RemoveKeeps(w, e, tx, d, j, k, ev);
    case Unmarking(j) => UnmarkKeeps(w, e, tx, d, j, ev);
    case _ =>
  }

  lemma FullInFlight(w: World, e: Disk, tx: Tx, d: Disk)
    requires TxShape(e, tx) && EntryMarked(e, tx) && d == Disk(tx.original, FullFiles(e.files, tx), Some(tx.marker))
    ensures InFlight(e, tx, d)
  {
    FullKeepsEntry(w, e, tx);
  }

  lemma EndedInFlight(e: Disk, tx: Tx, d: Disk)
    requires RolledBackTo(e, tx, d) && tx.original == e.catalog
    requires Between(e.files, e.files, FullFiles(e.files, tx))
    ensures InFlight(e, tx, d)
  {
  }

  lemma InstallingInFlight(w: World, e: Disk, tx: Tx, d: Disk, j: Job, i: nat)
    requires TxShape(e, tx) && PubInv(e, tx, State(d, Installing(j, i)))
    ensures InFlight(e, tx, d)
  {
    hide PubInv, Between, Unpublished, FilesWith, FullFiles, SetOf, JobAt;
    InstallingParts(e, tx, d, j, i);
    WithBetween(w, e, tx, SetOf(j.installed));
  }

  /** The phases whose tree is the entry tree or one with every artifact in place, and the ends. */
  lemma OthersInFlight(w: World, e: Disk, tx: Tx, s: State)
    requires TxShape(e, tx) && PubInv(e, tx, s)
    requires !s.phase.Installing? && !s.phase.Removing? && !s.phase.Unmarking? && s.phase != Ended(RolledBack)
    ensures InFlight(e, tx, s.disk)
  {
    hide Between, Unpublished, Progress, Placed, FullFiles, DistinctPaths, Compatible;
    if s.phase.Committing? {
      FullInFlight(w, e, tx, s.disk);
    }
  }

  lemma RolledBackInFlight(w: World, e: Disk, tx: Tx, d: Disk)
    requires TxShape(e, tx) && RolledBackTo(e, tx, d)
    ensures InFlight(e, tx, d)
  {
    hide Between, Unpublished, FilesWith, FullFiles, RolledBackTo;
    WithBetween(w, e, tx, {});
    WithNone(e, tx);
    EndedInFlight(e, tx, d);
  }

  lemma PubInFlight(w: World, e: Disk, tx: Tx, s: State)
    requires TxFits(w, e, tx) && PubInv(e, tx, s)
    ensures InFlight(e, tx, s.disk)
  {
    hide TxFits, TxShape, PubInv, InFlight, RolledBackTo;
    FitsShape(w, e, tx);
    if s.phase.Installing? {
      InstallingInFlight(w, e, tx, s.disk, s.phase.job, s.phase.next);
    } else if s.phase.Removing? {
      RemovingInFlight(w, e, tx, s.disk, s.phase.job, s.phase.left);
    } else if s.phase.Unmarking? {
      UnmarkingInFlight(w, e, tx, s.disk, s.phase.job);
    } else if s.phase == Ended(RolledBack) {
      EndedFacts(e, tx, s);
      RolledBackInFlight(w, e, tx, s.disk);
    } else {
      OthersInFlight(w, e, tx, s);
    }
  }

  // ---------------------------------------------------------------- whole runs

  function Begun(e: Disk, tx: Tx): (s: State) { State(e, Staging(Job(tx, e, [], false))) }

  /** No prefix of the script makes the final unlink fail after its effect. */
  ghost predicate AdmissibleRun(w: World, request: Request, s: State, script: seq<Event>)
    decreases |script|
  {
    script != [] ==>
      Admissible(s.phase, script[0]) && AdmissibleRun(w, request, Next(w, request, s, script[0]), script[1..])
  }

  lemma BegunInv(e: Disk, tx: Tx)
    ensures PubInv(e, tx, Begun(e, tx))
  {
  }

  lemma {:induction false} PubRun(w: World, request: Request, e: Disk, tx: Tx, s: State, script: seq<Event>)
    requires TxFits(w, e, tx) && PubInv(e, tx, s) && AdmissibleRun(w, request, s, script)
    ensures PubInv(e, tx, Run(w, request, s, script))
    decreases |script|
  {
    hide PubInv, TxFits, Next;
    if script != [] {
      PubStep(w, request, e, tx, s, script[0]);
      PubRun(w, request, e, tx, Next(w, request, s, script[0]), script[1..]);
    }
  }

  /**
   * Closure at every crash point: stop a publication after any number of steps, forward or in
   * rollback, and every path the catalog on disk names exists with its pinned bytes.
   */
  lemma CrashLeavesValidRegistry(w: World, request: Request, e: Disk, tx: Tx, script: seq<Event>)
    requires TxFits(w, e, tx) && AdmissibleRun(w, request, Begun(e, tx), script)
    ensures var d := Run(w, request, Begun(e, tx), script).disk;
            RegistryOK(w, d) && Pinned(w, d.catalog, d.files)
  {
    hide PubInv, TxFits, InFlight, Next;
    BegunInv(e, tx);
    PubRun(w, request, e, tx, Begun(e, tx), script);
    PubInFlight(w, e, tx, Run(w, request, Begun(e, tx), script));
    InFlightTreeOK(w, e, tx, Run(w, request, Begun(e, tx), script).disk);
  }

  /** Orphan coverage at every crash point of a publication begun outside the hazard. */
  lemma CrashLeavesOrphansCovered(w: World, request: Request, e: Disk, tx: Tx, script: seq<Event>)
    requires TxFits(w, e, tx) && AdmissibleRun(w, request, Begun(e, tx), script)
    requires Covered(w, e) && !Hazard(e, tx)
    ensures Covered(w, Run(w, request, Begun(e, tx), script).disk)
  {
    hide TxFits, Covered, InFlight, Next;
    BegunInv(e, tx);
    PubRun(w, request, e, tx, Begun(e, tx), script);
    PubInFlight(w, e, tx, Run(w, request, Begun(e, tx), script));
    InFlightCovered(w, e, tx, Run(w, request, Begun(e, tx), script).disk);
  }

  lemma EndedFacts(e: Disk, tx: Tx, s: State)
    requires PubInv(e, tx, s)
    ensures s.phase == Ended(Registered) ==> s.disk == PublishedDisk(e, tx)
    ensures s.phase == Ended(RolledBack) ==> RolledBackTo(e, tx, s.disk)
  {
  }

  /** One of the transaction's own artifacts is an orphan on entry, and no marker covers it. */
  ghost predicate OwnOrphanUncovered(e: Disk, tx: Tx) { e.marker.None? && Unpublished(e, tx) }

  /** What a finished rollback does to the marker: three cases, by the tree it was begun on. */
  ghost predicate Restored(e: Disk, tx: Tx, d: Disk)
  {
    if Hazard(e, tx) then d == e.(marker := None)
    else if OwnOrphanUncovered(e, tx) then d == e || d == e.(marker := Some(tx.marker))
    else d == e
  }

  lemma RestoredExactly(w: World, e: Disk, tx: Tx, d: Disk)
    requires MarkerMatches(w, tx) && Recovered(w, e) && RolledBackTo(e, tx, d)
    ensures Restored(e, tx, d)
  {
    hide MarkerMatches, HasUnpublished;
    if e.marker == Some(tx.marker) {
      OwnMarkerMeansUnpublished(w, e, tx);
    }
  }

  lemma CoveredHasNoBareOrphan(w: World, e: Disk, tx: Tx)
    requires Covered(w, e) && tx.original == e.catalog
    ensures !OwnOrphanUncovered(e, tx)
  {
    forall a | a in tx.artifacts && a.path !in CatalogPaths(e.catalog) && a.path in e.files
      ensures e.marker.Some?
    {
      assert IsOrphan(e, a.path);
    }
  }

  /**
   * All or nothing: a publication that reports success has exactly the new catalog, the old files
   * plus every artifact and no marker; one that failed and finished its rollback has restored the
   * catalog and the files. It has restored the marker too, except in the hazard, where it deletes
   * another transaction's, and on an entry without a marker where one of its own artifacts was
   * already an orphan, where it may leave its own. A covered entry excludes the second exception.
   */
  lemma AllOrNothing(w: World, request: Request, e: Disk, tx: Tx, script: seq<Event>)
    requires TxFits(w, e, tx) && AdmissibleRun(w, request, Begun(e, tx), script)
    ensures var s := Run(w, request, Begun(e, tx), script);
            && (s.phase == Ended(Registered) ==> s.disk == PublishedDisk(e, tx))
            && (s.phase == Ended(RolledBack) ==> Restored(e, tx, s.disk))
    ensures Covered(w, e) ==> !OwnOrphanUncovered(e, tx)
  {
    var s := Run(w, request, Begun(e, tx), script);
    hide RegistryOK, TreeOK, Run, Covered, Recovered, MarkerMatches, PubInv, Restored, OwnOrphanUncovered;
    BegunInv(e, tx);
    PubRun(w, request, e, tx, Begun(e, tx), script);
    EndedFacts(e, tx, s);
    if s.phase == Ended(RolledBack) {
      RestoredExactly(w, e, tx, s.disk);
    }
    if Covered(w, e) {
      CoveredHasNoBareOrphan(w, e, tx);
    }
  }

  /** In the hazard every rolled-back run deletes the other transaction's marker and uncovers its orphan. */
  lemma HazardUncovers(w: World, request: Request, e: Disk, tx: Tx, script: seq<Event>)
    requires TxFits(w, e, tx) && AdmissibleRun(w, request, Begun(e, tx), script) && Covered(w, e)
    requires Run(w, request, Begun(e, tx), script).phase == Ended(RolledBack)
    ensures Covered(w, Run(w, request, Begun(e, tx), script).disk) <==> !Hazard(e, tx)
  {
    hide RegistryOK, TreeOK, Next, Run, OwnOrphanUncovered, Unpublished, CatalogPaths;
    var s := Run(w, request, Begun(e, tx), script);
    AllOrNothing(w, request, e, tx, script);
    if Hazard(e, tx) {
      var p :| p in MarkerPaths(e.marker.value) && IsOrphan(e, p);
      assert s.disk.marker.None? && IsOrphan(s.disk, p);
    }
  }

  /** The snapshot admits a scanned orphan only as one of the transaction's own artifacts. */
  lemma ScannedOrphanIsOwn(w: World, e: Disk, tx: Tx, p: Path)
    requires TxFits(w, e, tx) && IsOrphan(e, p) && IsScanned(p)
    ensures Unpublished(e, tx)
  {
    assert Pending(w, PublishedDisk(e, tx)) == {};
    assert p in PublishedDisk(e, tx).files;
    assert p in SchemaPaths(tx.target);
    SchemaPathsInCatalog(tx.original);
    var a :| a in tx.artifacts && a.path == p;
  }

  /**
   * The hazard needs an orphan the closure scan does not see: with only `*.schema.json` orphans the
   * snapshot would have refused every other transaction.
   */
  lemma HazardNeedsUnscannedOrphan(w: World, e: Disk, tx: Tx)
    requires TxFits(w, e, tx) && Hazard(e, tx)
    ensures exists p :: p in MarkerPaths(e.marker.value) && IsOrphan(e, p) && !IsScanned(p)
  {
    var p :| p in MarkerPaths(e.marker.value) && IsOrphan(e, p);
    if IsScanned(p) {
      ScannedOrphanIsOwn(w, e, tx, p);
    }
  }
}
