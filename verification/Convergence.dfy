/** Interrupted registrations, retried: every retry of the same request converges. */
module Convergence {
  import opened Text
  import opened Catalogs
  import opened Registry
  import opened Planning
  import opened Transactions
  import opened Publication
  import opened CrashSafety
  import opened PublicationRuns
  import opened Replanning

  function JobOf(ph: Phase): (r: Option<Job>)
  {
    match ph
    case Staging(j) => Some(j)
    case Marking(j) => Some(j)
    case Installing(j, _) => Some(j)
    case Committing(j) => Some(j)
    case Validating(j) => Some(j)
    case Clearing(j) => Some(j)
    case RestoringCatalog(j) => Some(j)
    case Removing(j, _) => Some(j)
    case Unmarking(j) => Some(j)
    case _ => None
  }

  // ---------------------------------------------------------------- recovery

  lemma RecoveryWithoutMarkerClosed(w: World, d: Disk)
    requires TreeOK(w, d) && d.marker.Some?
    requires CatalogDigest(w, d.catalog) == d.marker.value.newSha ||
             !(exists p | p in MarkerPaths(d.marker.value) :: IsOrphan(d, p))
    ensures TreeOK(w, d.(marker := None))
  {
  }

  /**
   * Recovery on any valid tree touches nothing but the marker, leaves a valid tree, and once it has
   * succeeded a second recovery changes nothing.
   */
  lemma RecoveryTouchesOnlyTheMarker(w: World, d: Disk, ev: Event, again: Event)
    requires TreeOK(w, d)
    ensures var s := RecoverStep(w, d, ev);
            && s.disk.catalog == d.catalog && s.disk.files == d.files
            && (s.disk.marker == d.marker || s.disk.marker.None?)
            && TreeOK(w, s.disk)
            && (s.phase.Preparing? ==> Recovered(w, s.disk) && RecoverStep(w, s.disk, again) == s)
            && (ev.Ok? ==> s.phase.Preparing?)
  {
    if d.marker.Some? {
      var m := d.marker.value;
      if CatalogDigest(w, d.catalog) == m.newSha || !(exists p | p in MarkerPaths(m) :: IsOrphan(d, p)) {
        RecoveryWithoutMarkerClosed(w, d);
      }
    }
  }

  /** A rest of a publication: what `InFlight` allows, seen from a start without a marker. */
  ghost predicate Leftover(w: World, e: Disk, tx: Tx, d: Disk)
  {
    TxFits(w, e, tx) && e.marker.None? && InFlight(e, tx, d)
  }

  lemma ExtraFilesAreOrphans(w: World, e: Disk, tx: Tx, d: Disk, p: Path)
    requires TxFits(w, e, tx) && d.catalog == tx.original
    requires Between(e.files, d.files, FullFiles(e.files, tx)) && p in d.files && p !in e.files
    ensures p in ArtifactPaths(tx.artifacts) && IsOrphan(d, p)
  {
    PinnedPaths(w, e.catalog, e.files);
  }

  lemma OrphanArtifact(d: Disk, tx: Tx, p: Path)
    requires p in ArtifactPaths(tx.artifacts) && IsOrphan(d, p)
    ensures Unpublished(d, tx)
  {
  }

  lemma RecoveryDecision(w: World, tx: Tx, d: Disk)
    requires TreeOK(w, d) && MarkerMatches(w, tx) && d.marker == Some(tx.marker)
    requires CatalogDigest(w, tx.original) != CatalogDigest(w, tx.target)
    requires d.catalog == tx.original || d.catalog == tx.target
    ensures RecoverStep(w, d, Ok).disk.marker.None? <==>
              d.catalog == tx.target || forall p :: p in ArtifactPaths(tx.artifacts) ==> !IsOrphan(d, p)
  {
    MarkerNamesArtifacts(w, tx);
  }

  /** On every tree an interrupted publication can leave, recovery removes the marker exactly when
      none of the artifacts it names is an orphan. */
  lemma RecoveryRemovesMarkerExactly(w: World, e: Disk, tx: Tx, d: Disk)
    requires Leftover(w, e, tx, d) && Covered(w, e)
    ensures RecoverStep(w, d, Ok).disk.marker.None? <==>
              forall p :: p in ArtifactPaths(tx.artifacts) ==> !IsOrphan(d, p)
  {
    InFlightTreeOK(w, e, tx, d);
    if d.marker.Some? {
      RecoveryDecision(w, tx, d);
    } else {
      assert forall p :: !IsOrphan(e, p);
    }
  }

  // ---------------------------------------------------------------- attempts

  /** A request that would be published from the quiescent tree `e`. */
  ghost predicate Start(w: World, request: Request, e: Disk, tx: Tx)
  {
    && CollisionFree(w)
    && RegistryOK(w, e)
    && e.marker.None?
    && MakePlan(w, e, request) == Publish(tx)
    && Admits(w, e, tx)
  }

  /** The invariant of every attempt at `request`, whatever earlier attempts left behind. */
  ghost predicate AttemptInv(w: World, e: Disk, tx: Tx, s: State)
  {
    && InFlight(e, tx, s.disk)
    && (s.phase.Preparing? ==> Recovered(w, s.disk))
    && (s.phase in {Ended(Registered), Ended(Unchanged)} ==> s.disk == PublishedDisk(e, tx))
    && (JobOf(s.phase).Some? ==>
          var j := JobOf(s.phase).value;
          && j.tx == tx && j.entry.catalog == tx.original && InFlight(e, tx, j.entry)
          && TxFits(w, j.entry, tx) && PubInv(j.entry, tx, s))
  }

  lemma StartFits(w: World, request: Request, e: Disk, tx: Tx)
    requires Start(w, request, e, tx)
    ensures TxFits(w, e, tx)
  {
    QuiescentTreeOK(w, e);
    PlanFits(w, e, request);
  }

  lemma PartialFromInFlight(w: World, e: Disk, tx: Tx, m: Disk)
    requires TxFits(w, e, tx) && e.marker.None? && InFlight(e, tx, m) && m.catalog == tx.original
    ensures Partial(e, tx, m)
    ensures m.marker.None? ==> m.files == e.files
  {
    hide RegistryOK, TreeOK;
    FullKeepsEntry(w, e, tx);
  }

  lemma NothingLeftBehind(w: World, e: Disk, tx: Tx, m: Disk)
    requires TxFits(w, e, tx) && m.catalog == tx.original && !Unpublished(m, tx)
    requires Between(e.files, m.files, FullFiles(e.files, tx))
    ensures m.files == e.files && !Unpublished(e, tx)
  {
    hide RegistryOK, TreeOK;
    forall p | p in m.files
      ensures p in e.files
    {
      if p !in e.files {
        ExtraFilesAreOrphans(w, e, tx, m, p);
        OrphanArtifact(m, tx, p);
      }
    }
  }

  lemma BetweenComposes(low: Files, mid: Files, files: Files, high: Files)
    requires Between(low, mid, high) && Between(mid, files, high)
    ensures Between(low, files, high)
  {
  }

  /** What an attempt leaves from leftovers is again a leftover of the same publication. */
  lemma InFlightComposes(w: World, e: Disk, tx: Tx, m: Disk, d: Disk)
    requires TxFits(w, e, tx) && e.marker.None?
    requires InFlight(e, tx, m) && m.catalog == tx.original && InFlight(m, tx, d)
    ensures InFlight(e, tx, d)
  {
    PartialFromInFlight(w, e, tx, m);
    FullAgain(w, e, tx, m.files);
    if d.catalog == tx.original && d.marker == Some(tx.marker) && Between(m.files, d.files, FullFiles(m.files, tx)) {
      BetweenComposes(e.files, m.files, d.files, FullFiles(e.files, tx));
    } else if d == Disk(tx.original, m.files, None) && !Unpublished(m, tx) {
      NothingLeftBehind(w, e, tx, m);
    }
  }

  lemma UnmarkedLeftover(w: World, e: Disk, tx: Tx, d: Disk)
    requires TxFits(w, e, tx) && e.marker.None? && InFlight(e, tx, d) && TreeOK(w, d) && d.marker.Some?
    requires RecoverStep(w, d, Ok).disk.marker.None?
    ensures InFlight(e, tx, d.(marker := None))
  {
    hide RegistryOK, TreeOK;
    if d.catalog == tx.original {
      RecoveryDecision(w, tx, d);
      assert !Unpublished(d, tx);
      NothingLeftBehind(w, e, tx, d);
    }
  }

  lemma RecoveryKeepsAttempt(w: World, e: Disk, tx: Tx, d: Disk, ev: Event)
    requires TxFits(w, e, tx) && e.marker.None? && InFlight(e, tx, d)
    ensures AttemptInv(w, e, tx, RecoverStep(w, d, ev))
    ensures ev.Ok? ==> RecoverStep(w, d, ev).phase.Preparing?
  {
    hide RegistryOK, TreeOK, InFlight, TxFits, Recovered;
    InFlightTreeOK(w, e, tx, d);
    RecoveryTouchesOnlyTheMarker(w, d, ev, ev);
    if RecoverStep(w, d, ev).disk.marker.None? && d.marker.Some? {
      UnmarkedLeftover(w, e, tx, d);
    }
  }

  /** Preparing on a partly published tree arrives at the very same transaction. */
  lemma PreparesAgain(w: World, request: Request, e: Disk, tx: Tx, d: Disk)
    requires Start(w, request, e, tx) && TxFits(w, e, tx) && TreeOK(w, d) && Recovered(w, d)
    requires Partial(e, tx, d)
    ensures MakePlan(w, d, request) == Publish(tx) && Admits(w, d, tx) && TxFits(w, d, tx)
  {
    hide MakePlan;
    PlanAgain(w, e, request, tx, d);
    FullAgain(w, e, tx, d.files);
    PlanFits(w, d, request);
  }

  lemma RecoveredCommitted(w: World, e: Disk, tx: Tx, d: Disk)
    requires TxFits(w, e, tx) && InFlight(e, tx, d) && Recovered(w, d) && d.catalog != tx.original
    ensures d == PublishedDisk(e, tx)
  {
  }

  lemma PreparingKeepsAttempt(w: World, request: Request, e: Disk, tx: Tx, d: Disk, ev: Event)
    requires Start(w, request, e, tx) && TxFits(w, e, tx) && InFlight(e, tx, d) && Recovered(w, d)
    ensures AttemptInv(w, e, tx, PrepareStep(w, d, request, ev))
    ensures ev.Ok? ==> PrepareStep(w, d, request, ev).phase in {Staging(Job(tx, d, [], false)), Ended(Unchanged)}
  {
    hide MakePlan, RegistryOK, TreeOK, TxFits, InFlight, Recovered, Admits, Start, CollisionFree, AttemptInv;
    InFlightTreeOK(w, e, tx, d);
    TxFitsOriginal(w, e, tx);
    if d.catalog == tx.original {
      StartParts(w, request, e, tx);
      PartialFromInFlight(w, e, tx, d);
      PreparesAgain(w, request, e, tx, d);
      PreparedOnPartial(w, request, e, tx, d, ev);
    } else {
      StartParts(w, request, e, tx);
      RecoveredCommitted(w, e, tx, d);
      PlanReplays(w, e, request, tx);
      PreparedOnPublished(w, request, e, tx, d, ev);
    }
  }

  lemma TxFitsOriginal(w: World, e: Disk, tx: Tx)
    requires TxFits(w, e, tx)
    ensures tx.original == e.catalog && TxShape(e, tx)
  {
    hide RegistryOK, TreeOK, Recovered;
  }

  lemma StartParts(w: World, request: Request, e: Disk, tx: Tx)
    requires Start(w, request, e, tx)
    ensures e.marker.None? && MakePlan(w, e, request) == Publish(tx)
  {
    hide MakePlan, RegistryOK, Admits, CollisionFree;
  }

  lemma PreparedOnPartial(w: World, request: Request, e: Disk, tx: Tx, d: Disk, ev: Event)
    requires MakePlan(w, d, request) == Publish(tx) && Admits(w, d, tx)
    requires TxFits(w, d, tx) && InFlight(e, tx, d) && d.catalog == tx.original
    ensures AttemptInv(w, e, tx, PrepareStep(w, d, request, ev))
    ensures ev.Ok? ==> PrepareStep(w, d, request, ev).phase == Staging(Job(tx, d, [], false))
  {
    hide MakePlan, Admits, TxFits, InFlight;
  }

  lemma PreparedOnPublished(w: World, request: Request, e: Disk, tx: Tx, d: Disk, ev: Event)
    requires MakePlan(w, d, request) == Replay && InFlight(e, tx, d) && d == PublishedDisk(e, tx)
    ensures AttemptInv(w, e, tx, PrepareStep(w, d, request, ev))
    ensures ev.Ok? ==> PrepareStep(w, d, request, ev).phase == Ended(Unchanged)
  {
    hide MakePlan, InFlight;
  }

  lemma PublishingKeepsAttempt(w: World, request: Request, e: Disk, tx: Tx, s: State, ev: Event)
    requires TxFits(w, e, tx) && e.marker.None? && AttemptInv(w, e, tx, s) && JobOf(s.phase).Some?
    requires Admissible(s.phase, ev)
    ensures AttemptInv(w, e, tx, Next(w, request, s, ev))
  {
    hide TxFits, PubInv, InFlight, Next, Between;
    var m := JobOf(s.phase).value.entry;
    var t := Next(w, request, s, ev);
    TxFitsOriginal(w, e, tx);
    PubStep(w, request, m, tx, s, ev);
    PubInFlight(w, m, tx, t);
    InFlightComposes(w, e, tx, m, t.disk);
    PartialFromInFlight(w, e, tx, m);
    FullAgain(w, e, tx, m.files);
    EndedFacts(m, tx, t);
    JobStays(w, request, s, ev);
  }

  /** The entry tree and the transaction of a publication never change. */
  lemma JobStays(w: World, request: Request, s: State, ev: Event)
    requires JobOf(s.phase).Some?
    ensures var t := Next(w, request, s, ev);
            && (JobOf(t.phase).Some? ==>
                  JobOf(t.phase).value.tx == JobOf(s.phase).value.tx &&
                  JobOf(t.phase).value.entry == JobOf(s.phase).value.entry)
            && !t.phase.Preparing? && t.phase != Ended(Unchanged)
  {
  }

  lemma AttemptStep(w: World, request: Request, e: Disk, tx: Tx, s: State, ev: Event)
    requires Start(w, request, e, tx) && TxFits(w, e, tx) && AttemptInv(w, e, tx, s) && Admissible(s.phase, ev)
    ensures AttemptInv(w, e, tx, Next(w, request, s, ev))
  {
    hide MakePlan, RegistryOK, InFlight, TxFits;
    if s.phase.Recovering? {
      RecoveryKeepsAttempt(w, e, tx, s.disk, ev);
    } else if s.phase.Preparing? {
      PreparingKeepsAttempt(w, request, e, tx, s.disk, ev);
    } else if JobOf(s.phase).Some? {
      PublishingKeepsAttempt(w, request, e, tx, s, ev);
    }
  }

  lemma {:induction false} AttemptRun(w: World, request: Request, e: Disk, tx: Tx, s: State, script: seq<Event>)
    requires Start(w, request, e, tx) && TxFits(w, e, tx)
    requires AttemptInv(w, e, tx, s) && AdmissibleRun(w, request, s, script)
    ensures AttemptInv(w, e, tx, Run(w, request, s, script))
    decreases |script|
  {
    hide Start, TxFits, InFlight, Next, AttemptInv;
    if script != [] {
      AttemptStep(w, request, e, tx, s, script[0]);
      AttemptRun(w, request, e, tx, Next(w, request, s, script[0]), script[1..]);
    }
  }

  function Attempt(d: Disk): State { State(d, Recovering) }

  /** Attempts one after another; each script may stop anywhere (a kill) or run into any faults. */
  function Attempts(w: World, request: Request, d: Disk, scripts: seq<seq<Event>>): (r: Disk)
    decreases |scripts|
  {
    if scripts == [] then d
    else Attempts(w, request, Run(w, request, Attempt(d), scripts[0]).disk, scripts[1..])
  }

  ghost predicate AdmissibleAttempts(w: World, request: Request, d: Disk, scripts: seq<seq<Event>>)
    decreases |scripts|
  {
    scripts != [] ==>
      && AdmissibleRun(w, request, Attempt(d), scripts[0])
      && AdmissibleAttempts(w, request, Run(w, request, Attempt(d), scripts[0]).disk, scripts[1..])
  }

  lemma {:induction false} AttemptsLeaveLeftovers(
      w: World, request: Request, e: Disk, tx: Tx, d: Disk, scripts: seq<seq<Event>>)
    requires Start(w, request, e, tx) && TxFits(w, e, tx) && InFlight(e, tx, d)
    requires AdmissibleAttempts(w, request, d, scripts)
    ensures InFlight(e, tx, Attempts(w, request, d, scripts))
    decreases |scripts|
  {
    hide Start, TxFits, InFlight, Next;
    if scripts != [] {
      AttemptRun(w, request, e, tx, Attempt(d), scripts[0]);
      AttemptsLeaveLeftovers(w, request, e, tx, Run(w, request, Attempt(d), scripts[0]).disk, scripts[1..]);
    }
  }

  // ---------------------------------------------------------------- the uninterrupted retry

  ghost predicate Forward(ph: Phase)
  {
    || ph.Recovering? || ph.Preparing? || ph.Staging? || ph.Marking? || ph.Installing?
    || ph.Committing? || ph.Validating? || ph.Clearing?
    || ph == Ended(Registered) || ph == Ended(Unchanged)
  }

  lemma ForwardPublishing(w: World, request: Request, e: Disk, tx: Tx, s: State)
    requires TxFits(w, e, tx) && e.marker.None? && AttemptInv(w, e, tx, s)
    requires JobOf(s.phase).Some? && Forward(s.phase)
    ensures Forward(Next(w, request, s, Ok).phase)
  {
    hide RegistryOK, TreeOK, InFlight, TxFits, MakePlan;
    match s.phase
    case Marking(j) => PartialFromInFlight(w, e, tx, j.entry);
    case Validating(j) => CommittedValidates(w, j.entry, tx, s.disk);
    case _ =>
  }

  /** Without faults no step of a retry turns into a rollback. */
  lemma ForwardStep(w: World, request: Request, e: Disk, tx: Tx, s: State)
    requires Start(w, request, e, tx) && TxFits(w, e, tx) && AttemptInv(w, e, tx, s) && Forward(s.phase)
    ensures Forward(Next(w, request, s, Ok).phase)
  {
    hide MakePlan, RegistryOK, TreeOK, InFlight, Start, TxFits;
    StartParts(w, request, e, tx);
    match s.phase
    case Recovering => RecoveryKeepsAttempt(w, e, tx, s.disk, Ok);
    case Preparing => PreparingKeepsAttempt(w, request, e, tx, s.disk, Ok);
    case Ended(_) =>
    case _ => ForwardPublishing(w, request, e, tx, s);
  }

  lemma {:induction false} ForwardFinish(w: World, request: Request, e: Disk, tx: Tx, s: State)
    requires Start(w, request, e, tx) && TxFits(w, e, tx) && AttemptInv(w, e, tx, s) && Forward(s.phase)
    ensures Finish(w, request, s).phase in {Ended(Registered), Ended(Unchanged)}
    ensures Finish(w, request, s).disk == PublishedDisk(e, tx)
    decreases Stage(s.phase), Inner(s.phase)
  {
    hide Start, TxFits, Next, InFlight;
    if Active(s.phase) {
      AttemptStep(w, request, e, tx, s, Ok);
      ForwardStep(w, request, e, tx, s);
      ForwardFinish(w, request, e, tx, Next(w, request, s, Ok));
    }
  }

  lemma InFlightAtFirst(e: Disk, tx: Tx)
    ensures InFlight(e, tx, e)
  {
  }

  /**
   * Crash/retry convergence: kill a registration at any step, retry the same request any number of
   * times through any faults and further kills, then let one retry run undisturbed. It succeeds and
   * leaves exactly the tree one undisturbed registration would have left.
   */
  lemma RetriesConverge(w: World, request: Request, e: Disk, tx: Tx, scripts: seq<seq<Event>>)
    requires Start(w, request, e, tx) && AdmissibleAttempts(w, request, e, scripts)
    ensures var retry := Finish(w, request, Attempt(Attempts(w, request, e, scripts)));
            && retry.phase in {Ended(Registered), Ended(Unchanged)}
            && retry.disk == Finish(w, request, Attempt(e)).disk
            && retry.disk == PublishedDisk(e, tx)
  {
    hide Start, MakePlan, RegistryOK, TxFits, InFlight, Next;
    StartFits(w, request, e, tx);
    InFlightAtFirst(e, tx);
    AttemptsLeaveLeftovers(w, request, e, tx, e, scripts);
    ForwardFinish(w, request, e, tx, Attempt(e));
    ForwardFinish(w, request, e, tx, Attempt(Attempts(w, request, e, scripts)));
  }
}
