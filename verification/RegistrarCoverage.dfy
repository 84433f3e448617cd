/** Orphan coverage in every interleaving of registrars, outside the one hazard. */
module RegistrarCoverage {
  import opened Text
  import opened Ordering
  import opened Catalogs
  import opened Registry
  import opened Planning
  import opened Transactions
  import opened Publication
  import opened CrashSafety
  import opened PublicationRuns
  import opened Replanning
  import opened Convergence
  import opened Registrars
  import opened RegistrarRuns

  ghost predicate AllScanned(m: Option<Marker>)
  {
    m.Some? ==> forall p | p in MarkerPaths(m.value) :: IsScanned(p)
  }

  lemma DeepSchemaPathIsScanned(p: Path)
    requires EndsWith(p, SCHEMA_SUFFIX) && |Split(p, '/')| >= 2
    ensures IsScanned(p)
  {
    hide Split, EndsWith;
    if p == CATALOG_SCHEMA_FILENAME {
      assert forall i | 0 <= i < |CATALOG_SCHEMA_FILENAME| :: CATALOG_SCHEMA_FILENAME[i] != '/';
      SplitHead(CATALOG_SCHEMA_FILENAME, '/', "");
    }
  }

  lemma SinglePathsScanned(w: World, d: Disk, c: Candidate, tx: Tx)
    requires PlanSingle(w, d, c) == Publish(tx)
    ensures forall p | p in ArtifactPaths(tx.artifacts) :: IsScanned(p)
  {
    hide RegistryOK, Contents, EndsWith, Split;
    SingleShape(w, d, c);
    DeepSchemaPathIsScanned(c.artifactPath);
  }

  lemma BundlePathsScanned(w: World, d: Disk, cs: seq<Candidate>, tx: Tx)
    requires PlanBundle(w, d, cs) == Publish(tx)
    ensures forall p | p in ArtifactPaths(tx.artifacts) :: IsScanned(p)
  {
    hide PlanBundle, SortBy, EndsWith, Split, IsScanned, SafePath;
    BundleFacts(w, d, cs, tx);
    BundleDistinct(cs);
    SortedArtifacts(BundleArtifacts(SortBy(cs, CandidateKey)));
    BundleArtifactPaths(cs);
    forall p | p in CandidatePaths(cs)
      ensures IsScanned(p)
    {
      var c :| c in cs && c.artifactPath == p;
      var i :| 0 <= i < |cs| && cs[i] == c;
      assert BundleItemOK(w, d, cs[i]);
      DeepSchemaPathIsScanned(p);
    }
  }

  /** Single and bundle registrations only ever bring files the closure scan sees. */
  lemma PlanPathsScanned(w: World, d: Disk, request: Request, tx: Tx)
    requires !request.Evolution? && MakePlan(w, d, request) == Publish(tx) && MarkerMatches(w, tx)
    ensures AllScanned(Some(tx.marker))
  {
    match request
    case Single(c) => SinglePathsScanned(w, d, c, tx);
    case Bundle(cs) => BundlePathsScanned(w, d, cs, tx);
    MarkerNamesArtifacts(w, tx);
  }

  /** A marker whose new catalog is in place names only files that catalog names. */
  ghost predicate MarkerCommits(w: World, d: Disk)
  {
    d.marker.Some? && CatalogDigest(w, d.catalog) == d.marker.value.newSha ==>
      MarkerPaths(d.marker.value) <= CatalogPaths(d.catalog)
  }

  /** On a covered tree recovery removes the marker exactly when no uncatalogued file remains. */
  lemma RecoveryRemovesMarkerWhenNoOrphanRemains(w: World, d: Disk)
    requires TreeOK(w, d) && Covered(w, d) && MarkerCommits(w, d)
    ensures RecoverStep(w, d, Ok).disk.marker.None? <==> forall p :: !IsOrphan(d, p)
  {
  }

  lemma RecoveryKeepsCovered(w: World, d: Disk, ev: Event)
    requires TreeOK(w, d) && Covered(w, d) && MarkerCommits(w, d)
    ensures var t := RecoverStep(w, d, ev).disk;
            Covered(w, t) && MarkerCommits(w, t) && (t.marker == d.marker || t.marker.None?)
  {
    hide TreeOK, RegistryOK;
    RecoveryRemovesMarkerWhenNoOrphanRemains(w, d);
    RecoveryTouchesOnlyTheMarker(w, d, ev, ev);
    RecoveryTouchesOnlyTheMarker(w, d, Ok, ev);
    var t := RecoverStep(w, d, ev).disk;
    SameDecision(w, d, ev);
    hide RecoverStep;
    assert forall p :: IsOrphan(t, p) == IsOrphan(d, p);
  }

  lemma SameDecision(w: World, d: Disk, ev: Event)
    ensures RecoverStep(w, d, ev).disk.marker.None? ==> RecoverStep(w, d, Ok).disk.marker.None?
  {
  }

  // ---------------------------------------------------------------- runs begun outside the hazard

  ghost predicate CalmPlan(w: World, d: Disk, request: Request)
  {
    var plan := MakePlan(w, d, request);
    plan.Publish? && Admits(w, d, plan.tx) ==> !Hazard(d, plan.tx)
  }

  /** No process starts publishing while another transaction's marker is its hazard. */
  ghost predicate CalmAction(w: World, s: System, a: Action)
  {
    a.Advance? && a.p < |s.procs| && s.procs[a.p].phase.Preparing? ==> CalmPlan(w, s.disk, s.procs[a.p].request)
  }

  ghost predicate CalmActions(w: World, s: System, actions: seq<Action>)
    decreases |actions|
  {
    actions != [] ==> CalmAction(w, s, actions[0]) && CalmActions(w, Step(w, s, actions[0]), actions[1..])
  }

  /** What the process inside the lock adds to coverage. */
  ghost predicate CalmJob(w: World, ph: Phase)
  {
    JobOf(ph).Some? ==>
      var j := JobOf(ph).value;
      Covered(w, j.entry) && !Hazard(j.entry, j.tx) && MarkerCommits(w, j.entry)
  }

  ghost predicate CoveredSystem(w: World, s: System)
  {
    && Covered(w, s.disk)
    && MarkerCommits(w, s.disk)
    && forall p | 0 <= p < |s.procs| :: CalmJob(w, s.procs[p].phase)
  }

  lemma InFlightCommits(w: World, e: Disk, tx: Tx, d: Disk)
    requires TxFits(w, e, tx) && InFlight(e, tx, d) && MarkerCommits(w, e)
    ensures MarkerCommits(w, d)
  {
    hide RegistryOK, TreeOK, Recovered, Between, Unpublished, FullFiles, MarkerPaths, CatalogPaths, SchemaPaths,
         ArtifactPaths, DistinctPaths, Compatible, GraphRuns, MarkerShape, MarkerPins, ArtifactPins, CatalogDigest;
    FitsMarker(w, e, tx);
    MarkerNamesArtifacts(w, tx);
  }

  lemma FitsMarker(w: World, d: Disk, tx: Tx)
    requires TxFits(w, d, tx)
    ensures MarkerMatches(w, tx)
  {
  }

  lemma PreparingStaysCovered(w: World, d: Disk, request: Request, ev: Event)
    requires Covered(w, d) && MarkerCommits(w, d)
    requires CalmPlan(w, d, request)
    ensures PrepareStep(w, d, request, ev).disk == d && CalmJob(w, PrepareStep(w, d, request, ev).phase)
  {
    hide MakePlan, Admits, Covered, MarkerCommits, Hazard;
  }

  lemma PublishingStaysCovered(w: World, c: Catalog, d: Disk, pr: Process, log: seq<Request>, ev: Event)
    requires JobOf(pr.phase).Some? && Inside(w, c, d, pr, log) && CalmJob(w, pr.phase) && Admissible(pr.phase, ev)
    ensures var t := Next(w, pr.request, State(d, pr.phase), ev);
            Covered(w, t.disk) && MarkerCommits(w, t.disk) && CalmJob(w, t.phase)
  {
    hide Next, TxFits, PubInv, CatalogAfter, Serial, LogEnds, InFlight, Covered, Hazard, MarkerCommits;
    var j := JobOf(pr.phase).value;
    var s := State(d, pr.phase);
    var t := Next(w, pr.request, s, ev);
    PubStep(w, pr.request, j.entry, j.tx, s, ev);
    PubInFlight(w, j.entry, j.tx, t);
    InFlightCovered(w, j.entry, j.tx, t.disk);
    InFlightCommits(w, j.entry, j.tx, t.disk);
    JobStays(w, pr.request, s, ev);
  }

  lemma InsideStaysCovered(w: World, c: Catalog, s: System, p: nat, ev: Event)
    requires SystemOK(w, c, s) && CoveredSystem(w, s) && AdmissibleAction(s, Advance(p, ev)) &&
             CalmAction(w, s, Advance(p, ev))
    requires p < |s.procs| && Active(s.procs[p].phase)
    ensures var t := Next(w, s.procs[p].request, State(s.disk, s.procs[p].phase), ev);
            Covered(w, t.disk) && MarkerCommits(w, t.disk) && CalmJob(w, t.phase)
  {
    hide Next, TreeOK, Serial, Inside, Covered, MarkerCommits, CalmJob, RecoverStep, PrepareStep, MakePlan, Hazard;
    var pr := s.procs[p];
    assert s.holder == Some(p) && CalmJob(w, pr.phase);
    OpeningDispatch(w, pr.request, s.disk, ev);
    if pr.phase.Recovering? {
      RecoveryKeepsCovered(w, s.disk, ev);
      RecoveryEnds(w, s.disk, ev);
      NoJobIsCalm(w, RecoverStep(w, s.disk, ev).phase);
    } else if pr.phase.Preparing? {
      PreparingStaysCovered(w, s.disk, pr.request, ev);
    } else {
      PublishingStaysCovered(w, c, s.disk, pr, s.log, ev);
    }
  }

  lemma NoJobIsCalm(w: World, ph: Phase)
    requires JobOf(ph).None?
    ensures CalmJob(w, ph)
  {
  }

  lemma CoveredStep(w: World, c: Catalog, s: System, a: Action)
    requires SystemOK(w, c, s) && CoveredSystem(w, s) && AdmissibleAction(s, a) && CalmAction(w, s, a)
    ensures CoveredSystem(w, Step(w, s, a))
  {
    hide Next, SystemOK, Covered, MarkerCommits, CalmJob, CalmAction;
    var t := Step(w, s, a);
    NoJobIsCalm(w, Waiting);
    NoJobIsCalm(w, Recovering);
    NoJobIsCalm(w, Ended(Busy));
    NoJobIsCalm(w, Ended(Killed));
    if a.Advance? && a.p < |s.procs| && Active(s.procs[a.p].phase) {
      InsideStaysCovered(w, c, s, a.p, a.ev);
    }
    forall p | 0 <= p < |t.procs|
      ensures CalmJob(w, t.procs[p].phase)
    {
      if p < |s.procs| {
        assert CalmJob(w, s.procs[p].phase);
      }
    }
  }

  lemma {:induction false} CoveredSteps(w: World, c: Catalog, s: System, actions: seq<Action>)
    requires CollisionFree(w) && SystemOK(w, c, s) && CoveredSystem(w, s)
    requires AdmissibleActions(w, s, actions) && CalmActions(w, s, actions)
    ensures CoveredSystem(w, Steps(w, s, actions))
    decreases |actions|
  {
    hide SystemOK, CoveredSystem, CollisionFree, Step, CalmAction;
    if actions != [] {
      SystemStep(w, c, s, actions[0]);
      CoveredStep(w, c, s, actions[0]);
      CoveredSteps(w, c, Step(w, s, actions[0]), actions[1..]);
    }
  }

  lemma InitialCovered(w: World, s: System)
    requires Initial(w, s) && forall p :: !IsOrphan(s.disk, p)
    ensures CoveredSystem(w, s)
  {
  }

  /**
   * Orphan coverage at every step of every run of single, bundle and evolution registrations, with
   * faults and kills anywhere, in which no publication is begun in its hazard: each file outside the
   * catalog is named, with its digest, by the marker on disk, and that marker is bound to the current
   * catalog.
   */
  lemma OrphansStayCovered(w: World, s: System, actions: seq<Action>)
    requires CollisionFree(w) && Initial(w, s) && AdmissibleActions(w, s, actions) && CalmActions(w, s, actions)
    requires forall p :: !IsOrphan(s.disk, p)
    ensures Covered(w, Steps(w, s, actions).disk)
  {
    hide CollisionFree, Initial, AdmissibleActions, CalmActions, Steps;
    InitialOK(w, s);
    InitialCovered(w, s);
    CoveredSteps(w, s.disk.catalog, s, actions);
  }

  // ---------------------------------------------------------------- single and bundle registrations are calm

  /** Markers name only files the closure scan sees. */
  ghost predicate ScannedJob(ph: Phase)
  {
    JobOf(ph).Some? ==> AllScanned(JobOf(ph).value.entry.marker) && AllScanned(Some(JobOf(ph).value.tx.marker))
  }

  ghost predicate ScannedSystem(s: System)
  {
    && AllScanned(s.disk.marker)
    && forall p | 0 <= p < |s.procs| :: !s.procs[p].request.Evolution? && ScannedJob(s.procs[p].phase)
  }

  predicate SchemaAction(a: Action) { a.Spawn? ==> !a.request.Evolution? }

  lemma NoHazardWithScannedMarker(w: World, e: Disk, tx: Tx)
    requires TxFits(w, e, tx) && AllScanned(e.marker)
    ensures !Hazard(e, tx)
  {
    hide TxFits, IsScanned;
    if Hazard(e, tx) {
      HazardNeedsUnscannedOrphan(w, e, tx);
    }
  }

  lemma NoMarkerScanned()
    ensures AllScanned(None)
  {
  }

  lemma InFlightScanned(e: Disk, tx: Tx, d: Disk)
    requires InFlight(e, tx, d) && AllScanned(e.marker) && AllScanned(Some(tx.marker))
    ensures AllScanned(d.marker)
  {
  }

  /** The plan of a process about to publish, with all that is known of it. */
  lemma PlanInside(w: World, c: Catalog, s: System, p: nat)
    requires CollisionFree(w) && SystemOK(w, c, s) && p < |s.procs| && s.procs[p].phase.Preparing?
    ensures var plan := MakePlan(w, s.disk, s.procs[p].request);
            plan.Publish? && Admits(w, s.disk, plan.tx) ==> TxFits(w, s.disk, plan.tx)
  {
    hide CollisionFree, TreeOK, Serial, MakePlan, TxFits, PubInv, CatalogAfter, Admits, Recovered;
    var pr := s.procs[p];
    assert Active(pr.phase) && s.holder == Some(p) && Recovered(w, s.disk);
    var plan := MakePlan(w, s.disk, pr.request);
    if plan.Publish? && Admits(w, s.disk, plan.tx) {
      PlanFits(w, s.disk, pr.request);
    }
  }

  lemma InsideStaysScanned(w: World, c: Catalog, s: System, p: nat, ev: Event)
    requires CollisionFree(w) && SystemOK(w, c, s) && ScannedSystem(s) && AdmissibleAction(s, Advance(p, ev))
    requires p < |s.procs| && Active(s.procs[p].phase)
    ensures var t := Next(w, s.procs[p].request, State(s.disk, s.procs[p].phase), ev);
            AllScanned(t.disk.marker) && ScannedJob(t.phase)
  {
    hide CollisionFree, Next, TreeOK, Serial, AllScanned, RecoverStep, MakePlan, Admits, TxFits, PubInv, CatalogAfter,
         InFlight, Recovered;
    var pr := s.procs[p];
    assert s.holder == Some(p) && ScannedJob(pr.phase);
    OpeningDispatch(w, pr.request, s.disk, ev);
    NoMarkerScanned();
    if pr.phase.Recovering? {
      RecoveryTouchesOnlyTheMarker(w, s.disk, ev, ev);
      RecoveryEnds(w, s.disk, ev);
    } else if pr.phase.Preparing? {
      var plan := MakePlan(w, s.disk, pr.request);
      PlanInside(w, c, s, p);
      if plan.Publish? && Admits(w, s.disk, plan.tx) {
        FitsMarker(w, s.disk, plan.tx);
        PlanPathsScanned(w, s.disk, pr.request, plan.tx);
      }
    } else {
      var j := JobOf(pr.phase).value;
      var t := Next(w, pr.request, State(s.disk, pr.phase), ev);
      PubStep(w, pr.request, j.entry, j.tx, State(s.disk, pr.phase), ev);
      PubInFlight(w, j.entry, j.tx, t);
      InFlightScanned(j.entry, j.tx, t.disk);
      JobStays(w, pr.request, State(s.disk, pr.phase), ev);
    }
  }

  lemma ScannedStep(w: World, c: Catalog, s: System, a: Action)
    requires CollisionFree(w) && SystemOK(w, c, s) && ScannedSystem(s) && AdmissibleAction(s, a) && SchemaAction(a)
    ensures ScannedSystem(Step(w, s, a))
  {
    hide CollisionFree, Next, SystemOK, AllScanned;
    var t := Step(w, s, a);
    if a.Advance? && a.p < |s.procs| && Active(s.procs[a.p].phase) {
      InsideStaysScanned(w, c, s, a.p, a.ev);
    }
    forall p | 0 <= p < |t.procs|
      ensures !t.procs[p].request.Evolution? && ScannedJob(t.procs[p].phase)
    {
      if p < |s.procs| {
        assert !s.procs[p].request.Evolution? && ScannedJob(s.procs[p].phase);
      }
    }
  }

  lemma ScannedIsCalm(w: World, c: Catalog, s: System, a: Action)
    requires CollisionFree(w) && SystemOK(w, c, s) && ScannedSystem(s)
    ensures CalmAction(w, s, a)
  {
    hide CollisionFree, SystemOK, AllScanned, MakePlan, Admits, TxFits, Hazard;
    if a.Advance? && a.p < |s.procs| && s.procs[a.p].phase.Preparing? {
      var plan := MakePlan(w, s.disk, s.procs[a.p].request);
      PlanInside(w, c, s, a.p);
      if plan.Publish? && Admits(w, s.disk, plan.tx) {
        NoHazardWithScannedMarker(w, s.disk, plan.tx);
      }
    }
  }

  lemma {:induction false} SchemaActionsAreCalm(w: World, c: Catalog, s: System, actions: seq<Action>)
    requires CollisionFree(w) && SystemOK(w, c, s) && ScannedSystem(s) && AdmissibleActions(w, s, actions)
    requires forall i | 0 <= i < |actions| :: SchemaAction(actions[i])
    ensures CalmActions(w, s, actions)
    decreases |actions|
  {
    hide CollisionFree, SystemOK, ScannedSystem, Step, CalmAction;
    if actions != [] {
      ScannedIsCalm(w, c, s, actions[0]);
      SystemStep(w, c, s, actions[0]);
      ScannedStep(w, c, s, actions[0]);
      SchemaActionsAreCalm(w, c, Step(w, s, actions[0]), actions[1..]);
    }
  }

  /** Single and bundle registrations never meet the hazard, so their orphans are always covered. */
  lemma SchemaRegistrationsStayCovered(w: World, s: System, actions: seq<Action>)
    requires CollisionFree(w) && Initial(w, s) && AdmissibleActions(w, s, actions)
    requires (forall p :: !IsOrphan(s.disk, p)) && forall p | 0 <= p < |s.procs| :: !s.procs[p].request.Evolution?
    requires forall i | 0 <= i < |actions| :: SchemaAction(actions[i])
    ensures Covered(w, Steps(w, s, actions).disk)
  {
    hide CollisionFree, AdmissibleActions, CalmActions, Steps, RegistryOK;
    InitialOK(w, s);
    forall p | 0 <= p < |s.procs|
      ensures ScannedJob(s.procs[p].phase)
    {
      assert JobOf(s.procs[p].phase).None?;
    }
    NoMarkerScanned();
    SchemaActionsAreCalm(w, s.disk.catalog, s, actions);
    OrphansStayCovered(w, s, actions);
  }
}
