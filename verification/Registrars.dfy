/** Any number of registrars sharing one schema tree through the registration lock. */
module Registrars {
  import opened Text
  import opened Catalogs
  import opened Registry
  import opened Planning
  import opened Transactions
  import opened Publication
  import opened CrashSafety
  import opened PublicationRuns
  import opened Convergence

  datatype Process = Process(request: Request, phase: Phase)

  /** `log` records the committed requests, newest last; a rollback takes its own request off again. */
  datatype System = System(disk: Disk, holder: Option<nat>, procs: seq<Process>, log: seq<Request>)

  /** A process starts, tries the lock, makes one step, or dies; the system releases a dead process's lock. */
  datatype Action = Spawn(request: Request) | Begin(p: nat) | Advance(p: nat, ev: Event) | Kill(p: nat)

  function LogAfter(log: seq<Request>, request: Request, ph: Phase, ev: Event): (r: seq<Request>)
  {
    if ev.Fail? then log
    else if ph.Committing? then log + [request]
    else if ph.RestoringCatalog? && log != [] then log[..|log| - 1]
    else log
  }

  function Released(holder: Option<nat>, p: nat): Option<nat> { if holder == Some(p) then None else holder }

  /** Nothing here asks who holds the lock before an active process writes: that is a theorem. */
  function Step(w: World, s: System, a: Action): (r: System)
  {
    match a
    case Spawn(request) => s.(procs := s.procs + [Process(request, Waiting)])
    case Begin(p) =>
      if p < |s.procs| && s.procs[p].phase.Waiting? then
        if s.holder.None? then s.(holder := Some(p), procs := s.procs[p := s.procs[p].(phase := Recovering)])
        else s.(procs := s.procs[p := s.procs[p].(phase := Ended(Busy))])
      else s
    case Advance(p, ev) =>
      if p < |s.procs| && Active(s.procs[p].phase) then
        var pr := s.procs[p];
        var t := Next(w, pr.request, State(s.disk, pr.phase), ev);
        System(t.disk, if Active(t.phase) then s.holder else Released(s.holder, p),
               s.procs[p := pr.(phase := t.phase)], LogAfter(s.log, pr.request, pr.phase, ev))
      else s
    case Kill(p) =>
      if p < |s.procs| && !s.procs[p].phase.Ended? then
        s.(holder := Released(s.holder, p), procs := s.procs[p := s.procs[p].(phase := Ended(Killed))])
      else s
  }

  function Steps(w: World, s: System, actions: seq<Action>): (r: System)
    decreases |actions|
  {
    if actions == [] then s else Steps(w, Step(w, s, actions[0]), actions[1..])
  }

  /** Excludes the late failure of the final unlink, the one fault that loses a marker. */
  predicate AdmissibleAction(s: System, a: Action)
  {
    a.Advance? && a.p < |s.procs| ==> Admissible(s.procs[a.p].phase, a.ev)
  }

  ghost predicate AdmissibleActions(w: World, s: System, actions: seq<Action>)
    decreases |actions|
  {
    actions != [] ==> AdmissibleAction(s, actions[0]) && AdmissibleActions(w, Step(w, s, actions[0]), actions[1..])
  }

  /** Applying the committed requests one after another, in commit order. */
  function Serial(w: World, c: Catalog, log: seq<Request>): (r: Catalog)
  {
    if log == [] then c else CatalogAfter(w, Serial(w, c, log[..|log| - 1]), log[|log| - 1])
  }

  predicate Committed(ph: Phase) { ph.Validating? || ph.Clearing? || ph.RestoringCatalog? }

  ghost predicate LogEnds(w: World, c: Catalog, log: seq<Request>, request: Request, original: Catalog)
  {
    log != [] && log[|log| - 1] == request && Serial(w, c, log[..|log| - 1]) == original
  }

  /** What holds of the process inside the lock. */
  ghost predicate Inside(w: World, c: Catalog, d: Disk, pr: Process, log: seq<Request>)
  {
    && (pr.phase.Preparing? ==> Recovered(w, d))
    && (JobOf(pr.phase).Some? ==>
          var j := JobOf(pr.phase).value;
          && TxFits(w, j.entry, j.tx)
          && PubInv(j.entry, j.tx, State(d, pr.phase))
          && j.tx.target == CatalogAfter(w, j.tx.original, pr.request)
          && (Committed(pr.phase) ==> LogEnds(w, c, log, pr.request, j.tx.original)))
  }

  ghost predicate Exclusive(s: System)
  {
    && (forall p | 0 <= p < |s.procs| :: Active(s.procs[p].phase) <==> s.holder == Some(p))
    && (s.holder.Some? ==> s.holder.value < |s.procs|)
  }

  /** The invariant of every reachable system; `c` is the catalog the log starts from. */
  ghost predicate SystemOK(w: World, c: Catalog, s: System)
  {
    && Exclusive(s)
    && TreeOK(w, s.disk)
    && s.disk.catalog == Serial(w, c, s.log)
    && (s.holder.Some? ==> Inside(w, c, s.disk, s.procs[s.holder.value], s.log))
  }

  // ---------------------------------------------------------------- the catalog and the log

  predicate Early(ph: Phase) { ph.Staging? || ph.Marking? || ph.Installing? || ph.Committing? }

  lemma EarlyIsUncommitted(e: Disk, tx: Tx, s: State)
    requires PubInv(e, tx, s) && Early(s.phase)
    ensures !JobOf(s.phase).value.committed
  {
  }

  /** Which steps change the catalog, and to what. */
  lemma CatalogMoves(w: World, request: Request, s: State, ev: Event)
    requires JobOf(s.phase).Some?
    ensures var t := Next(w, request, s, ev);
            var tx := JobOf(s.phase).value.tx;
            && t.disk.catalog == (if ev.Fail? then s.disk.catalog
                                  else if s.phase.Committing? then tx.target
                                  else if s.phase.RestoringCatalog? then tx.original
                                  else s.disk.catalog)
            && (Committed(t.phase) && Early(s.phase) && !JobOf(s.phase).value.committed ==>
                  s.phase.Committing? && !ev.Fail?)
            && (Committed(t.phase) ==> Early(s.phase) || s.phase.Validating? || s.phase.Clearing?)
  {
  }

  lemma SerialSnoc(w: World, c: Catalog, log: seq<Request>, request: Request)
    ensures Serial(w, c, log + [request]) == CatalogAfter(w, Serial(w, c, log), request)
  {
  }

  lemma PubCatalog(e: Disk, tx: Tx, d: Disk, j: Job)
    requires PubInv(e, tx, State(d, Committing(j)))
    ensures d.catalog == tx.original
  {
  }

  lemma LogFollows(w: World, c: Catalog, log: seq<Request>, pr: Process, d: Disk, ev: Event)
    requires JobOf(pr.phase).Some? && Inside(w, c, d, pr, log) && d.catalog == Serial(w, c, log)
    ensures var t := Next(w, pr.request, State(d, pr.phase), ev);
            var after := LogAfter(log, pr.request, pr.phase, ev);
            && t.disk.catalog == Serial(w, c, after)
            && (Committed(t.phase) ==> LogEnds(w, c, after, pr.request, JobOf(pr.phase).value.tx.original))
  {
    hide Next, TxFits, PubInv, CatalogAfter, Serial;
    var j := JobOf(pr.phase).value;
    CatalogMoves(w, pr.request, State(d, pr.phase), ev);
    if Early(pr.phase) {
      EarlyIsUncommitted(j.entry, j.tx, State(d, pr.phase));
    }
    if pr.phase.Committing? && !ev.Fail? {
      PubCatalog(j.entry, j.tx, d, j);
      SerialSnoc(w, c, log, pr.request);
      var after := log + [pr.request];
      assert after[..|after| - 1] == log;
    }
  }

  // ---------------------------------------------------------------- one step inside the lock

  lemma RecoverInside(w: World, c: Catalog, d: Disk, request: Request, log: seq<Request>, ev: Event)
    requires TreeOK(w, d)
    ensures var t := Next(w, request, State(d, Recovering), ev);
            TreeOK(w, t.disk) && t.disk.catalog == d.catalog && Inside(w, c, t.disk, Process(request, t.phase), log)
            && !JobOf(t.phase).Some?
  {
    hide TreeOK, RegistryOK, Recovered, Next, RecoverStep, TxFits, PubInv, CatalogAfter, Committed;
    RecoveryTouchesOnlyTheMarker(w, d, ev, ev);
    OpeningDispatch(w, request, d, ev);
    RecoveryEnds(w, d, ev);
  }

  lemma RecoveryEnds(w: World, d: Disk, ev: Event)
    ensures RecoverStep(w, d, ev).phase in {Preparing, Ended(Rejected)}
  {
  }

  lemma PreparedInside(w: World, c: Catalog, d: Disk, request: Request, log: seq<Request>, tx: Tx)
    requires TxFits(w, d, tx) && tx.target == CatalogAfter(w, tx.original, request)
    ensures Inside(w, c, d, Process(request, Staging(Job(tx, d, [], false))), log)
  {
    hide TxFits, CatalogAfter;
    BegunInv(d, tx);
  }

  lemma PrepareInside(w: World, c: Catalog, d: Disk, request: Request, log: seq<Request>, ev: Event)
    requires CollisionFree(w) && TreeOK(w, d) && Recovered(w, d)
    ensures var t := Next(w, request, State(d, Preparing), ev);
            t.disk == d && Inside(w, c, t.disk, Process(request, t.phase), log)
  {
    hide TreeOK, Recovered, MakePlan, Admits, CatalogAfter, TxFits, PubInv, CollisionFree;
    if ev.Ok? && MakePlan(w, d, request).Publish? {
      var tx := MakePlan(w, d, request).tx;
      if Admits(w, d, tx) {
        PlanGrows(w, d, request);
        PlanFits(w, d, request);
        PreparedInside(w, c, d, request, log, tx);
      }
    }
  }

  lemma PublishInside(w: World, c: Catalog, d: Disk, pr: Process, log: seq<Request>, ev: Event)
    requires JobOf(pr.phase).Some? && Inside(w, c, d, pr, log) && d.catalog == Serial(w, c, log)
    requires Admissible(pr.phase, ev)
    ensures var t := Next(w, pr.request, State(d, pr.phase), ev);
            TreeOK(w, t.disk) && Inside(w, c, t.disk, pr.(phase := t.phase), LogAfter(log, pr.request, pr.phase, ev))
  {
    hide Next, TxFits, PubInv, CatalogAfter, Serial, LogEnds, TreeOK, InFlight;
    var j := JobOf(pr.phase).value;
    var s := State(d, pr.phase);
    var t := Next(w, pr.request, s, ev);
    LogFollows(w, c, log, pr, d, ev);
    PubStep(w, pr.request, j.entry, j.tx, s, ev);
    PubInFlight(w, j.entry, j.tx, t);
    InFlightTreeOK(w, j.entry, j.tx, t.disk);
    JobStays(w, pr.request, s, ev);
  }

  lemma StepInside(w: World, c: Catalog, d: Disk, pr: Process, log: seq<Request>, ev: Event)
    requires CollisionFree(w) && TreeOK(w, d) && Active(pr.phase)
    requires Inside(w, c, d, pr, log) && d.catalog == Serial(w, c, log) && Admissible(pr.phase, ev)
    ensures var t := Next(w, pr.request, State(d, pr.phase), ev);
            var after := LogAfter(log, pr.request, pr.phase, ev);
            && TreeOK(w, t.disk) && t.disk.catalog == Serial(w, c, after)
            && Inside(w, c, t.disk, pr.(phase := t.phase), after)
  {
    hide TreeOK, Next, Serial, TxFits, PubInv, CatalogAfter, CollisionFree, LogEnds, Recovered;
    if pr.phase.Recovering? {
      RecoverInside(w, c, d, pr.request, log, ev);
    } else if pr.phase.Preparing? {
      PrepareInside(w, c, d, pr.request, log, ev);
    } else {
      assert JobOf(pr.phase).Some?;
      LogFollows(w, c, log, pr, d, ev);
      PublishInside(w, c, d, pr, log, ev);
    }
  }

  // ---------------------------------------------------------------- the whole system

  lemma AdvanceKeeps(w: World, c: Catalog, s: System, p: nat, ev: Event)
    requires CollisionFree(w) && SystemOK(w, c, s) && AdmissibleAction(s, Advance(p, ev))
    requires p < |s.procs| && Active(s.procs[p].phase)
    ensures SystemOK(w, c, Step(w, s, Advance(p, ev)))
  {
    hide TreeOK, Next, Serial, Inside, CollisionFree, LogAfter;
    assert s.holder == Some(p);
    StepInside(w, c, s.disk, s.procs[p], s.log, ev);
  }

  lemma OthersKeep(w: World, c: Catalog, s: System, a: Action)
    requires SystemOK(w, c, s) && !a.Advance?
    ensures SystemOK(w, c, Step(w, s, a))
  {
    hide TreeOK, Serial, Next, TxFits, PubInv, Recovered, CatalogAfter;
    var t := Step(w, s, a);
    match a
    case Spawn(request) =>
      assert forall p | 0 <= p < |s.procs| :: t.procs[p] == s.procs[p];
    case Begin(p) =>
    case Kill(p) =>
  }

  lemma SystemStep(w: World, c: Catalog, s: System, a: Action)
    requires CollisionFree(w) && SystemOK(w, c, s) && AdmissibleAction(s, a)
    ensures SystemOK(w, c, Step(w, s, a))
  {
    hide SystemOK, CollisionFree, Next;
    if a.Advance? {
      if a.p < |s.procs| && Active(s.procs[a.p].phase) {
        AdvanceKeeps(w, c, s, a.p, a.ev);
      }
    } else {
      OthersKeep(w, c, s, a);
    }
  }

  lemma {:induction false} SystemSteps(w: World, c: Catalog, s: System, actions: seq<Action>)
    requires CollisionFree(w) && SystemOK(w, c, s) && AdmissibleActions(w, s, actions)
    ensures SystemOK(w, c, Steps(w, s, actions))
    decreases |actions|
  {
    hide SystemOK, CollisionFree, Step;
    if actions != [] {
      SystemStep(w, c, s, actions[0]);
      SystemSteps(w, c, Step(w, s, actions[0]), actions[1..]);
    }
  }
}
