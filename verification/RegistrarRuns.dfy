/** What holds in every interleaving of registrars: exclusion, serialisability, finality, coverage. */
module RegistrarRuns {
  import opened Text
  import opened Catalogs
  import opened Registry
  import opened Planning
  import opened Transactions
  import opened Publication
  import opened PublicationRuns
  import opened Convergence
  import opened Registrars

  /** A valid tree without a marker, and no process inside the lock. */
  ghost predicate Initial(w: World, s: System)
  {
    && RegistryOK(w, s.disk)
    && s.disk.marker.None?
    && s.holder.None?
    && s.log == []
    && forall p | 0 <= p < |s.procs| :: !Active(s.procs[p].phase)
  }

  lemma InitialOK(w: World, s: System)
    requires Initial(w, s)
    ensures SystemOK(w, s.disk.catalog, s)
  {
  }

  // ---------------------------------------------------------------- exclusion and serialisability

  /** Only the process inside the lock changes the tree or the log. */
  lemma OnlyTheHolderWrites(w: World, c: Catalog, s: System, a: Action)
    requires SystemOK(w, c, s)
    requires Step(w, s, a).disk != s.disk || Step(w, s, a).log != s.log
    ensures a.Advance? && s.holder == Some(a.p)
  {
    hide TreeOK, Serial, Inside, Next;
  }

  /**
   * Serialisability: in every interleaving of any number of registrars, with faults and kills
   * anywhere, at most one process is inside the lock, the registry accepts the tree, and the catalog
   * is the serial application of the committed requests in commit order.
   */
  lemma EveryInterleavingIsSerial(w: World, s: System, actions: seq<Action>)
    requires CollisionFree(w) && Initial(w, s) && AdmissibleActions(w, s, actions)
    ensures var t := Steps(w, s, actions);
            && Exclusive(t)
            && RegistryOK(w, t.disk)
            && t.disk.catalog == Serial(w, s.disk.catalog, t.log)
  {
    hide CollisionFree, Initial, AdmissibleActions, Steps;
    InitialOK(w, s);
    SystemSteps(w, s.disk.catalog, s, actions);
    SystemParts(w, s.disk.catalog, Steps(w, s, actions));
  }

  lemma SystemParts(w: World, c: Catalog, s: System)
    requires SystemOK(w, c, s)
    ensures Exclusive(s) && TreeOK(w, s.disk) && RegistryOK(w, s.disk) && s.disk.catalog == Serial(w, c, s.log)
  {
  }

  // ---------------------------------------------------------------- finality

  predicate HolderCommitted(s: System)
  {
    s.holder.Some? && s.holder.value < |s.procs| && Committed(s.procs[s.holder.value].phase)
  }

  /** The part of the log no running rollback can take back. */
  function Settled(s: System): (log: seq<Request>)
  {
    if HolderCommitted(s) && s.log != [] then s.log[..|s.log| - 1] else s.log
  }

  lemma PhasesMove(w: World, c: Catalog, s: System, p: nat, ev: Event)
    requires SystemOK(w, c, s) && p < |s.procs| && Active(s.procs[p].phase)
    ensures var ph := s.procs[p].phase;
            var t := Next(w, s.procs[p].request, State(s.disk, ph), ev);
            && s.holder == Some(p)
            && (Committed(t.phase) ==> Committed(ph) || (ph.Committing? && !ev.Fail?))
            && (Committed(t.phase) ==> !ph.RestoringCatalog?)
            && (Committed(ph) ==> s.log != [])
  {
    hide TreeOK, Serial, Next, TxFits, PubInv, CatalogAfter, Recovered;
    var pr := s.procs[p];
    if JobOf(pr.phase).Some? {
      var j := JobOf(pr.phase).value;
      CatalogMoves(w, pr.request, State(s.disk, pr.phase), ev);
      if Early(pr.phase) {
        EarlyIsUncommitted(j.entry, j.tx, State(s.disk, pr.phase));
      }
    } else if pr.phase.Recovering? {
      OpeningDispatch(w, pr.request, s.disk, ev);
      RecoveryEnds(w, s.disk, ev);
    } else {
      OpeningDispatch(w, pr.request, s.disk, ev);
      PreparationEnds(w, s.disk, pr.request, ev);
    }
  }

  lemma PreparationEnds(w: World, d: Disk, request: Request, ev: Event)
    ensures var ph := PrepareStep(w, d, request, ev).phase;
            ph.Staging? || ph == Ended(Rejected) || ph == Ended(Unchanged)
  {
  }

  lemma SettledGrows(w: World, c: Catalog, s: System, a: Action)
    requires SystemOK(w, c, s)
    ensures Settled(s) <= Settled(Step(w, s, a))
  {
    hide TreeOK, Serial, Next, Inside;
    if a.Advance? && a.p < |s.procs| && Active(s.procs[a.p].phase) {
      PhasesMove(w, c, s, a.p, a.ev);
    }
  }

  lemma {:induction false} SettledGrowsOverRuns(w: World, c: Catalog, s: System, actions: seq<Action>)
    requires CollisionFree(w) && SystemOK(w, c, s) && AdmissibleActions(w, s, actions)
    ensures Settled(s) <= Settled(Steps(w, s, actions))
    decreases |actions|
  {
    hide SystemOK, CollisionFree, Step, Settled;
    if actions != [] {
      var t := Step(w, s, actions[0]);
      SystemStep(w, c, s, actions[0]);
      SettledGrows(w, c, s, actions[0]);
      SettledGrowsOverRuns(w, c, t, actions[1..]);
    }
  }

  /**
   * A committed catalog is final once its registrar has left the lock, however it left: whatever
   * happens later, the requests committed so far stay a prefix of the committed requests.
   */
  lemma CommitsAreFinal(w: World, c: Catalog, s: System, actions: seq<Action>)
    requires CollisionFree(w) && SystemOK(w, c, s) && s.holder.None? && AdmissibleActions(w, s, actions)
    ensures s.log <= Steps(w, s, actions).log
  {
    hide SystemOK, CollisionFree, AdmissibleActions, Steps;
    SettledGrowsOverRuns(w, c, s, actions);
  }

  /** Every registrar that reported success has its request among the committed ones for good. */
  ghost predicate SuccessesLogged(s: System)
  {
    forall p | 0 <= p < |s.procs| && s.procs[p].phase == Ended(Registered) :: s.procs[p].request in Settled(s)
  }

  lemma RegisteredFromClearing(w: World, request: Request, s: State, ev: Event)
    requires Active(s.phase) && Next(w, request, s, ev).phase == Ended(Registered)
    ensures s.phase.Clearing? && ev.Ok?
  {
    hide RegistryOK, MakePlan, Admits, HasUnpublished, GraphRuns, MarkerPaths, IsOrphan;
  }

  lemma SuccessLogged(w: World, c: Catalog, s: System, p: nat, ev: Event)
    requires SystemOK(w, c, s) && p < |s.procs| && Active(s.procs[p].phase)
    ensures var t := Step(w, s, Advance(p, ev));
            t.procs[p].phase == Ended(Registered) ==> t.procs[p].request in Settled(t)
  {
    hide TreeOK, Serial, Next, TxFits, PubInv, CatalogAfter, Recovered;
    var pr := s.procs[p];
    if Next(w, pr.request, State(s.disk, pr.phase), ev).phase == Ended(Registered) {
      RegisteredFromClearing(w, pr.request, State(s.disk, pr.phase), ev);
      PhasesMove(w, c, s, p, ev);
    }
  }

  lemma SuccessesStayLogged(w: World, c: Catalog, s: System, a: Action)
    requires SystemOK(w, c, s) && SuccessesLogged(s)
    ensures SuccessesLogged(Step(w, s, a))
  {
    hide TreeOK, Serial, Next, Inside, Settled;
    var t := Step(w, s, a);
    SettledGrows(w, c, s, a);
    if a.Advance? && a.p < |s.procs| && Active(s.procs[a.p].phase) {
      SuccessLogged(w, c, s, a.p, a.ev);
    }
    forall p | 0 <= p < |t.procs| && t.procs[p].phase == Ended(Registered)
      ensures t.procs[p].request in Settled(t)
    {
      if p < |s.procs| && s.procs[p] == t.procs[p] {
        assert s.procs[p].request in Settled(s);
      }
    }
  }

  lemma {:induction false} SuccessesAreCommitted(w: World, c: Catalog, s: System, actions: seq<Action>)
    requires CollisionFree(w) && SystemOK(w, c, s) && SuccessesLogged(s) && AdmissibleActions(w, s, actions)
    ensures SuccessesLogged(Steps(w, s, actions))
    decreases |actions|
  {
    hide SystemOK, CollisionFree, Step, SuccessesLogged;
    if actions != [] {
      SystemStep(w, c, s, actions[0]);
      SuccessesStayLogged(w, c, s, actions[0]);
      SuccessesAreCommitted(w, c, Step(w, s, actions[0]), actions[1..]);
    }
  }
}
