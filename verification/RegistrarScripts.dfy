/** What a process does when nothing fails: its steps follow its run from recovery on. */
module RegistrarScripts {
  import opened Text
  import opened Catalogs
  import opened Registry
  import opened Planning
  import opened Transactions
  import opened Publication
  import opened CrashSafety
  import opened Convergence
  import opened Registrars

  // ---------------------------------------------------------------- undisturbed steps

  /** The process at `p` makes `n` steps in which nothing fails. */
  function Advances(p: nat, n: nat): (actions: seq<Action>)
  {
    if n == 0 then [] else [Advance(p, Ok)] + Advances(p, n - 1)
  }

  lemma {:induction false} StepsAppend(w: World, s: System, a: seq<Action>, b: seq<Action>)
    ensures Steps(w, s, a + b) == Steps(w, Steps(w, s, a), b)
    decreases |a|
  {
    hide Step;
    if a == [] {
      assert a + b == b;
    } else {
      assert (a + b)[0] == a[0] && (a + b)[1..] == a[1..] + b;
      StepsAppend(w, Step(w, s, a[0]), a[1..], b);
    }
  }

  lemma OneStep(w: World, s: System, a: Action)
    ensures Steps(w, s, [a]) == Step(w, s, a)
  {
    hide Step;
    assert [a][1..] == [];
    assert Steps(w, Step(w, s, a), []) == Step(w, s, a);
  }

  /** No action of the script is a fault. */
  predicate Faultless(actions: seq<Action>)
  {
    forall i | 0 <= i < |actions| :: actions[i].Advance? ==> actions[i].ev.Ok?
  }

  lemma {:induction false} FaultlessIsAdmissible(w: World, s: System, actions: seq<Action>)
    requires Faultless(actions)
    ensures AdmissibleActions(w, s, actions)
    decreases |actions|
  {
    hide Step;
    if actions != [] {
      assert forall i | 0 <= i < |actions| - 1 :: actions[1..][i] == actions[i + 1];
      FaultlessIsAdmissible(w, Step(w, s, actions[0]), actions[1..]);
    }
  }

  lemma {:induction false} AdvancesFaultless(p: nat, n: nat)
    ensures Faultless(Advances(p, n))
  {
    if n > 0 {
      AdvancesFaultless(p, n - 1);
    }
  }

  /** The tree, lock and process after a process inside the lock has followed a run. */
  ghost predicate Follows(s: System, p: nat, r: State, t: System)
  {
    && p < |s.procs| == |t.procs|
    && t.disk == r.disk
    && t.holder == (if Active(r.phase) then Some(p) else None)
    && t.procs == s.procs[p := s.procs[p].(phase := r.phase)]
  }

  lemma FollowsOne(w: World, s: System, p: nat)
    requires s.holder == Some(p) && p < |s.procs| && Active(s.procs[p].phase)
    ensures Follows(s, p, Next(w, s.procs[p].request, State(s.disk, s.procs[p].phase), Ok), Step(w, s, Advance(p, Ok)))
  {
    hide Next, LogAfter;
  }

  /** Every state of the run before its end is active. */
  ghost predicate StaysActive(w: World, request: Request, s: State, n: nat)
    decreases n
  {
    n > 0 ==> Active(s.phase) && StaysActive(w, request, Next(w, request, s, Ok), n - 1)
  }

  lemma {:induction false} AdvancesFollow(w: World, s: System, p: nat, n: nat)
    requires p < |s.procs| && s.holder == (if Active(s.procs[p].phase) then Some(p) else None)
    requires StaysActive(w, s.procs[p].request, State(s.disk, s.procs[p].phase), n)
    ensures Follows(s, p, Run(w, s.procs[p].request, State(s.disk, s.procs[p].phase), Oks(n)),
                    Steps(w, s, Advances(p, n)))
    decreases n
  {
    hide Next, Run, Oks, Step;
    var request, start := s.procs[p].request, State(s.disk, s.procs[p].phase);
    if n == 0 {
      RunOks(w, request, start, 0);
    } else {
      RunOks(w, request, start, n - 1);
      FollowsOne(w, s, p);
      var t := Step(w, s, Advance(p, Ok));
      AdvancesFollow(w, t, p, n - 1);
      assert Advances(p, n)[1..] == Advances(p, n - 1);
    }
  }

  /** A process takes the free lock and follows its run from recovery on. */
  lemma BeginFollows(w: World, s: System, p: nat, n: nat)
    requires p < |s.procs| && s.procs[p].phase.Waiting? && s.holder.None?
    requires StaysActive(w, s.procs[p].request, Attempt(s.disk), n)
    ensures Follows(s, p, Run(w, s.procs[p].request, Attempt(s.disk), Oks(n)), Steps(w, s, [Begin(p)] + Advances(p, n)))
  {
    hide Next, Run, StaysActive;
    var t := Step(w, s, Begin(p));
    OneStep(w, s, Begin(p));
    StepsAppend(w, s, [Begin(p)], Advances(p, n));
    AdvancesFollow(w, t, p, n);
  }

  // ---------------------------------------------------------------- two runs, step by step

  /** The tree after the marker and the first artifact. */
  function AfterFirst(d: Disk, tx: Tx): Disk
    requires tx.artifacts != []
  {
    Disk(d.catalog, d.files[tx.artifacts[0].path := tx.artifacts[0].contents], Some(tx.marker))
  }

  lemma OneMore(w: World, request: Request, s: State, n: nat)
    requires Active(s.phase) && StaysActive(w, request, Next(w, request, s, Ok), n)
    ensures StaysActive(w, request, s, n + 1)
    ensures Run(w, request, s, Oks(n + 1)) == Run(w, request, Next(w, request, s, Ok), Oks(n))
  {
    hide Next, Run, Oks;
    RunOks(w, request, s, n);
  }

  lemma NoMore(w: World, request: Request, s: State)
    ensures StaysActive(w, request, s, 0) && Run(w, request, s, Oks(0)) == s
  {
    RunOks(w, request, s, 0);
  }

  lemma PublicationOpens(w: World, request: Request, d: Disk, tx: Tx)
    requires d.marker.None? && MakePlan(w, d, request) == Publish(tx) && Admits(w, d, tx)
    ensures var j := Job(tx, d, [], false);
            && Next(w, request, Attempt(d), Ok) == State(d, Preparing)
            && Next(w, request, State(d, Preparing), Ok) == State(d, Staging(j))
            && Next(w, request, State(d, Staging(j)), Ok) == State(d, Marking(j))
            && Next(w, request, State(d, Marking(j)), Ok) == State(d.(marker := Some(tx.marker)), Installing(j, 0))
  {
    hide MakePlan, Admits, Next, RegistryOK;
    OpeningDispatch(w, request, d, Ok);
    ForwardDispatch(w, request, d, Job(tx, d, [], false), 0, Ok);
  }

  lemma FirstInstalled(w: World, request: Request, d: Disk, tx: Tx)
    requires tx.artifacts != [] && tx.artifacts[0].path !in d.files
    ensures var r := Next(w, request, State(d.(marker := Some(tx.marker)), Installing(Job(tx, d, [], false), 0)), Ok);
            r.disk == AfterFirst(d, tx) && Active(r.phase)
  {
    hide Next;
    ForwardDispatch(w, request, d.(marker := Some(tx.marker)), Job(tx, d, [], false), 0, Ok);
  }

  /** Recovery, preparation, staging, the marker and the first artifact. */
  lemma FiveSteps(w: World, request: Request, d: Disk, tx: Tx)
    requires Start(w, request, d, tx) && tx.artifacts != [] && tx.artifacts[0].path !in d.files
    ensures StaysActive(w, request, Attempt(d), 5)
    ensures var r := Run(w, request, Attempt(d), Oks(5)); r.disk == AfterFirst(d, tx) && Active(r.phase)
  {
    hide RegistryOK, MakePlan, Admits, Next, Run, StaysActive, Oks, CollisionFree, AfterFirst;
    var j := Job(tx, d, [], false);
    var marked := State(d.(marker := Some(tx.marker)), Installing(j, 0));
    PublicationOpens(w, request, d, tx);
    FirstInstalled(w, request, d, tx);
    NoMore(w, request, Next(w, request, marked, Ok));
    OneMore(w, request, marked, 0);
    OneMore(w, request, State(d, Marking(j)), 1);
    OneMore(w, request, State(d, Staging(j)), 2);
    OneMore(w, request, State(d, Preparing), 3);
    OneMore(w, request, Attempt(d), 4);
  }

  lemma HazardOpens(w: World, request: Request, d: Disk, tx: Tx)
    requires TxFits(w, d, tx) && Hazard(d, tx)
    requires MakePlan(w, d, request) == Publish(tx) && Admits(w, d, tx)
    ensures var j := Job(tx, d, [], false);
            && Next(w, request, Attempt(d), Ok) == State(d, Preparing)
            && Next(w, request, State(d, Preparing), Ok) == State(d, Staging(j))
            && Next(w, request, State(d, Staging(j)), Ok) == State(d, Marking(j))
            && Next(w, request, State(d, Marking(j)), Ok) == State(d, Removing(j, 0))
  {
    hide MakePlan, Admits, Next, TxFits, RecoverStep, Unpublished, HasUnpublished;
    RecoveryKeepsMarker(w, d, tx);
    OpeningDispatch(w, request, d, Ok);
    ForwardDispatch(w, request, d, Job(tx, d, [], false), 0, Ok);
  }

  lemma HazardCloses(w: World, request: Request, d: Disk, tx: Tx)
    requires Hazard(d, tx)
    ensures var j := Job(tx, d, [], false);
            && Next(w, request, State(d, Removing(j, 0)), Ok) == State(d, Unmarking(j))
            && Next(w, request, State(d, Unmarking(j)), Ok) == State(d.(marker := None), Ended(RolledBack))
  {
    hide Next, HasUnpublished, CatalogPaths;
    RollbackDispatch(w, request, d, Job(tx, d, [], false), 0, Ok);
  }

  /** A publication begun in the hazard: the foreign marker stops it and its rollback deletes that marker. */
  lemma HazardSteps(w: World, request: Request, d: Disk, tx: Tx)
    requires TxFits(w, d, tx) && Hazard(d, tx)
    requires MakePlan(w, d, request) == Publish(tx) && Admits(w, d, tx)
    ensures StaysActive(w, request, Attempt(d), 6)
    ensures Run(w, request, Attempt(d), Oks(6)) == State(d.(marker := None), Ended(RolledBack))
  {
    hide MakePlan, Admits, Next, Run, StaysActive, Oks, TxFits, Hazard;
    var j := Job(tx, d, [], false);
    HazardOpens(w, request, d, tx);
    HazardCloses(w, request, d, tx);
    NoMore(w, request, State(d.(marker := None), Ended(RolledBack)));
    OneMore(w, request, State(d, Unmarking(j)), 0);
    OneMore(w, request, State(d, Removing(j, 0)), 1);
    OneMore(w, request, State(d, Marking(j)), 2);
    OneMore(w, request, State(d, Staging(j)), 3);
    OneMore(w, request, State(d, Preparing), 4);
    OneMore(w, request, Attempt(d), 5);
  }

  lemma RecoveryKeepsMarker(w: World, d: Disk, tx: Tx)
    requires TxFits(w, d, tx) && d.marker.Some?
    ensures RecoverStep(w, d, Ok) == State(d, Preparing)
  {
    hide CatalogOK, Pinned, Accepted, MarkerOK, SchemaClosed, CatalogPaths, SchemaPaths;
  }

  lemma FirstInFlight(w: World, e: Disk, tx: Tx)
    requires TxFits(w, e, tx) && e.marker.None? && tx.artifacts[0].path !in e.files
    ensures InFlight(e, tx, AfterFirst(e, tx))
  {
    hide RegistryOK, TreeOK, CatalogPaths, SchemaPaths, MarkerMatches, Contents;
    FullKeepsEntry(w, e, tx);
    ContentsAt(tx.artifacts, tx.artifacts[0]);
    assert Between(e.files, AfterFirst(e, tx).files, FullFiles(e.files, tx));
  }

  lemma MarkedByFirst(w: World, e: Disk, tx: Tx)
    requires TxFits(w, e, tx) && IsOrphan(AfterFirst(e, tx), tx.artifacts[0].path)
    ensures Recovered(w, AfterFirst(e, tx)) && tx.artifacts[0].path in MarkerPaths(tx.marker)
  {
    hide RegistryOK, TreeOK, CatalogPaths, SchemaPaths, Contents;
    MarkerNamesArtifacts(w, tx);
    assert tx.artifacts[0] in tx.artifacts;
  }

  lemma {:induction false} FinishIsRun(w: World, request: Request, s: State) returns (n: nat)
    ensures StaysActive(w, request, s, n) && Run(w, request, s, Oks(n)) == Finish(w, request, s)
    decreases Stage(s.phase), Inner(s.phase)
  {
    hide Next, Run, Oks, StaysActive;
    if Active(s.phase) {
      var m := FinishIsRun(w, request, Next(w, request, s, Ok));
      OneMore(w, request, s, m);
      n := m + 1;
    } else {
      NoMore(w, request, s);
      n := 0;
    }
  }

  /** A registrar that finds the lock free and is left alone publishes its request. */
  lemma UndisturbedRegistration(w: World, s: System, p: nat, tx: Tx) returns (n: nat)
    requires p < |s.procs| && s.procs[p].phase.Waiting? && s.holder.None? && Start(w, s.procs[p].request, s.disk, tx)
    ensures AdmissibleActions(w, s, [Begin(p)] + Advances(p, n))
    ensures Steps(w, s, [Begin(p)] + Advances(p, n)).disk == PublishedDisk(s.disk, tx)
  {
    hide Run, Next, Finish, StaysActive, Oks, Steps, Start, AdmissibleActions, Advances, Attempts, PublishedDisk;
    var request := s.procs[p].request;
    n := FinishIsRun(w, request, Attempt(s.disk));
    RetriesConverge(w, request, s.disk, tx, []);
    BeginFollows(w, s, p, n);
    AdvancesFaultless(p, n);
    FaultlessIsAdmissible(w, s, [Begin(p)] + Advances(p, n));
  }
}
