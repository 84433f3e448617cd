/**
 * One registrar as a state machine: recovery, preparation, the forward steps of
 * `_publish_artifacts`, its rollback, and every point where it can fail or be killed.
 */
module Publication {
  import opened Text
  import opened Catalogs
  import opened Registry
  import opened Planning
  import opened Transactions

  /** How the next operation goes: it works, fails without effect, or fails after its effect. */
  datatype Event = Ok | Fail | Late

  datatype Outcome = Registered | Unchanged | Rejected | RolledBack | Broken | Busy | Killed

  /** Locals of `_publish_artifacts`; `entry` is the tree it was called on. */
  datatype Job = Job(tx: Tx, entry: Disk, installed: seq<Path>, committed: bool)

  datatype Phase =
    | Waiting                          // has not taken the lock
    | Recovering                       // _recover_publication_marker
    | Preparing                        // loading, planning and snapshot validation
    | Staging(job: Job)                // writing temporary files
    | Marking(job: Job)                // _install_publication_marker
    | Installing(job: Job, next: nat)  // replacing artifact `next`
    | Committing(job: Job)             // replacing the catalog
    | Validating(job: Job)             // SchemaRegistry on the new catalog
    | Clearing(job: Job)               // unlinking the marker
    | RestoringCatalog(job: Job)       // rollback: the old catalog
    | Removing(job: Job, left: nat)    // rollback: artifacts in reverse
    | Unmarking(job: Job)              // rollback: the marker decision
    | Ended(outcome: Outcome)

  datatype State = State(disk: Disk, phase: Phase)

  predicate Active(ph: Phase) { !ph.Waiting? && !ph.Ended? }

  function Undo(j: Job): Phase
  {
    if j.committed then RestoringCatalog(j) else Removing(j, |j.installed|)
  }

  function Stage(ph: Phase): nat
  {
    match ph
    case Waiting => 0
    case Ended(_) => 0
    case Unmarking(_) => 1
    case Removing(_, _) => 2
    case RestoringCatalog(_) => 3
    case Clearing(_) => 4
    case Validating(_) => 5
    case Committing(_) => 6
    case Installing(_, _) => 7
    case Marking(_) => 8
    case Staging(_) => 9
    case Preparing => 10
    case Recovering => 11
  }

  function Inner(ph: Phase): nat
  {
    match ph
    case Installing(j, i) => if i <= |j.tx.artifacts| then |j.tx.artifacts| - i else 0
    case Removing(_, k) => k
    case _ => 0
  }

  predicate Below(a: Phase, b: Phase)
  {
    Stage(a) < Stage(b) || (Stage(a) == Stage(b) && Inner(a) < Inner(b))
  }

  function Without(files: Files, p: Path): (r: Files) { files - {p} }

  /** `_recover_publication_marker`. */
  function RecoverStep(w: World, d: Disk, ev: Event): (r: State)
    ensures Below(r.phase, Recovering)
  {
    if d.marker.None? then State(d, Preparing)
    else if !RegistryOK(w, d) then State(d, Ended(Rejected))
    else
      var m := d.marker.value;
      var digest := CatalogDigest(w, d.catalog);
      if digest == m.newSha || !(exists p | p in MarkerPaths(m) :: IsOrphan(d, p)) then
        match ev
        case Ok => State(d.(marker := None), Preparing)
        case Fail => State(d, Ended(Rejected))
        case Late => State(d.(marker := None), Ended(Rejected))
      else State(d, Preparing)
  }

  function PrepareStep(w: World, d: Disk, request: Request, ev: Event): (r: State)
    ensures Below(r.phase, Preparing)
  {
    if !ev.Ok? then State(d, Ended(Rejected))
    else
      match MakePlan(w, d, request)
      case Refuse => State(d, Ended(Rejected))
      case Replay => State(d, Ended(Unchanged))
      case Publish(tx) =>
        if Admits(w, d, tx) then State(d, Staging(Job(tx, d, [], false))) else State(d, Ended(Rejected))
  }

  function StageStep(d: Disk, j: Job, ev: Event): (r: State)
    ensures Below(r.phase, Staging(j))
  {
    State(d, if ev.Ok? then Marking(j) else Undo(j))
  }

  /** `_install_publication_marker`. */
  function MarkStep(d: Disk, j: Job, ev: Event): (r: State)
    ensures Below(r.phase, Marking(j))
  {
    if ev.Fail? || (d.marker.Some? && d.marker.value != j.tx.marker) then State(d, Undo(j))
    else State(d.(marker := Some(j.tx.marker)), if ev.Ok? then Installing(j, 0) else Undo(j))
  }

  /** One iteration of the install loop; an artifact already in place was never staged. */
  function InstallStep(d: Disk, j: Job, i: nat, ev: Event): (r: State)
    ensures Below(r.phase, Installing(j, i))
  {
    if i >= |j.tx.artifacts| then State(d, Committing(j))
    else
      var a := j.tx.artifacts[i];
      if a.path in j.entry.files then State(d, Installing(j, i + 1))
      else if ev.Fail? then State(d, Undo(j))
      else
        var job := j.(installed := j.installed + [a.path]);
        State(d.(files := d.files[a.path := a.contents]), if ev.Ok? then Installing(job, i + 1) else Undo(job))
  }

  function CommitStep(d: Disk, j: Job, ev: Event): (r: State)
    ensures Below(r.phase, Committing(j))
  {
    if ev.Fail? then State(d, Undo(j))
    else
      var job := j.(committed := true);
      State(d.(catalog := j.tx.target), if ev.Ok? then Validating(job) else Undo(job))
  }

  function ValidateStep(w: World, d: Disk, j: Job, ev: Event): (r: State)
    ensures Below(r.phase, Validating(j))
  {
    if ev.Ok? && RegistryOK(w, d) && (j.tx.graph ==> GraphRuns(w, d.catalog, d.files))
    then State(d, Clearing(j)) else State(d, Undo(j))
  }

  function ClearStep(d: Disk, j: Job, ev: Event): (r: State)
    ensures Below(r.phase, Clearing(j))
  {
    if ev.Fail? || d.marker.None? then State(d, Undo(j))
    else State(d.(marker := None), if ev.Ok? then Ended(Registered) else Undo(j))
  }

  function RestoreStep(d: Disk, j: Job, ev: Event): (r: State)
    ensures Below(r.phase, RestoringCatalog(j))
  {
    if ev.Fail? then State(d, Ended(Broken))
    else State(d.(catalog := j.tx.original), if ev.Ok? then Removing(j, |j.installed|) else Ended(Broken))
  }

  function RemoveStep(d: Disk, j: Job, k: nat, ev: Event): (r: State)
    ensures Below(r.phase, Removing(j, k))
  {
    if k == 0 || k > |j.installed| then State(d, Unmarking(j))
    else if ev.Fail? then State(d, Ended(Broken))
    else State(d.(files := Without(d.files, j.installed[k - 1])), if ev.Ok? then Removing(j, k - 1) else Ended(Broken))
  }

  function UnmarkStep(d: Disk, j: Job, ev: Event): (r: State)
    ensures Below(r.phase, Unmarking(j))
  {
    if HasUnpublished(d, j.tx.artifacts, CatalogPaths(j.entry.catalog)) then State(d, Ended(RolledBack))
    else if ev.Fail? then State(d, Ended(Broken))
    else State(d.(marker := None), if ev.Ok? then Ended(RolledBack) else Ended(Broken))
  }

  /** Whatever happens, a step of an active registrar brings it closer to its end. */
  function Next(w: World, request: Request, s: State, ev: Event): (r: State)
    ensures Active(s.phase) ==> Below(r.phase, s.phase)
  {
    var d := s.disk;
    match s.phase
    case Waiting => s
    case Ended(_) => s
    case Recovering => RecoverStep(w, d, ev)
    case Preparing => PrepareStep(w, d, request, ev)
    case Staging(j) => StageStep(d, j, ev)
    case Marking(j) => MarkStep(d, j, ev)
    case Installing(j, i) => InstallStep(d, j, i, ev)
    case Committing(j) => CommitStep(d, j, ev)
    case Validating(j) => ValidateStep(w, d, j, ev)
    case Clearing(j) => ClearStep(d, j, ev)
    case RestoringCatalog(j) => RestoreStep(d, j, ev)
    case Removing(j, k) => RemoveStep(d, j, k, ev)
    case Unmarking(j) => UnmarkStep(d, j, ev)
  }

  /** A run under a script of events; a kill at any point is a script that simply stops. */
  function Run(w: World, request: Request, s: State, script: seq<Event>): (r: State)
    decreases |script|
  {
    if script == [] then s else Run(w, request, Next(w, request, s, script[0]), script[1..])
  }

  lemma {:induction false} RunSnoc(w: World, request: Request, s: State, script: seq<Event>, ev: Event)
    ensures Run(w, request, s, script + [ev]) == Next(w, request, Run(w, request, s, script), ev)
    decreases |script|
  {
    if script == [] {
      assert script + [ev] == [ev];
      assert Run(w, request, Next(w, request, s, ev), [ev][1..]) == Next(w, request, s, ev);
    } else {
      RunSnoc(w, request, Next(w, request, s, script[0]), script[1..], ev);
      assert (script + [ev])[1..] == script[1..] + [ev];
    }
  }

  /** The uninterrupted, fault-free run. */
  function Finish(w: World, request: Request, s: State): (r: State)
    decreases Stage(s.phase), Inner(s.phase)
  {
    if !Active(s.phase) then s
    else Finish(w, request, Next(w, request, s, Ok))
  }

  lemma FinishStep(w: World, request: Request, s: State)
    ensures Active(s.phase) ==> Finish(w, request, s) == Finish(w, request, Next(w, request, s, Ok))
    ensures !Active(s.phase) ==> Finish(w, request, s) == s
  {
  }

  /** Which step function each rollback phase runs. */
  lemma RollbackDispatch(w: World, request: Request, d: Disk, j: Job, k: nat, ev: Event)
    ensures Next(w, request, State(d, Clearing(j)), ev) == ClearStep(d, j, ev)
    ensures Next(w, request, State(d, RestoringCatalog(j)), ev) == RestoreStep(d, j, ev)
    ensures Next(w, request, State(d, Removing(j, k)), ev) == RemoveStep(d, j, k, ev)
    ensures Next(w, request, State(d, Unmarking(j)), ev) == UnmarkStep(d, j, ev)
  {
    hide ClearStep, RestoreStep, RemoveStep, UnmarkStep, RecoverStep, PrepareStep;
  }

  lemma {:induction false} RunAppend(w: World, request: Request, s: State, a: seq<Event>, b: seq<Event>)
    ensures Run(w, request, s, a + b) == Run(w, request, Run(w, request, s, a), b)
    decreases |b|
  {
    hide Next, Run;
    if b == [] {
      assert a + b == a;
      RunNothing(w, request, Run(w, request, s, a));
    } else {
      var n := |b| - 1;
      RunAppend(w, request, s, a, b[..n]);
      RunSnoc(w, request, s, a + b[..n], b[n]);
      RunSnoc(w, request, Run(w, request, s, a), b[..n], b[n]);
      assert a + b == a + b[..n] + [b[n]] && b == b[..n] + [b[n]];
    }
  }

  lemma OpeningDispatch(w: World, request: Request, d: Disk, ev: Event)
    ensures Next(w, request, State(d, Recovering), ev) == RecoverStep(w, d, ev)
    ensures Next(w, request, State(d, Preparing), ev) == PrepareStep(w, d, request, ev)
  {
  }

  lemma RunNothing(w: World, request: Request, s: State)
    ensures Run(w, request, s, []) == s
  {
  }

  /** Which step function each forward phase runs. */
  lemma ForwardDispatch(w: World, request: Request, d: Disk, j: Job, i: nat, ev: Event)
    ensures Next(w, request, State(d, Staging(j)), ev) == StageStep(d, j, ev)
    ensures Next(w, request, State(d, Marking(j)), ev) == MarkStep(d, j, ev)
    ensures Next(w, request, State(d, Installing(j, i)), ev) == InstallStep(d, j, i, ev)
    ensures Next(w, request, State(d, Committing(j)), ev) == CommitStep(d, j, ev)
    ensures Next(w, request, State(d, Validating(j)), ev) == ValidateStep(w, d, j, ev)
    ensures Next(w, request, State(d, Clearing(j)), ev) == ClearStep(d, j, ev)
  {
    hide StageStep, MarkStep, InstallStep, CommitStep, ValidateStep, ClearStep, RecoverStep, PrepareStep;
  }

  /** A script in which nothing fails. */
  function Oks(n: nat): (script: seq<Event>) { if n == 0 then [] else [Ok] + Oks(n - 1) }

  lemma RunOks(w: World, request: Request, s: State, n: nat)
    ensures Run(w, request, s, Oks(n + 1)) == Run(w, request, Next(w, request, s, Ok), Oks(n))
    ensures Run(w, request, s, Oks(0)) == s
  {
    hide Next;
    assert Oks(n + 1)[1..] == Oks(n);
  }
}
