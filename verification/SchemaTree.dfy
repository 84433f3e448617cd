/** The schema tree as the scripts update it: in place, one operation at a time, any of which may fail. */
module SchemaTrees {
  import opened Text
  import opened Catalogs
  import opened Registry
  import opened Planning
  import opened Transactions
  import opened Publication
  import opened PublicationRuns
  import opened Convergence
  import opened Preparation

  class SchemaTree {
    var catalog: Catalog
    var files: Files
    var marker: Option<Marker>

    function Tree(): (d: Disk)
      reads this
    {
      Disk(catalog, files, marker)
    }

    constructor (d: Disk)
      ensures Tree() == d
    {
      catalog, files, marker := d.catalog, d.files, d.marker;
    }

    /** `_recover_publication_marker`: true when registration may go on. */
    method Recover(w: World) returns (ok: bool, ev: Event)
      modifies this`marker
      ensures RecoverStep(w, old(Tree()), ev) == State(Tree(), if ok then Preparing else Ended(Rejected))
      ensures TreeOK(w, old(Tree())) && ok ==> Recovered(w, Tree())
    {
      ev := *;
      ok := true;
      if marker.Some? {
        if !RegistryOK(w, Tree()) {
          return false, ev;
        }
        var m := marker.value;
        var digest := CatalogDigest(w, catalog);
        var cataloged := CatalogPaths(catalog);
        if digest == m.newSha || !(exists p | p in MarkerPaths(m) :: p !in cataloged && p in files) {
          if !ev.Fail? {
            marker := None;
          }
          ok := ev.Ok?;
        }
      }
      assert TreeOK(w, old(Tree())) && ok ==> Recovered(w, Tree()) by {
        if TreeOK(w, old(Tree())) && ok {
          RecoveryTouchesOnlyTheMarker(w, old(Tree()), ev, Ok);
        }
      }
    }

    /** `_install_publication_marker`: a different pending marker is never overwritten. */
    method InstallMarker(tx: Tx, ghost entry: Disk) returns (ok: bool, ev: Event)
      modifies this`marker
      ensures var j := Job(tx, entry, [], false);
              MarkStep(old(Tree()), j, ev) == State(Tree(), if ok then Installing(j, 0) else Undo(j))
      ensures old(marker).Some? && old(marker).value != tx.marker ==> !ok && marker == old(marker)
      ensures ok ==> marker == Some(tx.marker)
    {
      hide Undo;
      ev := *;
      ok := false;
      if marker.Some? && marker.value != tx.marker {
        return;
      }
      if ev.Fail? {
        return;
      }
      marker := Some(tx.marker);
      ok := ev.Ok?;
    }

    /** The `try` block of `_publish_artifacts` up to the last artifact. */
    method Install(w: World, ghost request: Request, tx: Tx, ghost entry: Disk, preexisting: set<Path>)
      returns (ok: bool, installed: seq<Path>, ghost script: seq<Event>)
      requires Tree() == entry
      requires forall a | a in tx.artifacts :: a.path in preexisting <==> a.path in entry.files
      modifies this
      ensures var j := Job(tx, entry, installed, false);
              Run(w, request, Begun(entry, tx), script) == State(Tree(), if ok then Committing(j) else Undo(j))
    {
      hide Run, Next, Undo, Contents, CatalogPaths;
      installed, ok := [], false;
      ghost var start := Begun(entry, tx);
      script := [];
      RunNothing(w, request, start);

      var ev: Event := *;
      ForwardDispatch(w, request, Tree(), Job(tx, entry, [], false), 0, ev);
      RunSnoc(w, request, start, script, ev);
      script := script + [ev];
      if !ev.Ok? { return; }

      ghost var before := Tree();
      var marked;
      marked, ev := InstallMarker(tx, entry);
      ForwardDispatch(w, request, before, Job(tx, entry, [], false), 0, ev);
      RunSnoc(w, request, start, script, ev);
      script := script + [ev];
      if !marked { return; }

      var i := 0;
      while i < |tx.artifacts|
        invariant 0 <= i <= |tx.artifacts|
        invariant Run(w, request, start, script) == State(Tree(), Installing(Job(tx, entry, installed, false), i))
      {
        var a := tx.artifacts[i];
        ev := *;
        ForwardDispatch(w, request, Tree(), Job(tx, entry, installed, false), i, ev);
        RunSnoc(w, request, start, script, ev);
        script := script + [ev];
        if a.path !in preexisting {
          if ev.Fail? { return; }
          files := files[a.path := a.contents];
          installed := installed + [a.path];
          if !ev.Ok? { return; }
        }
        i := i + 1;
      }
      ForwardDispatch(w, request, Tree(), Job(tx, entry, installed, false), i, Ok);
      RunSnoc(w, request, start, script, Ok);
      script := script + [Ok];
      ok := true;
    }

    /** The rest of the `try` block: the catalog, its validation, and the marker. */
    method Commit(w: World, ghost request: Request, tx: Tx, ghost entry: Disk, ghost installed: seq<Path>,
                  ghost before: seq<Event>)
      returns (done: bool, committed: bool, ghost script: seq<Event>)
      requires Run(w, request, Begun(entry, tx), before) == State(Tree(), Committing(Job(tx, entry, installed, false)))
      modifies this
      ensures Run(w, request, Begun(entry, tx), script)
           == State(Tree(), if done then Ended(Registered) else Undo(Job(tx, entry, installed, committed)))
    {
      hide Run, Next, RegistryOK, GraphRuns, Undo;
      committed, done := false, false;
      ghost var start := Begun(entry, tx);
      script := before;

      var ev: Event := *;
      ForwardDispatch(w, request, Tree(), Job(tx, entry, installed, false), 0, ev);
      RunSnoc(w, request, start, script, ev);
      script := script + [ev];
      if ev.Fail? { return; }
      catalog := tx.target;
      committed := true;
      if !ev.Ok? { return; }

      ev := *;
      ForwardDispatch(w, request, Tree(), Job(tx, entry, installed, true), 0, ev);
      RunSnoc(w, request, start, script, ev);
      script := script + [ev];
      if !ev.Ok? || !RegistryOK(w, Tree()) || (tx.graph && !GraphRuns(w, catalog, files)) { return; }

      ev := *;
      ForwardDispatch(w, request, Tree(), Job(tx, entry, installed, true), 0, ev);
      RunSnoc(w, request, start, script, ev);
      script := script + [ev];
      if ev.Fail? || marker.None? { return; }
      marker := None;
      done := ev.Ok?;
    }

    /** The `except` block of `_publish_artifacts`. */
    method RollBack(w: World, ghost request: Request, tx: Tx, ghost entry: Disk, cataloged: set<Path>,
                    installed: seq<Path>, committed: bool, ghost start: State, ghost before: seq<Event>)
      returns (finished: bool, ghost script: seq<Event>)
      requires cataloged == CatalogPaths(entry.catalog)
      requires Run(w, request, start, before) == State(Tree(), Undo(Job(tx, entry, installed, committed)))
      modifies this
      ensures Run(w, request, start, script) == State(Tree(), Ended(if finished then RolledBack else Broken))
    {
      hide Run, Next, CatalogPaths;
      ghost var j := Job(tx, entry, installed, committed);
      script, finished := before, false;
      var ev: Event := *;
      if committed {
        RollbackDispatch(w, request, Tree(), j, 0, ev);
        RunSnoc(w, request, start, script, ev);
        script := script + [ev];
        if ev.Fail? { return; }
        catalog := tx.original;
        if !ev.Ok? { return; }
      }
      var k := |installed|;
      while k > 0
        invariant 0 <= k <= |installed|
        invariant Run(w, request, start, script) == State(Tree(), Removing(j, k))
      {
        ev := *;
        RollbackDispatch(w, request, Tree(), j, k, ev);
        RunSnoc(w, request, start, script, ev);
        script := script + [ev];
        if ev.Fail? { return; }
        files := Without(files, installed[k - 1]);
        if !ev.Ok? { return; }
        k := k - 1;
      }
      RollbackDispatch(w, request, Tree(), j, 0, Ok);
      RunSnoc(w, request, start, script, Ok);
      script := script + [Ok];

      ev := *;
      RollbackDispatch(w, request, Tree(), j, 0, ev);
      RunSnoc(w, request, start, script, ev);
      script := script + [ev];
      if !(exists a | a in tx.artifacts :: a.path !in cataloged && a.path in files) {
        if ev.Fail? { return; }
        marker := None;
        if !ev.Ok? { return; }
      }
      finished := true;
    }

    /** `_publish_artifacts`. */
    method PublishArtifacts(w: World, ghost request: Request, tx: Tx)
      returns (outcome: Outcome, ghost script: seq<Event>)
      modifies this
      ensures !Admits(w, old(Tree()), tx) ==> outcome == Rejected && Tree() == old(Tree())
      ensures Admits(w, old(Tree()), tx) ==>
                Run(w, request, Begun(old(Tree()), tx), script) == State(Tree(), Ended(outcome))
      ensures outcome == Rejected ==> !Admits(w, old(Tree()), tx)
    {
      hide Run, Admits;
      script := [];
      if !Admits(w, Tree(), tx) {
        return Rejected, script;
      }
      ghost var entry := Tree();
      var preexisting := set a | a in tx.artifacts && a.path in files :: a.path;
      var cataloged := CatalogPaths(catalog);
      assert forall a | a in tx.artifacts :: a.path in preexisting <==> a.path in entry.files;
      var ok, installed;
      ok, installed, script := Install(w, request, tx, entry, preexisting);
      var done, committed := false, false;
      if ok {
        done, committed, script := Commit(w, request, tx, entry, installed, script);
      }
      if done {
        return Registered, script;
      }
      var finished;
      finished, script := RollBack(w, request, tx, entry, cataloged, installed, committed, Begun(entry, tx), script);
      outcome := if finished then RolledBack else Broken;
    }

    /** The three `_prepare` functions, on the tree as it is now. */
    method Prepare(w: World, request: Request) returns (plan: Plan)
      ensures plan == MakePlan(w, Tree(), request)
    {
      match request
      case Single(c) => plan := PlanSingle(w, Tree(), c);
      case Bundle(cs) => plan := PrepareBundle(w, Tree(), cs);
      case Evolution(target, edges) => plan := PrepareEvolution(w, Tree(), target, edges);
    }

    /** A registration under the lock: recovery, preparation, publication. */
    method Register(w: World, request: Request) returns (outcome: Outcome, ghost script: seq<Event>)
      modifies this
      ensures Run(w, request, Attempt(old(Tree())), script) == State(Tree(), Ended(outcome))
    {
      hide Run, Next, MakePlan, Admits;
      ghost var start := Attempt(Tree());
      var ok, ev := Recover(w);
      RunNothing(w, request, start);
      OpeningDispatch(w, request, start.disk, ev);
      RunSnoc(w, request, start, [], ev);
      script := [] + [ev];
      if !ok {
        return Rejected, script;
      }
      ev := *;
      OpeningDispatch(w, request, Tree(), ev);
      RunSnoc(w, request, start, script, ev);
      script := script + [ev];
      if !ev.Ok? {
        return Rejected, script;
      }
      var plan := Prepare(w, request);
      if plan.Refuse? {
        return Rejected, script;
      }
      if plan.Replay? {
        return Unchanged, script;
      }
      ghost var more;
      outcome, more := PublishArtifacts(w, request, plan.tx);
      if outcome != Rejected {
        RunAppend(w, request, start, script, more);
        script := script + more;
      }
    }
  }
}
