/** What a registrar that finds no marker reports, and what a published request leaves in the catalog. */
module AnsweredRuns {
  import opened Text
  import opened Catalogs
  import opened Registry
  import opened Planning
  import opened Transactions
  import opened Publication
  import opened Convergence
  import opened Answers
  import opened EvolutionParts
  import opened EvolutionAnswers

  /** Undisturbed, a refused request is rejected and a replayed one reported unchanged; neither touches the tree. */
  lemma AnswerIsReported(w: World, request: Request, d: Disk)
    requires d.marker.None? && !MakePlan(w, d, request).Publish?
    ensures Finish(w, request, Attempt(d))
         == State(d, Ended(if MakePlan(w, d, request).Replay? then Unchanged else Rejected))
  {
    hide MakePlan, Next, Finish, RegistryOK, Admits;
    var ended := State(d, Ended(if MakePlan(w, d, request).Replay? then Unchanged else Rejected));
    OpeningDispatch(w, request, d, Ok);
    FinishStep(w, request, Attempt(d));
    FinishStep(w, request, State(d, Preparing));
    FinishStep(w, request, ended);
  }

  lemma PublishedLeaves(w: World, request: Request, d: Disk, tx: Tx)
    requires Start(w, request, d, tx)
    ensures Finish(w, request, Attempt(d)).disk == PublishedDisk(d, tx) && MakePlan(w, d, request) == Publish(tx)
  {
    hide Finish, PublishedDisk, MakePlan, RegistryOK, Admits;
    RetriesConverge(w, request, d, tx, []);
  }

  /** A single registration appends one entry, declared by the candidate. */
  lemma SingleAppends(w: World, d: Disk, c: Candidate, tx: Tx)
    requires Start(w, Single(c), d, tx)
    ensures SingleReady(w, d, c) && !HasVersion(d.catalog, c)
    ensures var after := Finish(w, Single(c), Attempt(d)).disk;
            && SingleTx(w, d, c, tx) && after.catalog == tx.target && after.marker.None?
            && after.files == d.files[c.artifactPath := c.contents]
  {
    hide Finish, MakePlan, RegistryOK, Admits, SingleReady, HasVersion, SingleTx, Contents, Start;
    PublishedLeaves(w, Single(c), d, tx);
    if !SingleReady(w, d, c) {
      SingleUnready(w, d, c);
    } else if HasVersion(d.catalog, c) {
      var e := VersionEntry(d.catalog, c);
      SingleConflict(w, d, c, e);
    } else {
      SingleFresh(w, d, c, tx);
      OneFile(d.files, Artifact(c.artifactPath, c.contents, "json-schema"));
      SingleTxFiles(w, d, c, tx);
    }
  }

  lemma VersionEntry(catalog: Catalog, c: Candidate) returns (e: SchemaEntry)
    requires HasVersion(catalog, c)
    ensures e in catalog.schemas && SameVersion(e, c)
  {
    e :| e in catalog.schemas && SameVersion(e, c);
  }

  lemma SingleTxFiles(w: World, d: Disk, c: Candidate, tx: Tx)
    requires SingleTx(w, d, c, tx)
    ensures tx.artifacts == [Artifact(c.artifactPath, c.contents, "json-schema")]
  {
    hide PlainEntry;
  }

  /**
   * A published bundle appends to the old catalog exactly one entry for each version that is new, in
   * ascending order of schema id and then version string.
   */
  lemma BundleAppends(w: World, d: Disk, cs: seq<Candidate>, tx: Tx)
    requires Start(w, Bundle(cs), d, tx)
    ensures BundleReady(w, d, cs) && exists c :: c in cs && !HasVersion(d.catalog, c)
    ensures var after := Finish(w, Bundle(cs), Attempt(d)).disk;
            var n := |d.catalog.schemas|;
            && BundleTx(w, d, cs, tx) && after.catalog == tx.target && after.marker.None?
            && |after.catalog.schemas| >= n && after.catalog.schemas[..n] == d.catalog.schemas
            && NewEntries(w, d.catalog, cs, after.catalog.schemas[n..])
  {
    hide Finish, MakePlan, RegistryOK, Admits, BundleReady, HasVersion, NewEntries, BundleFiles, MarkerSays, Start;
    PublishedLeaves(w, Bundle(cs), d, tx);
    if !BundleReady(w, d, cs) {
      BundleUnready(w, d, cs);
    } else if forall c | c in cs :: HasVersion(d.catalog, c) {
      BundleReplays(w, d, cs);
    } else {
      BundleFresh(w, d, cs, tx);
    }
  }

  /** A published evolution appends its target's entry and one upcaster for each edge, in id order. */
  lemma EvolutionAppends(w: World, d: Disk, target: Candidate, edges: seq<Edge>, order: seq<Edge>, tx: Tx)
    requires Start(w, Evolution(target, edges), d, tx) && IdOrder(edges, order)
    ensures EvolutionReady(w, d, target, edges) && !HasVersion(d.catalog, target) && !IdTaken(d.catalog, edges)
    ensures var after := Finish(w, Evolution(target, edges), Attempt(d)).disk;
            EvolutionTx(w, d, target, edges, order, tx) && after.catalog == tx.target && after.marker.None?
  {
    hide Finish, MakePlan, RegistryOK, Admits, EvolutionReady, HasVersion, IdTaken, EvolutionTx, IdOrder, Start,
         GraphRuns;
    PublishedLeaves(w, Evolution(target, edges), d, tx);
    if !EvolutionReady(w, d, target, edges) {
      EvolutionUnready(w, d, target, edges);
    } else if HasVersion(d.catalog, target) {
      var x := VersionEntry(d.catalog, target);
      EvolutionConflict(w, d, target, edges, x);
    } else {
      EvolutionFresh(w, d, target, edges, order, tx);
    }
  }
}
