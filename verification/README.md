# Verified model of schema publication, immutability and release checks

This project models the parts of the repository whose correctness rests on reasoning across many
steps, and proves what they promise. `dafny verify dfyconfig.toml` checks all of it.

## What is modelled

**Schema publication.** A registration takes the lock, resolves a leftover publication marker, prepares
a transaction (one schema, a bundle, or an evolution with upcasters), validates a snapshot, and then
installs the marker, the artifacts and the catalog, validates, and unlinks the marker; any failure runs a
rollback. `Publication` is this as a state machine in which every operation works, fails without effect,
or fails after its effect, and a kill is a script of events that stops. `SchemaTrees` is the same as
methods that change a tree in place, proved to follow the machine. `Registrars` runs any number of
registrars against one tree through the lock. `Answers` and `EvolutionAnswers` say, over the fields of
request and catalog and with an order of strings of their own (`TextOrder`), when a request is refused,
unchanged or published, and as exactly which transaction.

The registry's acceptance of a tree (`Registry`) is written out from
`src/robata/contracts/schema_registry.py` and `schemas/schema-catalog.schema.json`: the patterns of pinned
paths and digests, the pins, the closure scan over `*.schema.json` files, the pending marker and the
path-count sweep over upcasters. `RegistryCheck` is the constructor's loops, proved to accept exactly those
trees. SHA-256, the catalog encoding, JSON Schema validation of documents and the execution of upcaster code
are functions of a `World`; digests are assumed collision-free only where a lemma says `CollisionFree`.
`ExampleWorlds` is a world that is, so those lemmas speak about something, and `ExampleTrees`,
`ExampleEvolution` and `ExampleRuns` hold the concrete trees and runs at which the claims below are shown.

**The immutability checker** compares two trees. Its loops are proved to decide a declarative relation,
the relation is proved to compose, and every history the registrars can produce is proved to satisfy it.

**The release manifest.** The tree listing, the `git cat-file --batch` reader and the archive verification,
and the whole of `build_release_manifest` from the listing's bytes to the archive's.

**Smaller pieces.** The two-process benchmark lifecycle under deadlines; the output-path topology check;
the F1 and agreement gates of the provider qualification; upcast route counting and route search.

## Where the code does less than it says

- **A failing publication can delete another transaction's marker.** The rollback decides about the marker
  by looking only at its own artifacts (scripts/register_schema.py:655-664). If a different marker is on
  disk and none of its own artifacts is an orphan, the publication cannot install its marker, fails, and
  its rollback unlinks the other one; the orphan that marker named is then covered by nothing.
  `Hazard` is that condition, readable from the tree and the request. `AllOrNothing` says what a finished
  rollback does to the marker in every case, `HazardUncovers` that it keeps coverage if and only if it was
  not begun in the hazard. `HazardIsReached` is a run that gets there: from a valid tree without orphans an
  evolution with one edge is killed after its code file, and a bundle that has nothing to do with it then
  fails and rolls back. It takes an orphan the closure scan does not look at (an upcaster file), so single
  and bundle registrations among themselves never meet it.
- **The final marker unlink can fail after its effect** (scripts/register_schema.py:384-391, 640). The
  rollback then runs without a marker. The theorems about whole runs exclude this one event
  (`Admissible`); `LostMarker` treats it. The completed rollback leaves a valid registry if and only if no
  scanned artifact of the transaction was already an orphan on entry. A kill during that rollback, once the
  old catalog is back, leaves a valid tree if and only if moreover no artifact still in place is scanned; so
  before the first removal it never does. From an invalid tree without marker no registration ever proceeds.
- **The blob-stream reader uses `int()`**, which also reads `-1`, `+5`, `1_0` and padded digits
  (scripts/check_release_hygiene.py:222-223). An accepted stream is the framed one if and only if its size
  tokens are canonical decimals; a stream with size -1 is accepted.
- **A bundle is not always its schemas one at a time.** A schema that refers to one sorted after it is
  published by a bundle and refused on its own (scripts/register_schema_bundle.py:323-356). The two leave the
  same tree if and only if the documents of every stage of the sequence are accepted; everything else the
  registry asks of a stage follows from the bundle. `BundleIsMoreThanItsSchemas` is a bundle where they differ.
- **A pinned path may end in a newline for the registry, not for the immutability check.** The catalog
  document's path pattern (schemas/schema-catalog.schema.json:116-153) is searched, so its `$` admits one
  final newline, while scripts/check_schema_immutability.py:167-175 matches whole segments. On registry-valid
  trees that is the only difference: histories pass the check if and only if no upcaster path of the earlier
  catalog ends in a newline, and at `"c.py\n"` a valid tree fails it even against itself.
- **Supported predecessors equal the sources of incoming edges only if they did to begin with.** The
  registry accepts entries that declare predecessors without upcasters
  (src/robata/contracts/schema_registry.py:831-901), and publishing keeps whatever relation it finds.
  `DeclaredPredecessorWithoutEdge` is such a catalog.

A failed containment assignment is bounded separately: the launcher then waits up to two seconds for the
child (scripts/run_bounded_mage_benchmark.py:370-376), so the bound proved for the begin of cleanup is the
overall deadline plus 2.0 s on that path and plus 0.01 s on every other; the end of the run is within 8.06 s
either way. All of these are for waits that return on time; `late`, the most by which a wait or a sleep may
overrun, is added explicitly, and the bound on health attempts does not depend on it.

## Model

| member | source | states |
|---|---|---|
| `Versions.VersionKeyRoundTrip` | scripts/register_schema_evolution.py:276-279 | parsing and rendering semantic versions are inverse: every key has exactly one spelling |
| `Versions.VersionKeyInjective` | scripts/register_schema_evolution.py:276-279 | two versions with the same key are the same string |
| `Preparation.PrepareItems` | scripts/register_schema_bundle.py:256-321 | the manifest loop succeeds exactly when every candidate passes its checks, and then lists them with their changed flags |
| `Preparation.SplitPrepared` | scripts/register_schema_bundle.py:324-328 | every prepared item is an artifact, only the unpublished ones become entries, in order |
| `Preparation.PrepareBundle` | scripts/register_schema_bundle.py:236-356 | the loops plan exactly the bundle transaction the lemmas are about, refusal and replay included |
| `Preparation.Collect` | scripts/register_schema_evolution.py:308-323 | adding an artifact keeps insertion order, tolerates an equal duplicate and refuses a conflicting one |
| `Preparation.CollectVectors` | scripts/register_schema_evolution.py:498-545 | all golden files of an edge are collected or the edge is refused |
| `Preparation.CollectEdge` | scripts/register_schema_evolution.py:449-563 | one edge contributes its code, runtime and golden files and exactly one proposed upcaster |
| `Preparation.CollectEdges` | scripts/register_schema_evolution.py:447-563 | the edge loop collects every edge in upcaster-id order |
| `Preparation.DecideEvolution` | scripts/register_schema_evolution.py:565-634 | replay, conflict or publication is decided as the planning function says |
| `Preparation.PrepareEvolution` | scripts/register_schema_evolution.py:367-634 | the nested loops plan exactly the evolution transaction the lemmas are about |
| `RegistryCheck.LoadEntries` | src/robata/contracts/schema_registry.py:1145-1207 | the entry loop succeeds exactly when every file has its pinned digest and artifact id and no two entries share a version, artifact id, digest, document id or path |
| `RegistryCheck.ScanTree` | src/robata/contracts/schema_registry.py:1209-1258 | the scan succeeds exactly when every scanned file is in a version directory and catalogued or pending, and every catalogued one is scanned |
| `RegistryCheck.PendingArtifacts` | src/robata/contracts/schema_registry.py:994-1057 | raises exactly on a marker that does not fit catalog and files, and else gives the files it excuses |
| `RegistryCheck.CheckPredecessors` | src/robata/contracts/schema_registry.py:831-861 | one entry's mode and predecessors are as the registry asks |
| `RegistryCheck.CheckUpcasters` | src/robata/contracts/schema_registry.py:863-901 | succeeds exactly when ids and edges are distinct and every edge raises a version and is declared; it then has the graph |
| `RegistryCheck.CheckPaths` | src/robata/contracts/schema_registry.py:903-921 | the nested counting loops, over the versions some upcaster touches, succeed exactly when no two versions are joined by two routes |
| `RegistryCheck.Construct` | src/robata/contracts/schema_registry.py:794-829 | the constructor's loops together accept exactly the trees all other theorems call valid |
| `RegistryCheck.UpcasterNameMeans` | src/robata/contracts/schema_registry.py:155-158 | the upcaster id pattern is hyphen-separated words, the first beginning with a letter |
| `Answers.SinglePlaceMeans` | scripts/register_schema.py:131-140 | which paths a single registration takes, segment by segment |
| `Answers.SchemaPlaceMeans` | scripts/register_schema_bundle.py:181-188 | which paths bundles and evolutions take for schemas, segment by segment |
| `Answers.SingleUnready` | scripts/register_schema.py:724-740 | a candidate out of place, or on a tree the registry refuses, is refused |
| `Answers.SingleConflict` | scripts/register_schema.py:756-772 | a candidate for a published version is unchanged exactly when the entry is field by field what it declares and the file has its bytes as read or normalised; else it is refused |
| `Answers.SingleFresh` | scripts/register_schema.py:774-799 | a new version is published, as exactly one appended entry, one file and the marker of both catalogs, if and only if the snapshot is valid |
| `Answers.BundleUnready` | scripts/register_schema_bundle.py:256-321 | a bundle with an item out of place, in conflict with its published version, colliding or repeated is refused |
| `Answers.BundleReplays` | scripts/register_schema_bundle.py:323-356 | a ready bundle of published versions is unchanged if and only if the tree is valid without a marker, else refused |
| `Answers.BundleFresh` | scripts/register_schema_bundle.py:323-356 | a ready bundle with a new version is published, as one entry for each new version ascending by schema id and version string and one file for each candidate ascending by path, if and only if the snapshot is valid |
| `EvolutionParts.AddAllMeans` | scripts/register_schema_evolution.py:308-323 | collecting succeeds exactly when no two files disagree about a path, and keeps the first of each path |
| `EvolutionAnswers.EvolutionUnready` | scripts/register_schema_evolution.py:394-567 | an evolution with an input out of place, disagreeing or unlike what is on disk is refused |
| `EvolutionAnswers.EvolutionConflict` | scripts/register_schema_evolution.py:569-609 | an evolution to a published version is unchanged exactly when the entry, its predecessors and every edge's upcaster are field by field what it declares and the graph runs; else it is refused |
| `EvolutionAnswers.EvolutionFresh` | scripts/register_schema_evolution.py:610-659 | a new version is published, as its entry with predecessors ascending by version, one upcaster for each edge in id order and the files in path order, if and only if no id is taken, the snapshot is valid and the graph runs |
| `AnsweredRuns.AnswerIsReported` | scripts/register_schema.py:756-772 | an undisturbed refused request is rejected and a replayed one reported unchanged, and neither touches the tree |
| `AnsweredRuns.SingleAppends` | scripts/register_schema.py:774-799 | an undisturbed single registration leaves exactly one more entry and one more file |
| `AnsweredRuns.BundleAppends` | scripts/register_schema_bundle.py:323-356 | an undisturbed bundle appends exactly one entry for each version that is new, ascending by schema id and then version string |
| `AnsweredRuns.EvolutionAppends` | scripts/register_schema_evolution.py:411-438 | an undisturbed evolution appends its target's entry and one upcaster for each edge in id order |
| `Transactions.PlanGrows` | scripts/register_schema.py:756-777 | a published request extends both catalog lists and changes the catalog digest |
| `Transactions.PlanFits` | scripts/register_schema.py:563-607 | whatever is prepared for publication fits the recovered tree: its paths are exactly the new pins, its marker names exactly its artifacts, its snapshot is valid |
| `Publication.Next` | scripts/register_schema.py:563-670 | every step of an active registrar, failing or not, brings it strictly closer to its end |
| `CrashSafety.InFlightTreeOK` | scripts/register_schema.py:609-664 | every tree a publication can leave behind is accepted by the registry |
| `CrashSafety.InFlightCovered` | scripts/register_schema.py:595-664 | every tree a publication begun outside the hazard can leave behind has all orphans covered by its marker |
| `PublicationRuns.CommittedValidates` | scripts/register_schema.py:633-639 | validation of the committed tree cannot fail by itself, the snapshot already passed it |
| `PublicationRuns.CrashLeavesValidRegistry` | scripts/register_schema.py:581-654 | stopped after any number of steps, forward or in rollback, every path the catalog names exists with its pinned bytes |
| `PublicationRuns.CrashLeavesOrphansCovered` | scripts/register_schema.py:595-664 | stopped anywhere outside the hazard, every uncatalogued file is named with its digest by a marker bound to the catalog |
| `PublicationRuns.AllOrNothing` | scripts/register_schema.py:609-670 | success means exactly new catalog, all artifacts, no marker; a finished rollback restores catalog, files and marker, except that in the hazard it deletes a foreign marker, and on an entry without marker where an own artifact already was an orphan it may leave its own; a covered entry excludes the latter |
| `PublicationRuns.HazardUncovers` | scripts/register_schema.py:655-664 | a finished rollback keeps orphans covered if and only if it was not begun in the hazard |
| `PublicationRuns.HazardNeedsUnscannedOrphan` | src/robata/contracts/schema_registry.py:1145-1258 | the hazard needs an orphan the closure scan does not look at |
| `ExampleRuns.HazardIsReached` | scripts/register_schema.py:655-664 | a concrete admissible run from a valid tree without orphans, an evolution killed after its code file and then a bundle, ends with an orphan no marker covers |
| `ExampleRuns.BundleStarts` | scripts/register_schema_bundle.py:236-380 | a concrete quiescent tree and bundle that start the runs the convergence theorem is about |
| `RegistrarScripts.HazardSteps` | scripts/register_schema.py:513-527 | begun in the hazard and left alone, a publication is stopped by the foreign marker and its rollback deletes it |
| `RegistrarScripts.UndisturbedRegistration` | scripts/register_schema.py:819-834 | a registrar that finds the lock free and is left alone publishes its request |
| `LostMarker.LateUnlinkRollsBackUnmarked` | scripts/register_schema.py:384-391 | the final unlink failing after its effect ends in the entry tree without marker |
| `LostMarker.LateUnlinkSurvivesIff` | scripts/register_schema.py:640-664 | that tree is a valid registry if and only if no scanned artifact was an orphan on entry |
| `LostMarker.LateUnlinkThenKillValidIff` | scripts/register_schema.py:641-654 | killed with any number of installed artifacts still in place, the tree is valid if and only if none of those is scanned and no scanned artifact was an orphan on entry |
| `LostMarker.LateUnlinkThenKillIsInvalid` | scripts/register_schema.py:641-654 | killed before the first artifact is removed, the tree is never valid |
| `LostMarker.InvalidTreeStaysStuck` | scripts/register_schema.py:444-453 | from an invalid tree without marker no registration ever changes anything |
| `Replanning.PlanAgain` | scripts/register_schema.py:721-799 | preparing the same request on a partly published tree gives the same transaction |
| `Replanning.PlanReplays` | scripts/register_schema.py:756-772 | preparing it on the published tree is an idempotent replay |
| `Convergence.RecoveryTouchesOnlyTheMarker` | scripts/register_schema.py:444-510 | recovery changes nothing but the marker, keeps the tree valid, and is idempotent |
| `Convergence.RecoveryRemovesMarkerExactly` | scripts/register_schema.py:493-510 | on every tree an interrupted publication can leave, recovery removes the marker exactly when none of its artifacts is an orphan |
| `Convergence.AttemptsLeaveLeftovers` | scripts/register_schema.py:444-670 | any number of killed or failed attempts leaves a tree of the same one publication |
| `Convergence.RetriesConverge` | scripts/register_schema.py:444-799 | after any killed and failed attempts one undisturbed retry succeeds and leaves exactly the tree of a single undisturbed run |
| `SchemaTrees.SchemaTree.Recover` | scripts/register_schema.py:444-510 | changes only the marker, as the recovery step does, and leaves a recovered tree when it goes on |
| `SchemaTrees.SchemaTree.InstallMarker` | scripts/register_schema.py:513-527 | a different pending marker is never overwritten; on success the transaction's own marker is on disk |
| `SchemaTrees.SchemaTree.Install` | scripts/register_schema.py:609-629 | staging, marker and the artifact loop follow the machine step by step, through every fault |
| `SchemaTrees.SchemaTree.Commit` | scripts/register_schema.py:630-640 | catalog, validation and final unlink follow the machine |
| `SchemaTrees.SchemaTree.RollBack` | scripts/register_schema.py:641-664 | the catalog is restored before artifacts go, in reverse order, and the marker decision comes last |
| `SchemaTrees.SchemaTree.PublishArtifacts` | scripts/register_schema.py:563-670 | refused inputs change nothing; otherwise the tree and outcome are those of a run of the machine |
| `SchemaTrees.SchemaTree.Prepare` | scripts/register_schema.py:721-777 | answers as the plan of the request, which the `Answers` lemmas describe field by field |
| `SchemaTrees.SchemaTree.Register` | scripts/register_schema.py:702-799 | a whole registration ends in the tree and outcome of a run of the machine from recovery on |
| `Registrars.SystemStep` | scripts/register_schema.py:332-350 | every step of every process keeps exclusion, a valid tree, and catalog equal to the serial application of the log |
| `RegistrarRuns.OnlyTheHolderWrites` | scripts/register_schema.py:332-350 | whoever changes the tree or the log is the lock holder |
| `RegistrarRuns.EveryInterleavingIsSerial` | scripts/register_schema.py:819-834 | in every interleaving with faults and kills the catalog is the committed requests applied in commit order, and the registry accepts the tree |
| `RegistrarRuns.CommitsAreFinal` | scripts/register_schema.py:493-510 | once the lock is free nothing later undoes a committed request |
| `RegistrarRuns.SuccessesAreCommitted` | scripts/register_schema.py:792-799 | every registrar that reported success has its request among the committed ones for good |
| `RegistrarCoverage.RecoveryRemovesMarkerWhenNoOrphanRemains` | scripts/register_schema.py:493-510 | on a covered tree recovery removes the marker exactly when no uncatalogued file remains |
| `RegistrarCoverage.OrphansStayCovered` | scripts/register_schema.py:595-664 | at every step of every interleaving in which no publication is begun in its hazard, all orphans are covered |
| `RegistrarCoverage.SchemaRegistrationsStayCovered` | scripts/register_schema_bundle.py:359-380 | single and bundle registrations never meet the hazard, so coverage always holds |
| `BundleSequence.ManifestOrderIsIrrelevant` | scripts/register_schema_bundle.py:323-330 | any permutation of the manifest plans the same catalog, artifacts and marker, or is refused alike |
| `BundleSequence.BundleLeaves` | scripts/register_schema_bundle.py:323-356 | an undisturbed bundle leaves its new entries appended and every new file in place |
| `BundleSteps.PrefixIsValidWhenAccepted` | scripts/register_schema_bundle.py:323-356 | each stage of the sequence of a bundle's new schemas is a valid tree if and only if its documents are accepted |
| `BundleSteps.BundleEqualsSequence` | scripts/register_schema_bundle.py:323-356 | a bundle leaves the same tree, in the same list order, as its new schemas registered one at a time in sorted key order, if and only if the documents of every stage are accepted |
| `BundleWitness.BundleIsMoreThanItsSchemas` | scripts/register_schema_bundle.py:323-356 | a concrete bundle that is published while its schemas one at a time do not leave its tree |
| `BundleSequence.SecondRunIsUnchanged` | scripts/register_schema_bundle.py:359-380 | a second undisturbed run of any registration reports unchanged and touches nothing |
| `UpcasterGraph.AfterExtends` | scripts/register_schema_evolution.py:411-438 | one committed request adds edges only to the version it adds, whose predecessors are exactly their sources |
| `UpcasterGraph.PublishedTargetsKeepTheirEdges` | scripts/register_schema_evolution.py:569-617 | over every run no edge is added to a published target, and predecessors equal edge sources later if and only if they did before |
| `UpcasterGraph.PlainCatalogIsExact` | scripts/register_schema_evolution.py:411-438 | a catalog without upcasters and without declared predecessors is where the two agree to begin with |
| `ExampleEvolution.DeclaredPredecessorWithoutEdge` | src/robata/contracts/schema_registry.py:831-901 | a concrete catalog the registry accepts whose predecessors are the sources of no edge |
| `UpcasterGraph.WalkRaises` | scripts/register_schema_evolution.py:411-420 | along any walk the version strictly rises within one schema |
| `UpcasterGraph.WalksAreShort` | scripts/register_schema_evolution.py:411-420 | every upcast walk is shorter than the number of published versions |
| `UpcasterGraph.ReachableWalksAreShort` | scripts/register_schema_evolution.py:637-659 | that holds in every reachable tree at any moment |
| `Routes.VersionOrderIsTopological` | src/robata/contracts/schema_registry.py:890-906 | sorting by version is a topological order of the upcaster graph |
| `Routes.SweepDecides` | src/robata/contracts/schema_registry.py:908-921 | the path-count sweep from one source succeeds exactly when no version has two routes from it |
| `Routes.SweepMeansOneRoute` | src/robata/contracts/schema_registry.py:903-921 | the registry accepts the graph exactly when no pair of versions is joined by two routes |
| `RouteSearch.Expand` | src/robata/contracts/schema_upcasting.py:383-389 | expanding a node keeps every queued route a real route and never revisits |
| `RouteSearch.ResolvePath` | src/robata/contracts/schema_upcasting.py:369-394 | returns a route exactly when one exists, and in an accepted catalog the only one |
| `RouteSearch.ReachableCatalogsHaveOneRoute` | src/robata/contracts/schema_registry.py:903-921 | in every reachable tree at most one upcast route joins two versions |
| `ImmutabilityCheck.IndexSchemas` | scripts/check_schema_immutability.py:113-142 | succeeds exactly on nonempty paths and distinct versions, and then indexes each entry under its version |
| `ImmutabilityCheck.IndexUpcasters` | scripts/check_schema_immutability.py:145-164 | succeeds exactly on nonempty distinct ids |
| `ImmutabilityCheck.LoadArtifacts` | scripts/check_schema_immutability.py:218-246 | reports exactly an upcaster's missing and mismatching artifacts, in order of position, and keeps what could be read |
| `ImmutabilityCheck.LoadAll` | scripts/check_schema_immutability.py:218-246 | stops at once exactly on malformed pins; otherwise reports exactly every upcaster's faults, by id and position |
| `ImmutabilityCheck.CompareSchema` | scripts/check_schema_immutability.py:281-307 | one schema version is kept, repaired, unreadable or wrong, exactly as defined over the two trees |
| `ImmutabilityCheck.CompareSchemas` | scripts/check_schema_immutability.py:281-307 | reports exactly the deleted, changed and wrongly changed versions, and lists the repaired ones, both ascending |
| `ImmutabilityCheck.CompareArtifacts` | scripts/check_schema_immutability.py:316-331 | reports exactly the positions readable on both sides whose bytes differ |
| `ImmutabilityCheck.CompareUpcaster` | scripts/check_schema_immutability.py:309-331 | deleted, changed or byte-changed, exactly when so |
| `ImmutabilityCheck.CompareUpcasters` | scripts/check_schema_immutability.py:309-331 | reports exactly the deleted, changed and byte-changed baseline upcasters, by id and position |
| `ImmutabilityCheck.Compare` | scripts/check_schema_immutability.py:263-341 | once both catalogs are indexed: passes exactly when the declarative relation holds, stops at once exactly on malformed pins or unreadable schemas, otherwise reports every violation there is, no other, and in the order of the loops |
| `ImmutabilityFaults.HoldsMeans` | scripts/check_schema_immutability.py:268-331 | a violation holds exactly when one of the four parts of the check finds it |
| `ImmutabilityFaults.NoneMeansPasses` | scripts/check_schema_immutability.py:268-331 | no violation holds exactly when the later tree passes |
| `ImmutabilityCheck.Check` | scripts/check_schema_immutability.py:249-341 | passes exactly when the declarative relation holds, stops at once exactly on malformed inputs, otherwise reports every violation there is, no other, in the order of the loops; counts and repaired set are the meant ones |
| `ImmutabilityChains.ChecksCompose` | scripts/check_schema_immutability.py:281-331 | passing checks compose |
| `ImmutabilityChains.RepairsCompose` | scripts/check_schema_immutability.py:296-305 | the repaired set across two steps is the first step's with the second's restricted to the start's versions, and the two are disjoint |
| `ImmutabilityChains.ChainPasses` | scripts/check_schema_immutability.py:249-341 | along a chain of passing checks every later tree passes against every earlier one |
| `ImmutabilityChains.BytesChangeAtMostOnce` | scripts/check_schema_immutability.py:296-305 | along a chain a schema's bytes change at most once, from missing the pin to meeting it |
| `ImmutabilityChains.AddedCountsSum` | scripts/check_schema_immutability.py:333-340 | added counts along a chain sum to those across it |
| `PublisherChecker.RegistryPathIsSafe` | src/robata/contracts/schema_registry.py:649-656 | a path is safe for the immutability check exactly when the registry takes it and it does not end in a newline |
| `PublisherChecker.ExtensionPasses` | scripts/check_schema_immutability.py:281-331 | between valid trees where the catalog was extended nothing is repaired, and the check passes if and only if no upcaster path ends in a newline |
| `PublisherChecker.HistoriesPassTheCheck` | scripts/check_schema_immutability.py:249-341 | from any reachable tree with the lock free to any later one the check reports no repair and counts what was committed, and passes if and only if no earlier upcaster path ends in a newline |
| `ExampleRuns.HistoryPasses` | scripts/check_schema_immutability.py:249-341 | a concrete history with one committed bundle that passes the check and adds one schema |
| `ExampleEvolution.NewlinePathFailsTheCheck` | scripts/check_schema_immutability.py:167-175 | a concrete tree with a path ending in a newline that the registry accepts and the check refuses |
| `BlobStream.PyIntMeans` | scripts/check_release_hygiene.py:222-223 | `int` on bytes reads exactly digit groups with single underscores, an optional sign and blanks around, as the number the digits spell |
| `BlobStream.PyIntDecimal` | scripts/check_release_hygiene.py:222-223 | `int` reads a canonical decimal as its number |
| `BlobStream.ReadBlobs` | scripts/check_release_hygiene.py:206-244 | succeeds exactly when every frame is taken and nothing is left, and describes each blob in order |
| `BlobFrames.StreamRoundTrip` | scripts/check_release_hygiene.py:206-244 | reading the framed stream of any contents gives each content and size back |
| `BlobFrames.FramedIsAccepted` | scripts/check_release_hygiene.py:206-244 | every framed stream is accepted |
| `BlobFrames.AcceptedIsFramedIff` | scripts/check_release_hygiene.py:213-243 | an accepted stream is exactly the tracked list's frames if and only if its size tokens are canonical |
| `BlobFrames.NegativeSizeIsAccepted` | scripts/check_release_hygiene.py:222-233 | a stream with size -1 and no content is accepted |
| `TreeListing.RecordMeans` | scripts/check_release_hygiene.py:118-138 | a record is read exactly when it is mode, blob, ASCII id, tab and decodable path with one of the three modes, and then as those |
| `TreeListing.TrackedFiles` | scripts/check_release_hygiene.py:118-138 | succeeds exactly when every nonempty record parses, and sorts the entries by path |
| `TreeListing.ListingRoundTrip` | scripts/check_release_hygiene.py:118-138 | the listing of any entries parses back to them |
| `Archive.MatchesExpected` | scripts/check_release_hygiene.py:290-315 | kind, size and digest of one member |
| `Archive.VerifyArchive` | scripts/check_release_hygiene.py:254-320 | accepts exactly the archives with no entry repeated, extra, missing or different |
| `Archive.VerifiedArchiveIsABijection` | scripts/check_release_hygiene.py:276-319 | a verified archive has exactly one right entry per tracked path, and as many entries as tracked files if and only if no path repeats |
| `Archive.VerifiedArchiveCarriesTheBlobs` | scripts/check_release_hygiene.py:254-320 | against the blobs' own manifest an archive is verified exactly when its entries are, without repetition, the tracked paths with their kinds and bytes |
| `Releases.ReadListing` | scripts/check_release_hygiene.py:118-138 | what git lists for a commit is read back as the commit's entries in path order |
| `Releases.ReadFramedBlobs` | scripts/check_release_hygiene.py:206-244 | the blobs' framed stream is read to exactly their manifest |
| `Releases.BuildManifest` | scripts/check_release_hygiene.py:364-401 | on what git prints for any commit, and any archive: succeeds exactly when the paths are hygienic and the archive holds exactly the commit's files with their kinds and bytes, and then returns one line for each file, with its blob's digest and size, ascending by path |
| `BoundedRun.Host.FetchReadyHealth` | scripts/run_bounded_mage_benchmark.py:406-453 | each way the wait ends is tied to what happened; never more than 0.01 s and one overrun past the startup deadline, attempts at least a poll apart |
| `BoundedRun.Host.WaitForBenchmark` | scripts/run_bounded_mage_benchmark.py:456-476 | returns a code exactly when the benchmark exited, never more than one overrun past its deadline |
| `BoundedRun.Host.TerminateOwned` | scripts/run_bounded_mage_benchmark.py:479-518 | the reported action says which signals were sent; at most two seconds past the cleanup deadline, plus overruns |
| `BoundedRun.Host.WaitForPortClosed` | scripts/run_bounded_mage_benchmark.py:337-344 | at most 0.05 s past its timeout, plus overruns |
| `BoundedRun.Host.SpawnOwned` | scripts/run_bounded_mage_benchmark.py:353-377 | no time unless containment fails, then at most two seconds and an overrun, and no handle |
| `BoundedRun.Host.StartEndpoint` | scripts/run_bounded_mage_benchmark.py:552-643 | everything up to READY; any other end has the outcome of what happened, with steps and time bound |
| `BoundedRun.Host.RunBenchmark` | scripts/run_bounded_mage_benchmark.py:645-683 | succeeded exactly when the benchmark returned 0, failed exactly when it returned anything else; any other end has the outcome of what happened |
| `BoundedRun.Host.Handle` | scripts/run_bounded_mage_benchmark.py:684-699 | the handlers leave the outcome of what happened, with its exit code |
| `BoundedRun.Host.ProbePort` | scripts/run_bounded_mage_benchmark.py:719-731 | only an unclosed port after success becomes a cleanup failure |
| `BoundedRun.Host.CleanUp` | scripts/run_bounded_mage_benchmark.py:700-740 | benchmark first, then endpoint, then port; bounded time |
| `BoundedRun.AttemptsWithinCeiling` | scripts/run_bounded_mage_benchmark.py:406-453 | health attempts are at most the ceiling of startup timeout over poll interval, however long sleeps overrun |
| `BoundedRun.Run` | scripts/run_bounded_mage_benchmark.py:521-740 | the outcome is a function of what happened (interrupt, configuration, port, spawns, health answer, exits, deadlines, port closing); success exactly when the benchmark returned 0 uninterrupted and the port closed; exit code 0 exactly for success, 124 exactly for the three timeouts, 130 exactly for interrupts; step order; cleanup begins by the deadline plus 0.01 s (2.0 s after a failed containment) and one overrun; end within 8.06 s and six overruns of it; attempts bounded for any overrun; no timeout is reported early |
| `Topology.OverlapMeansSharedPath` | scripts/render_mage_endpoint_profile.py:408-415 | two paths overlap exactly when some path lies beneath both |
| `Topology.OverlapMeansTouched` | scripts/render_mage_endpoint_profile.py:408-427 | an output and an input overlap exactly when some path beneath the output lies within or above the input |
| `Topology.PairwiseDisjoint` | scripts/render_mage_endpoint_profile.py:430-438 | the pairwise loop accepts exactly disjoint subtrees |
| `Topology.Disjoint` | scripts/render_mage_endpoint_profile.py:482-510 | the output-versus-input loops accept exactly untouched inputs |
| `Topology.FileLoopsAreRedundant` | scripts/render_mage_endpoint_profile.py:482-510 | the file-versus-input loops follow from containment and the root checks |
| `Topology.ValidateOutputTopology` | scripts/render_mage_endpoint_profile.py:441-510 | accepts exactly when, path by named path, the files lie strictly beneath their roots, roots and files are pairwise apart, and no root touches the model directory, a manifest, the prompt, a durable root or a video |
| `Topology.VideosAreProtectedByTheirRoots` | scripts/render_mage_endpoint_profile.py:584-585 | videos inside durable roots are protected by protecting the roots |
| `Parity.SharesCount` | scripts/qualify_local_mage_dcvc_provider_v2.py:533-543 | precision is the matched share of the right side, recall of the left, with the source's values for empty sides |
| `Parity.F1Counts` | scripts/qualify_local_mage_dcvc_provider_v2.py:533-543 | F1 is twice the matches over all keys, 1 when both sides are empty |
| `Parity.F1Symmetric` | scripts/qualify_local_mage_dcvc_provider_v2.py:533-543 | swapping sides swaps precision and recall and keeps F1 |
| `Parity.LastAtomCounts` | scripts/qualify_local_mage_dcvc_provider_v2.py:521-526 | a repeated match key stands for its last atom |
| `Parity.KindParityIsMapEquality` | scripts/qualify_local_mage_dcvc_provider_v2.py:533-557 | F1 and agreement are both 1 exactly when the key-to-hash maps are equal |
| `Parity.ParityGateIsMapEquality` | scripts/qualify_local_mage_dcvc_provider_v2.py:762-767 | the full-resolution gate passes exactly when they are equal for all five kinds |

## Left out

- Symlink and reparse-point checks, file modes, temporary-file names and their removal, fsync durability on power loss.
- A `KeyboardInterrupt` delivered between a replace and the assignment that records it: the rollback then does not know of the installed file.
- `dry_run`, the readers' shared lock, and Windows locking details; the lock is a holder that a dead process releases.
- JSON parsing, printing and normalisation: candidates arrive normalised, catalogs are values, and malformed JSON shapes (a non-object entry, a missing field) are not inputs of the model.
- Entry fields the proofs never look into beyond equality (wire version, owner, lifecycle, software range) are one metadata value; identifier patterns of schema ids are left to the registry's document checks.
- JSON Schema validation of documents and the execution of upcasters over golden vectors: functions of the `World`, fixed by catalog and pinned bytes.
- The second ambiguity check of src/robata/contracts/schema_upcasting.py:346-367, which counts paths breadth-first.
- Git itself: trees are maps from paths to bytes, and command failures are not modelled; `int()`'s limit on the number of digits is not modelled.
- Releases.BuildManifest: the ignore rules, the forbidden-name list and the schema-symlink check are one predicate on the tracked files; the clean-worktree and unchanged-HEAD checks and the writing of the archive file are not modelled.
- The digest pattern inside the publication marker: the marker's own digests are compared, not matched against the pattern.
- Tar decoding: members arrive with kind and content; UTF-8 decoding is a parameter.
- BoundedRun.Run: an exception raised inside the cleanup block, report writing and signal delivery inside a spawn are not modelled.
- Floating point: ratios and times are reals.
- Parity.ParityGateIsMapEquality: label, support, disposition, boundary and confidence figures are reported beside the gate and not part of it.
- The rest of the profile renderer, the qualification reports, the text-matching evaluators and the export scripts, which would add only field checks.
