# Scheduling, publishing and viewer life cycle: a verified model

This project models, in Dafny 4.11, four parts of the Rerun repository whose correctness depends on many steps
working together, and proves what they promise.

**The parallel DAG walker** (`scripts/ci/dag.py`). `Graphs` and `Sanitize` hold dependency graphs and the depth-first check that
guards them. `RateLimiting` and `NodeStates` hold the classes `RateLimiter`, `_NodeState` and `_State` as mutable objects, each tied to a
value that says what it contains. `Walker` is the transition system of `walk_parallel`: the main loop, any number of worker threads
and the clock take turns in any order, one access to shared state per step. `WalkInvariant`, `WalkSteps` and `WalkSafety` prove the
inductive invariant: conservation as an equation between multisets, counters that count unfinished dependencies with their
repeats, an ordered log, and control facts. `WalkTheorems`, `WalkBounds`, `WalkParallel`, `WalkProgress` and `WalkLiveness`
draw the conclusions: order, at most once, no failing assertion, the two ways to end, failure containment, the rate bound, real parallelism,
deadlock freedom and termination under fair scheduling.

**The publishing pipeline** (`scripts/ci/crates.py`). `Manifests` holds manifests, workspaces and `crate_deps`. `Sorting` is the
cycle-tolerant post-order sort, `PublishFlags` the flag check, `Publishing` the pipeline from sorting to the walk, and
`PublishRuns` its effect on crates.io: over one run, over a run left alone to its end, and over any series of finished or aborted runs, with
manifests edited in between. `Versions` writes versions and reads them
back, and `VersionBump` is the in-place bump of all manifests.

**The web viewer and its React wrapper** (`rerun_js/web-viewer/index.ts`, `rerun_js/web-viewer-react/index.js`). `ViewerLifecycle` cuts `start` into its
segments between awaits; anything may happen between two segments. `ViewerProgress` says what
the calls come to: which starts succeed and what a failure leaves behind. `ReactWrapper`, `ReactRuns` and `ReactComponent` hold the synchroniser, every
life of the component with all viewers it has ever started, remounting included, and the component class.

**Path recovery** (`scripts/check_forbidden_dependencies.py`). `TreePath` holds the backward walk over indentation, and a printer of trees that it inverts.

State that the source updates in place is held in classes. Their methods are proved against functions on values, and the theorems are about those
functions. The outcome of a foreign call (`f`, crates.io, `destroy`, `add_receiver`, loading wasm, the clock) is a parameter, so every theorem
holds for all outcomes.

Where the code and its comments disagree, the model follows the code: one token is refilled per `refill_interval_sec` (dag.py:26, not line 19); the bucket has
no upper cap (dag.py:33, not lines 116-117); the recursive call in `check_publish_flags` returns at once (crates.py:705 and 715), so the printed
list holds the direct offenders only; `check_dependency_tree` never looks at the errors that sorting collects (crates.py:572-573). The
remark that the recovered path is a shortest one (check_forbidden_dependencies.py:67-69) does not follow from the code; what holds is that
it is the tree path.

## Model

| member | source | states |
|---|---|---|
| Sanitize.SanitizeDependencyGraph | scripts/ci/dag.py:45-87 | returns exactly on non-empty, complete graphs that have a rank function decreasing along every edge, and those are acyclic; raises the cycle error exactly on the complete cyclic ones, self-loops included, the missing-node error exactly when a listed dependency is no node, naming exactly those dependencies, and `TypeError` exactly on the empty graph |
| Sanitize.CycleFinder.FindCycle | scripts/ci/dag.py:66-83 | a search from an unvisited node either restores the path and the recursion stack with the node finished after its dependencies, or reports a closed walk of edges; it terminates on the number of unvisited nodes |
| Sanitize.SearchAll | scripts/ci/dag.py:85-87 | the outer loop finds a simple closed walk or establishes a rank function |
| Sanitize.ListingGivesRank | scripts/ci/dag.py:66-87 | a listing of all nodes with dependencies first yields a rank function |
| Sanitize.AcyclicHasRank | scripts/ci/dag.py:66-87 | every complete acyclic graph has a rank function, so acyclicity and the existence of a rank function are the same |
| Sanitize.PathCloses | scripts/ci/dag.py:76-79 | the reported `path[cycle_start:] + [neighbor]` is a genuine closed walk of edges that repeats no other node |
| Graphs.RankedIsAcyclic | scripts/ci/dag.py:50-51 | a graph with a rank function has no walk from a node back to itself |
| RateLimiting.RateLimiter.Get | scripts/ci/dag.py:30-39 | grants exactly while fewer tokens are used than the burst plus the refill up to this clock reading, and counts the grant |
| RateLimiting.GetAll | scripts/ci/dag.py:24-39 | how many of any series of calls on a non-decreasing clock are granted, from the constructor's arguments: never more than burst plus refills at any call plus the calls after it, and exactly the least of these bounds unless all are granted |
| RateLimiting.IssuedGrows | scripts/ci/dag.py:31-33 | issued tokens never decrease with time |
| RateLimiting.GrantTime | scripts/ci/dag.py:31-39 | there is a clock reading from which on every `get` grants |
| NodeStates.State.GetOrInsert | scripts/ci/dag.py:217-220 | returns the one node state of the node, fresh if there was none, and leaves the others alone |
| NodeStates.State.Build | scripts/ci/dag.py:202-215 | the objects built by the constructor hold the initial state, and its result is the truth of the closing assertion |
| NodeStates.InitialFacts | scripts/ci/dag.py:202-213 | initially every counter is the length of the node's dependency list, repeats counted; dependents mirror dependencies with multiplicity; exactly the nodes without dependencies are queued, each once |
| NodeStates.State.Start | scripts/ci/dag.py:222-223 | marks one node and changes nothing else |
| NodeStates.State.Finish | scripts/ci/dag.py:225-233 | fails exactly when one of the counter assertions would, and otherwise takes the objects to the state after the release of every dependent |
| NodeStates.ReleaseAllFacts | scripts/ci/dag.py:228-232 | if each counter covers its occurrences among the dependents, no assertion fails, each counter drops by exactly those occurrences, and exactly the nodes that reach zero are queued, each once |
| NodeStates.ReleaseAllFails | scripts/ci/dag.py:228-229 | the counter assertions hold throughout exactly if each counter covers the occurrences of its node among the dependents |
| NodeStates.State.IsDone | scripts/ci/dag.py:235-237 | true exactly when as many finishes were counted as there are nodes |
| NodeStates.State.SanityCheck | scripts/ci/dag.py:239-242 | passes exactly when, in every stored node state, the counter is zero and the node was started |
| WalkInvariant.FinishCounters | scripts/ci/dag.py:225-233 | finishing a node keeps every counter equal to the occurrences of unfinished nodes in the dependency list |
| WalkInvariant.FinishMoves | scripts/ci/dag.py:225-233 | finishing a node moves nodes from blocked to ready; none appears twice and none is lost |
| WalkSafety.BeginInv | scripts/ci/dag.py:146-165 | the first state of a walk over a complete graph satisfies the invariant |
| WalkSafety.StepInv | scripts/ci/dag.py:149-184 | every step of main loop, worker or clock keeps the invariant: each node is in exactly one of blocked, ready, task queue, worker, done queue and finished; counters count; the log is ordered |
| WalkSafety.RunInv | scripts/ci/dag.py:102-184 | the invariant holds after every run |
| WalkTheorems.StartsFollowDependencies | scripts/ci/dag.py:112-112 | in every interleaving `f` is called on a node only after it has returned for each direct and transitive dependency |
| WalkTheorems.CompletionsFollowDependencies | scripts/ci/dag.py:112-112 | the order of completions respects direct and transitive dependencies too |
| WalkTheorems.AtMostOnce | scripts/ci/dag.py:149-175 | `f` is called at most once per node, only on nodes of the graph, and ends at most once per call |
| WalkTheorems.NoAssertionFails | scripts/ci/dag.py:229-242 | in no reachable state has an assertion of `_State` failed, or would one fail in the next finish or sanity check |
| WalkTheorems.AcceptedHasSource | scripts/ci/dag.py:215-215 | the constructor's assertion holds for every accepted graph |
| WalkTheorems.NormalReturn | scripts/ci/dag.py:166-184 | when the walk returns, `f` was called exactly once on every node, each call returned, and none raised |
| WalkTheorems.EndsAlone | scripts/ci/dag.py:148-184 | when the walk has returned or raised, every worker thread has ended |
| WalkTheorems.FailureContained | scripts/ci/dag.py:158-184 | once `f` has raised on a node, nothing that depends on it is ever called, and the walk never returns normally |
| WalkBounds.FewStartsAfterFailure | scripts/ci/dag.py:149-160 | after a worker raised and set `shutdown`, in any continuation at most one call per other worker begins |
| WalkBounds.OneStartEach | scripts/ci/dag.py:149-160 | after `shutdown`, each single worker begins at most one more call |
| WalkBounds.RunMetered | scripts/ci/dag.py:171-175 | tokens used equal nodes handed to workers in every state of every run |
| WalkBounds.RateBound | scripts/ci/dag.py:24-39 | calls and nodes handed out never exceed the burst plus one per elapsed refill interval, at every instant of every run; a ready node is handed out exactly while that bound is not reached |
| WalkParallel.WorkerCount | scripts/ci/dag.py:148-163 | there are as many workers as asked for, in every run |
| WalkParallel.AllWorkersRun | scripts/ci/dag.py:148-175 | with as many ready nodes and tokens as workers, some run has every worker inside `f` at once |
| WalkParallel.QueuesKeepOrder | scripts/ci/dag.py:154-179 | the most recently readied node is handed out first; workers and main loop take what has waited longest |
| WalkProgress.StepProgress | scripts/ci/dag.py:165-181 | a measure over the stages of all nodes never rises, and a step that keeps it changes only the clock and idle positions |
| WalkProgress.ProductiveTotal | scripts/ci/dag.py:165-181 | the number of productive steps in any run is bounded by the size of the graph and the number of workers |
| WalkLiveness.NeverDeadlocked | scripts/ci/dag.py:165-181 | until every node is finished, some node is ready, handed out, with a worker or waiting to be pulled |
| WalkLiveness.EveryFairWalkEnds | scripts/ci/dag.py:102-184 | every fairly scheduled infinite run over an accepted graph reaches an end; it is a normal return exactly if no call of `f` raised |
| WalkLiveness.EndMeans | scripts/ci/dag.py:183-184 | at any end, the walk has returned exactly if the log holds no failure |
| Manifests.CrateDepsComplete | scripts/ci/crates.py:143-158 | `crate_deps` yields every entry of every dependency table, target-specific tables included, and nothing else |
| Manifests.CrateDepsNoDup | scripts/ci/crates.py:143-158 | `crate_deps` yields no entry twice, although one crate may be named by several entries |
| Manifests.DepNamesComplete | scripts/ci/crates.py:143-158 | the names looked at are exactly those of the entries in any table |
| Manifests.DepNamesCount | scripts/ci/crates.py:143-158 | a crate is listed once for each entry that names it |
| Manifests.InducedEdgeMeans | scripts/ci/crates.py:534-547 | the induced graph joins two crates exactly if both are kept and one has an entry for the other |
| Manifests.InducedCount | scripts/ci/crates.py:534-547 | a kept dependency is listed as often as there are entries for it |
| Manifests.InducedComplete | scripts/ci/crates.py:534-547 | the induced graph never misses a node |
| Sorting.Sorter.Helper | scripts/ci/crates.py:171-198 | one call visits the crate and keeps the sort's invariant: finished crates come after each dependency that does not lead back to them |
| Sorting.GetSortedPublishableCrates | scripts/ci/crates.py:161-202 | raises exactly if a crate lists itself; otherwise outputs exactly the publishable crates, each once, every publishable direct dependency first unless it leads back, and without cycles every transitive publishable dependency first, also through unpublishable crates; reports exactly the crates without a flag |
| Sorting.SelfDependentMeans | scripts/ci/crates.py:186-187 | the assertion in the sort fails for exactly the crates that have an entry for themselves |
| PublishFlags.OffendingMeans | scripts/ci/crates.py:708-715 | the offenders of a crate are the unpublished workspace crates it has an entry for |
| PublishFlags.FlagChecker.Traverse | scripts/ci/crates.py:704-718 | adds exactly the unpublished direct workspace dependencies of a crate not seen before |
| PublishFlags.DirectIsEnough | scripts/ci/crates.py:720-729 | no direct offender exists exactly if the publishable crates are closed under reachability |
| PublishFlags.CheckPublishFlags | scripts/ci/crates.py:700-735 | passes exactly if all flags are set and the publishable crates are closed under reachability over dependencies of every kind; a failure names exactly the unpublished workspace crates that a published one has an entry for; a missing flag raises |
| Publishing.CollectUnpublished | scripts/ci/crates.py:518-523 | fails exactly if a request fails; otherwise keeps the crates outside the registry |
| Publishing.OutsideMeans | scripts/ci/crates.py:518-523 | keeping them loses nothing but published crates, gains nothing, repeats nothing, and keeps the order |
| Publishing.BuildDependencyGraph | scripts/ci/crates.py:532-547 | the nested loops build the graph induced by the unpublished crates |
| Publishing.Prepare | scripts/ci/crates.py:596-610 | each exit before the walk is taken exactly under its condition, in the order of the code, a missing flag is reported for exactly the crates that lack it, and a refusal reports a genuine cycle of crates to publish; the walk starts exactly if something is left to publish and no cycle blocks it, on an accepted graph of exactly the unpublished publishable crates |
| Publishing.CheckDependencyTree | scripts/ci/crates.py:566-593 | passes exactly if no crate lists itself, some crate is publishable, and the publishable crates have no cycle among themselves; each way of failing has its exact condition, and a reported cycle is one of the manifests |
| Publishing.CheckedTreeIsNeverRefused | scripts/ci/crates.py:566-593 | once that check passes, no publish run is refused for a cycle, whatever was published before |
| PublishRuns.RunRespectsDependencies | scripts/ci/crates.py:513-563 | in one run from a closed registry, every workspace crate that `c` reaches is published before `publish_crate(c)` is called |
| PublishRuns.RunKeepsClosed | scripts/ci/crates.py:513-563 | one run, however it ends, leaves the registry dependency-closed |
| PublishRuns.RunStartsOnlyUnpublished | scripts/ci/crates.py:518-529 | only publishable crates that were not yet published are ever published |
| PublishRuns.FullRunPublishesAll | scripts/ci/crates.py:557-563 | a run whose walk returns has published every publishable crate |
| PublishRuns.UnblockedIsAccepted | scripts/ci/dag.py:91-100 | the graph to publish is accepted by the DAG constructor unless it has a cycle |
| PublishRuns.FairRunPublishesAll | scripts/ci/crates.py:513-563 | from a closed registry, with closed flags and no cycle, every fair run without a failing `publish_crate` returns, and leaves a closed registry with every publishable crate in it |
| PublishRuns.EditKeepsClosed | scripts/ci/crates.py:596-610 | editing manifests between two runs keeps a closed registry closed, as long as no published crate comes to list a further workspace crate |
| PublishRuns.RegistryStaysClosed | scripts/ci/crates.py:513-610 | over any series of runs, aborted ones and edits in between included, the registry stays dependency-closed, only grows, and gains only publishable crates |
| PublishRuns.DependenciesPublishedFirst | scripts/ci/crates.py:513-610 | in every run of every such series, each workspace crate that `c` reaches is published before `publish_crate(c)` is called, and `c` itself was not published by an earlier run |
| Versions.DecimalReads | scripts/ci/crates.py:318-318 | a number written in decimal reads back as itself |
| Versions.TextReads | scripts/ci/crates.py:318-318 | every version with well-formed identifiers reads back from its text, part by part, as itself |
| Versions.RequirementAsks | scripts/ci/crates.py:341-342 | a written requirement reads back as the version without build metadata, behind a pin exactly for pre-releases |
| Versions.PinnedIffPrerelease | scripts/ci/crates.py:262-263 | a written requirement is pinned exactly for pre-releases |
| Versions.NoBuildMetadata | scripts/ci/crates.py:328-329 | a written requirement never carries build metadata |
| VersionBump.SetInfoLookup | scripts/ci/crates.py:136-140 | assigning to the entry at one key path changes that entry and no other |
| VersionBump.SameShapeSameDeps | scripts/ci/crates.py:330-348 | editing values while `crate_deps` iterates does not disturb the iteration |
| VersionBump.BumpPackageVersion | scripts/ci/crates.py:308-318 | sets the version exactly of packages that state their own, and announces old and new version |
| VersionBump.BumpDependencyVersions | scripts/ci/crates.py:321-348 | updates exactly the versioned entries of workspace crates in every table, each announced once with its old and new requirement, records an error for each bare string, and touches no other entry |
| VersionBump.OpsAnnounceUpdates | scripts/ci/crates.py:336-348 | the announced operations are exactly the updates made, each with the requirement it replaces, and as many as there are updates |
| VersionBump.IssuesNameStrings | scripts/ci/crates.py:335-340 | the recorded errors name exactly the workspace crates whose entry is a bare string |
| VersionBump.RewrittenCarries | scripts/ci/crates.py:308-348 | what a rewrite writes reads back as the version it was given, in the package and in every versioned workspace entry; all else is as before |
| VersionBump.BumpVersion | scripts/ci/crates.py:351-394 | all or nothing: succeeds exactly if no workspace crate is depended on by a bare string anywhere; writes no file on failure or in a dry run, and otherwise every file, so that what is saved reads back as the given version with the build metadata that `dev` asks for, and without build metadata in requirements |
| VersionBump.RewrittenEntry | scripts/ci/crates.py:336-348 | after a rewrite every versioned workspace entry holds the one requirement, which reads back as the version, pinned exactly for pre-releases, with its other fields kept; foreign and unversioned entries are untouched |
| VersionBump.RewrittenKeepsDeps | scripts/ci/crates.py:321-348 | bumping changes no dependency: the tables list the same crates in the same order |
| VersionBump.LastBumpWins | scripts/ci/crates.py:351-394 | bumping to one version and then to another leaves what the second bump alone would |
| VersionBump.RewriteIsDetermined | scripts/ci/crates.py:351-394 | the rewrite has one outcome, and repeating it changes nothing |
| ViewerLifecycle.WebViewer.Start | rerun_js/web-viewer/index.ts:469-524 | returns at once unless stopped; otherwise claims the canvas and suspends |
| ViewerLifecycle.WebViewer.AfterLoad | rerun_js/web-viewer/index.ts:531-579 | a failed load stops the viewer, a load that outlived its start makes no handle, a current one makes a handle and goes on |
| ViewerLifecycle.WebViewer.AfterHandleStart | rerun_js/web-viewer/index.ts:578-612 | only a start that is still current becomes ready and opens the initial recordings; the promise rejects exactly if the start, an opening call, or the clean-up after a panic throws |
| ViewerLifecycle.WebViewer.Open | rerun_js/web-viewer/index.ts:748-762 | throws without a handle; adds all urls, or stops the viewer at the first failing one |
| ViewerLifecycle.WebViewer.Close | rerun_js/web-viewer/index.ts:771-785 | throws without a handle; removes all urls, or stops the viewer at the first failing one |
| ViewerLifecycle.WebViewer.Stop | rerun_js/web-viewer/index.ts:792-816 | leaves a stopped viewer alone, and otherwise gives up the handle, freed or, if `destroy` throws, lost |
| ViewerLifecycle.StepKeepsInv | rerun_js/web-viewer/index.ts:469-816 | every event keeps the invariant, provided no start is accepted while an earlier one is suspended |
| ViewerLifecycle.AlwaysSafe | rerun_js/web-viewer/index.ts:452-455 | at every suspension point of every such life, ready implies handle and canvas, stopped implies no handle, and handles made are freed, lost to a throwing `destroy`, or held |
| ViewerLifecycle.NoHandleIsLost | rerun_js/web-viewer/index.ts:805-811 | while `destroy` does not throw, handles made equal handles freed plus the one held |
| ViewerProgress.StartingIsUnderWay | rerun_js/web-viewer/index.ts:481-596 | in every life in which no handle constructor threw, a starting viewer has exactly one start suspended, so it never gets stuck |
| ViewerProgress.UndisturbedStartSucceeds | rerun_js/web-viewer/index.ts:469-596 | a start that is left alone and whose foreign calls succeed makes the viewer ready, with a new handle that has exactly the given recordings open |
| ViewerProgress.FailedLoadStops | rerun_js/web-viewer/index.ts:532-538 | a failed load leaves a stopped viewer without a handle, on which the next start is accepted |
| ViewerProgress.FailedHandleStartStops | rerun_js/web-viewer/index.ts:578-584 | so does a handle that fails to start |
| ViewerProgress.SpoiledStartStops | rerun_js/web-viewer/index.ts:592-609 | so does a start that fails to open a recording or finds that the viewer has panicked |
| ViewerProgress.ThrowingConstructorSticks | rerun_js/web-viewer/index.ts:572-577 | a handle constructor that throws leaves the viewer starting with nothing suspended; only a stop helps |
| ViewerProgress.StopGivesUp | rerun_js/web-viewer/index.ts:792-816 | a stop frees the handle, or loses it and keeps the canvas if `destroy` throws; on a stopped viewer it does nothing |
| ViewerProgress.PanicStops | rerun_js/web-viewer/index.ts:600-607 | a panic acts as a stop when there is a handle |
| ViewerProgress.OpenAdds | rerun_js/web-viewer/index.ts:748-762 | opening adds the urls with their flag and touches no other recording; a failing url stops the viewer |
| ViewerProgress.CloseRemoves | rerun_js/web-viewer/index.ts:771-785 | closing removes the urls and touches no other recording; a failing url stops the viewer |
| ViewerLifecycle.StaleStartIsInert | rerun_js/web-viewer/index.ts:539-588 | a start suspended across a stop, at whichever point, keeps the viewer stopped, makes no handle and opens nothing, up to its last segment |
| ViewerLifecycle.RestartIsSafeIffNothingPends | rerun_js/web-viewer/index.ts:481-482 | starting a stopped viewer again keeps all continuations safe exactly if no earlier start is still suspended |
| ViewerLifecycle.SafeIffDisciplined | rerun_js/web-viewer/index.ts:469-816 | over whole lives: all that can follow is safe at every point exactly if no start was ever accepted while an earlier one was suspended |
| ViewerLifecycle.OverlapIsUnsafe | rerun_js/web-viewer/index.ts:481-588 | for each suspension point, a concrete continuation of an overlapping start that loses a handle or becomes ready without one |
| ReactWrapper.KeysChanged | rerun_js/web-viewer-react/index.js:258-265 | true exactly if a key was added, removed or given another value |
| ReactWrapper.ToArrayIsWanted | rerun_js/web-viewer-react/index.js:272-275 | the list made of the `rrd` prop holds exactly the recordings that the prop names |
| ReactWrapper.SyncRecordings | rerun_js/web-viewer-react/index.js:204-222 | closes, opens and reopens on the viewer what the difference of the two lists asks for; the first exception ends it |
| ReactWrapper.SyncedOrStopped | rerun_js/web-viewer-react/index.js:204-222 | on a ready viewer the synchronisation takes full effect or the viewer is stopped |
| ReactWrapper.SyncKeepsAgreement | rerun_js/web-viewer-react/index.js:204-232 | an incremental update takes "open exactly what the props say" from the old props to the new ones |
| ReactWrapper.SyncStaysBehind | rerun_js/web-viewer-react/index.js:204-232 | an update between readiness and catch-up keeps what the catch-up needs |
| ReactWrapper.LateCallbackKeepsAgreement | rerun_js/web-viewer-react/index.js:152-166 | a callback of an earlier start, run late, disturbs no agreement |
| ReactWrapper.CatchUpAgrees | rerun_js/web-viewer-react/index.js:152-166 | catching up from the initial urls reaches agreement with the latest props, whatever came in between |
| ReactRuns.LifeInv | rerun_js/web-viewer-react/index.js:45-92 | the invariant holds in every life: mounting, updates, restarts, unmounting, remounting while no start is suspended, and all continuations in any order |
| ReactRuns.Reconciled | rerun_js/web-viewer-react/index.js:53-166 | in every life, once the viewer is ready and no callback of it is due, exactly the recordings that the latest `rrd` prop names are open and http ones carry the latest follow flag |
| ReactRuns.CallbackReconciles | rerun_js/web-viewer-react/index.js:152-166 | whenever callbacks of a ready viewer are due, running the youngest without failures reconciles |
| ReactRuns.MountedViewerShows | rerun_js/web-viewer-react/index.js:45-166 | a mounted viewer that is left alone becomes ready and shows the latest props, also if they changed while it was starting |
| ReactRuns.RestartLaunches | rerun_js/web-viewer-react/index.js:53-72 | an update that changes `hide_welcome_screen`, `manifest_url` or `render_backend` stops the viewer and starts a new one on the new props; any other keeps it |
| ReactRuns.OnlyResolvedIsDue | rerun_js/web-viewer-react/index.js:152-168 | the callback of a start becomes due exactly when its promise resolves |
| ReactRuns.StaleIsHarmless | rerun_js/web-viewer-react/index.js:65-92 | continuations and callbacks of any stopped viewer, whether replaced, unmounted, or stopped without being replaced, open and close nothing on any viewer |
| ReactRuns.UnreplacedIsStopped | rerun_js/web-viewer-react/index.js:61-67 | a viewer whose `stop` throws during an update is not replaced and is stopped without a handle |
| ReactRuns.RemountIsSafeIffNothingPends | rerun_js/web-viewer-react/index.js:45-51 | mounting the component again keeps every viewer safe in all that can follow, exactly if no start of its viewer is suspended |
| ReactRuns.StrictModeIsUnsafe | rerun_js/web-viewer-react/index.js:45-92 | mounting, unmounting and mounting again at once, as strict mode does, is never safe |
| ReactRuns.OneHandleAtATime | rerun_js/web-viewer-react/index.js:65-72 | replaced viewers, and the wrapper's own while it is not mounted, are stopped and hold no handle |
| ReactComponent.Component.DidMount | rerun_js/web-viewer-react/index.js:45-51 | starts the viewer on exactly the recordings, and with the follow flag, of the props it is mounted with |
| ReactComponent.Component.DidUpdate | rerun_js/web-viewer-react/index.js:53-88 | takes the update step of the life: restart on changed startup options, nothing while not ready, synchronisation otherwise |
| ReactComponent.Component.Callback | rerun_js/web-viewer-react/index.js:152-166 | takes the callback step of the life |
| TreePath.IndentLevel | scripts/check_forbidden_dependencies.py:104-112 | the column of the first character that is not drawing, 0 if there is none, stated on the characters |
| TreePath.FirstWordIs | scripts/check_forbidden_dependencies.py:97-97 | the first word is what stands between leading white space and the next white space or the end |
| TreePath.NoFirstWord | scripts/check_forbidden_dependencies.py:97-97 | there is none exactly if the line is all white space |
| TreePath.WalkBack | scripts/check_forbidden_dependencies.py:114-125 | collects the successively less indented lines above the target, topmost first; stopping at column 0 loses none |
| TreePath.GetDependencyPath | scripts/check_forbidden_dependencies.py:64-126 | reports an error exit of `cargo tree` with its trimmed message; on any lines raises exactly if a line without a word comes before any match, finds nothing exactly if no line matches, and otherwise starts from the first match |
| TreePath.ClimbTree | scripts/check_forbidden_dependencies.py:114-123 | in the printed form of a tree the walk from any line collects exactly that line's ancestors |
| TreePath.TrailIsPath | scripts/check_forbidden_dependencies.py:74-77 | those ancestors form a path from parent to child down the tree |
| TreePath.GetDependencyPathInTree | scripts/check_forbidden_dependencies.py:64-126 | for every tree of crates, each a name followed by nothing or by white space and a rest, printed in preorder: nothing found exactly if no crate has the name; otherwise the root-to-node path, four columns deeper per line, of the first such crate in preorder |

## Left out

- RateBound: clock readings are assumed not to decrease and time is exact; `time.time()` may step back, and `floor` works on floating point.
- GetAll: a negative `max_tokens` and a non-positive refill interval are left out.
- EveryFairWalkEnds: needs at least one worker, a positive refill rate, threads that keep getting turns, and calls of `f` that end; a call of `f` that raises `queue.Empty` is swallowed by the worker (dag.py:155) and is not modelled.
- StartsFollowDependencies: each queue or event access is one atomic step; the thread pool, sleeps and `KeyboardInterrupt` are not modelled.
- SanitizeDependencyGraph: only the kind of exception and its data are modelled, not its message; Python's recursion limit is ignored.
- DependenciesPublishedFirst: a call of `publish_crate` that returns counts as published; the code also returns when crates.io never lists the crate (crates.py:489-491). A dry run, which publishes nothing, is not modelled.
- RegistryStaysClosed: edits between two runs may not add workspace crates to the lists of crates already published; the version published is the same in all runs.
- Prepare: the crates.io answers are those of one moment, and nobody else publishes during a run.
- CheckPublishFlags: `publish` is a boolean; cargo also allows a list of registries there.
- BumpVersion: what is written reads back for versions without a `+` in the pre-release part, which section 9 of Semantic Versioning 2.0.0 demands. `Bump.apply` and version parsing belong to the `semver` library, and the version to write is a parameter; a version string that contains the word "workspace" makes the code index a string and raise, which is not modelled; `cargo update` and `taplo` are left out; a crash between two writes is not modelled. `Context.ops` and `Context.errors` are shared by all contexts of a process; each process makes one.
- StepKeepsInv: assumes, as do AlwaysSafe and NoHandleIsLost, that no start is accepted while an earlier one is suspended; SafeIffDisciplined and RestartIsSafeIffNothingPends show that safety fails exactly otherwise.
- AlwaysSafe: see StepKeepsInv.
- NoHandleIsLost: see StepKeepsInv; with overlapping starts a handle really is lost (OverlapIsUnsafe).
- StaleStartIsInert: speaks of the time up to the end of the suspended start, during which no new start is accepted; otherwise the stale start takes part in the new one (OverlapIsUnsafe).
- Reconciled: assumes that the component is not mounted again while a start of its viewer is suspended; RemountIsSafeIffNothingPends shows that this is the exact condition, and StrictModeIsUnsafe that strict mode breaks it.
- SyncRecordings: whether a url is an http source is a parameter; resolving urls against the document is not modelled.
- GetDependencyPathInTree: crate names are assumed to be non-empty, without white space, and not to start with a drawing character.
- The message box of `#fail`, the progress bar, fullscreen, event listeners and the other handle-forwarding methods of the viewer: user interface or single foreign calls.
- Network, cargo, git and TOML text: their results are parameters.
- `publish_crate`'s retries and `parse_retry_delay_secs`: one abstract step that succeeds or fails.
- The Rust and Python bindings, `dimos`, examples, build and release scripts: easy members, or calls into code outside the repository.
