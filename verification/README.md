# Process Focus: verified models

This project models the parts of the Process Focus repository whose correctness depends on
interleavings, on whole runs, or on all possible texts and trees, and proves what they promise.
`dafny verify dfyconfig.toml` checks everything.

**Protocols.** `WorkerPause.dfy` models the pause that the end-to-end suite puts on the local
worker: a promise-chain mutex, a reference count and a pause file, as interleaved steps of any
number of clients. `PauseSystem.dfy` puts the real partner beside it, the local queue poller with
its semaphore, its job counter and its job fibers, settles exactly when the pause is safe, and shows
that a pause that is asked for can always be granted and that work can always go on after it. `TokenRefresh.dfy` is the session
refresh scheduler as a machine over its refs, timers and calls. `PluginLoader.dfy` is the
de-duplicated plugin loader over a first-in first-out queue of promise reactions. Each has an
invariant over every reachable state; all but `PauseSystem`, which is modelled on values, have a
class whose methods take the steps on fields.

**The organisation chart.** `OrgTree.dfy` gives the tree that a flat list with parent pointers
describes, and the flattening it undoes; `OrgLayout.dfy` gives its layout in the plane;
`OrgChart.dfy` is the program itself, with its map of mutable nodes, and computes exactly these.

**Texts.** `CommentScanner.dfy`, `CedarTokens.dfy`, `LineStream.dfy`, `PercentCoding.dfy` with
`EmbedPath.dfy`, and `InputTypes.dfy` prove scanners, splitters, printers and readers against
grammars: every text is read in one way, nothing is lost, and what is printed is read back.
`SchemaWalker.dfy` and `SchemaGenerator.dfy` follow the GraphQL generator from the schema's syntax
tree to its definitions and operations, where every reference resolves; `SchemaTypes.dfy` says which
type every property gets, and `SchemaNames.dfy` exactly when a reference has one definition only.

**Policies.** `ProjectGraph.dfy` proves that the project boundary check is equivalent to a statement
about reachability; `Snapshot.dfy` exactly when the public snapshot holds nothing private, and that it has a
licence beside every package; `SnapshotRules.dfy` what is kept back, what is written and exactly when a
snapshot is refused. `TodoLabels.dfy` relates a relative-time label to its refresh delay.

`Wrappers.dfy`, `Seqs.dfy` and `Texts.dfy` hold what several of these share.

These properties turned out to need a condition, and are stated with it in both directions:

- A pause file can outlive every pause: when `writeFile` fails after creating the file, the call
  throws and nobody removes it. `QuietFile` says that a quiet worker is left with a file exactly if
  `writeFile` opened it, and since then no write succeeded and nothing removed it;
  `FailedWriteLeavesFile` is such a run.
- The pause excludes concurrent work only while the worker takes one job at a time, and only if the
  read of the pause file after taking the permit does not fail (`PauseIsSafeIffOnePermit`). The
  poller returns a permit only after reporting, but with a second permit its loop may be past its
  check of the pause file when another job reports; and a read that fails counts as no pause. Failures
  of the other two reads do no harm.
- A pause that the poller's loop reports is withdrawn when the pause file is gone; one that only an ending
  job reported can stay in the state file until the next report (`WithdrawnIff`, `JobReportCanStay`).
- The recursions of the chart end exactly if no chain of child ids repeats an id
  (`OrgTree.RecursionEndsIff`, `OrgChart.CallsEndIff`). Unique ids are enough (`UniqueIdsEnd`), not
  necessary (`RepeatedIdCanEnd`). `LayoutOrgChart` draws every list for which they end, shared nodes
  included; its rectangles are apart exactly if no unit is reached twice (`ChartApartIff`).
- A reference of a generated schema has one definition exactly if the names built from collection and
  property names are distinct (`ResolvesOnceIff`); `AmbiguousSchema` is a collection where they are not.
- A snapshot holds a file within a private root exactly if that root is the licence path beside a
  written package manifest (`SnapshotIsPublic`). The private roots are a constant of the repository,
  and none is named like a licence, so its snapshots hold nothing private (`ShippedSnapshotIsPublic`);
  `AddedLicenseCanBePrivate` shows what another list would allow.
- A relative-time label changes when its refresh delay says so exactly if the assignment is not in
  the future (`ChangesOnTimeIff`).

Two preconditions remain. A chart is laid out for lists whose recursion ends: on the others the
program does not come to an end, as `CallsEndIff` says and `RepeatedIdClosesCycle` shows. And names in
a schema hold no brackets, bangs or line breaks. A bare type name with a bang is never renamed by
`getInputTypeName` (`RenamesExactly`); the walker never passes one.

## Model

| member | source | states |
|---|---|---|
| `WorkerPause.CriticalInRequestOrder` | apps/graphql-e2e/support/local-worker-pause.ts:22-35 | while a call is inside its critical section exactly the promises of the earlier requests are resolved: critical sections run in request order |
| `WorkerPause.MutualExclusion` | apps/graphql-e2e/support/local-worker-pause.ts:22-35 | in every reachable state at most one call is inside a critical section |
| `WorkerPause.StepInv` | apps/graphql-e2e/support/local-worker-pause.ts:22-148 | every step of every client, of the file system and of the deadline keeps the whole invariant (promise chain, count, pause file, log of file operations) |
| `WorkerPause.CountIsLiveHandles` | apps/graphql-e2e/support/local-worker-pause.ts:18-135 | `activePauseCount` equals the number of handles not yet released, and every release lowers it by one, so the `Math.max(0, …)` never clips |
| `WorkerPause.OperationHoldsPause` | apps/graphql-e2e/support/local-worker-pause.ts:137-148 | while a handle is live, the resume closure is the do-nothing one, or the file holds the last token written, whole; and an operation only runs after its promise was resolved, so the mutex is never held while it runs |
| `WorkerPause.ConfiguredIs` | apps/graphql-e2e/support/local-worker-pause.ts:67-78 | in every run the pause is configured exactly if it was last switched on |
| `WorkerPause.ConfiguredPauseHolds` | apps/graphql-e2e/support/local-worker-pause.ts:67-114 | once the pause is configured and no unconfigured pause is active, and until it is switched off, a live handle means that the file holds, whole, the token written last |
| `WorkerPause.NoopMeansUnconfigured` | apps/graphql-e2e/support/local-worker-pause.ts:71-113 | in every run the do-nothing closure is only taken by a call that acquires while the pause is not configured |
| `WorkerPause.UnconfiguredTouchesNothing` | apps/graphql-e2e/support/local-worker-pause.ts:71-78 | in a run in which the pause is never configured, no file is ever written or removed |
| `WorkerPause.FateIff` | apps/graphql-e2e/support/local-worker-pause.ts:80-148 | in every run a call fails exactly if its directory could not be made, its write failed or its pause timed out, and it is released exactly if its handle was called |
| `WorkerPause.PollAcquiresIff` | apps/graphql-e2e/support/local-worker-pause.ts:86-99 | in every reachable state a poll acquires the pause exactly if the worker reports a pause, no jobs and the token written last |
| `WorkerPause.QuietFile` | apps/graphql-e2e/support/local-worker-pause.ts:67-135 | when no handle is live and the mutex is free, the count is 0, and the pause file exists exactly if, in the run so far, some `writeFile` opened it and afterwards no write succeeded and nothing removed it |
| `WorkerPause.QuietFileAbsent` | apps/graphql-e2e/support/local-worker-pause.ts:67-135 | in a run in which no write fails half-way, the pause file is absent whenever no handle is live and the mutex is free |
| `WorkerPause.FailedWriteLeavesFile` | apps/graphql-e2e/support/local-worker-pause.ts:80-82 | a run in which a failed write leaves a file although no client runs any more |
| `WorkerPause.WritesAndRemovalsAlternate` | apps/graphql-e2e/support/local-worker-pause.ts:82-101 | in every run writes and removals of the pause file alternate, starting with a write, and no token is written twice |
| `WorkerPause.TimedOutPauseCleansUp` | apps/graphql-e2e/support/local-worker-pause.ts:101-104 | a pause that times out leaves the count at 0, no live handle and no file |
| `WorkerPause.MutexIsFifo` | apps/graphql-e2e/support/local-worker-pause.ts:22-35 | the call inside the critical section is the only one, and its ticket is older than every other pending one |
| `WorkerPause.WaitingCallsAreServed` | apps/graphql-e2e/support/local-worker-pause.ts:22-35 | from every state of the invariant there is a run, without new requests or releases and without touching a running operation, after which no call waits for or holds the mutex: nesting cannot deadlock |
| `WorkerPause.LocalWorkerPause.TakePauseTicket` | apps/graphql-e2e/support/local-worker-pause.ts:22-29 | reads the promise to wait for and replaces `pauseMutex` by a new one |
| `WorkerPause.LocalWorkerPause.WithPausedLocalWorker` | apps/graphql-e2e/support/local-worker-pause.ts:137-148 | a new request takes its ticket; the new state is the specification's |
| `WorkerPause.LocalWorkerPause.AcquireLocalWorkerPause` | apps/graphql-e2e/support/local-worker-pause.ts:67-114 | the critical section of an acquire: first acquirer prepares the file, without configuration it gets a no-op resume, others only count |
| `WorkerPause.LocalWorkerPause.DirectoryMade` | apps/graphql-e2e/support/local-worker-pause.ts:80-82 | a new token after the directory was made, or a thrown error |
| `WorkerPause.LocalWorkerPause.PauseFileOpened` | apps/graphql-e2e/support/local-worker-pause.ts:82-82 | `writeFile` has created or truncated the file, which holds no token yet |
| `WorkerPause.LocalWorkerPause.TokenWritten` | apps/graphql-e2e/support/local-worker-pause.ts:82-86 | the token is in the file, or the write failed |
| `WorkerPause.LocalWorkerPause.PollWorkerState` | apps/graphql-e2e/support/local-worker-pause.ts:86-99 | the pause is acquired exactly by a state that is paused, has no active job and carries this token |
| `WorkerPause.LocalWorkerPause.DeadlinePassed` | apps/graphql-e2e/support/local-worker-pause.ts:84-101 | the deadline ends the polling and the call goes on to time out |
| `WorkerPause.LocalWorkerPause.RemoveFileAfterTimeout` | apps/graphql-e2e/support/local-worker-pause.ts:101-104 | the file is removed before the error is thrown |
| `WorkerPause.LocalWorkerPause.ReleaseMutex` | apps/graphql-e2e/support/local-worker-pause.ts:30-34 | leaving the critical section resolves the promise and goes on to operate, finish or fail |
| `WorkerPause.LocalWorkerPause.ResumeHandle` | apps/graphql-e2e/support/local-worker-pause.ts:114-122 | releasing queues a new critical section; releasing again changes nothing |
| `WorkerPause.LocalWorkerPause.ReleaseLocalWorkerPause` | apps/graphql-e2e/support/local-worker-pause.ts:122-132 | the count goes down; the last release takes `activeResume` and clears it |
| `WorkerPause.LocalWorkerPause.ResumeWorker` | apps/graphql-e2e/support/local-worker-pause.ts:93-132 | the file is removed by the last release |
| `PauseSystem.StepPermits` | runtime/local/src/job-worker/queue-poller.ts:490-561 | every step of the poller keeps permits, claimed jobs and the job counter in balance |
| `PauseSystem.StepTokens` | runtime/local/src/job-worker/queue-poller.ts:86-488 | every token the worker has seen, is about to report or reports was written to the pause file before, also when reads fail |
| `PauseSystem.OnePermitIsSafe` | runtime/local/src/job-worker/queue-poller.ts:443-561 | with at most one permit, and no failure of the read that follows taking it, while an operation runs under an acknowledged pause no job runs and none is being claimed, in every interleaving of clients, poller and job fibers, even if the other two reads of the pause file fail at any time |
| `PauseSystem.TwoPermitsAreUnsafe` | runtime/local/src/job-worker/queue-poller.ts:496-561 | with two permits there is a run in which a job starts under the pause: the ending job reports an idle paused worker while the loop is already claiming |
| `PauseSystem.FailedCheckIsUnsafe` | runtime/local/src/job-worker/queue-poller.ts:86-505 | with one permit there is such a run too, if the read after taking it can fail: a failed read is taken for no pause |
| `PauseSystem.PauseIsSafeIffOnePermit` | runtime/local/src/job-worker/queue-poller.ts:86-561 | the pause excludes concurrent work if and only if there are no permits, or there is one and the read after taking it does not fail |
| `PauseSystem.ShippedWorkerIsSafe` | runtime/local/src/job-worker/job-worker.ts:409-454 | the worker as built, with one permit, keeps the pause exactly if that read does not fail |
| `PauseSystem.PauseCanBeGranted` | runtime/local/src/job-worker/queue-poller.ts:443-561 | from every reachable state in which a call polls, with at least one permit, the worker alone can take steps after which the call's next poll acquires the pause: a pause that is asked for is never out of reach |
| `PauseSystem.WorkCanResume` | runtime/local/src/job-worker/queue-poller.ts:443-561 | from every reachable state without a pause file, the worker alone, with at least one permit, can take steps that end with a new job running and a state file that reports it and no pause |
| `PauseSystem.StepFlag` | runtime/local/src/job-worker/queue-poller.ts:459-488 | the loop remembers a pause from the read that found it until the read on waking that finds none, and at no other time |
| `PauseSystem.WithdrawnIff` | runtime/local/src/job-worker/queue-poller.ts:443-484 | when the loop wakes after the pause file is gone it comes to ask for a permit, and the state file then still reports a pause exactly if it did before and the loop had not seen the pause itself |
| `PauseSystem.LoopWithdrawsItsReport` | runtime/local/src/job-worker/queue-poller.ts:459-484 | a pause that the loop itself reports is withdrawn once the pause file is gone |
| `PauseSystem.JobReportCanStay` | runtime/local/src/job-worker/queue-poller.ts:496-548 | the report of a job that ended during the pause can stay after it: a run in which the loop claims a job below it |
| `PauseSystem.LoopReportIsTrue` | runtime/local/src/job-worker/queue-poller.ts:443-458 | a report of the loop counts the claimed jobs that have not ended, says a pause exactly if a token was read, and is written exactly if the state file says something else |
| `PauseSystem.JobReportIsTrue` | runtime/local/src/job-worker/queue-poller.ts:443-548 | so does a report of a job that ended |
| `OrgTree.FlattenOrgUnits` | apps/frontend/lib/org-chart-data.ts:25-50 | the loop returns the preorder list with parent pointers |
| `OrgTree.RootIsLast` | apps/frontend/lib/org-chart-layout.ts:34-47 | the root is the last unit whose parent id is missing or empty |
| `OrgTree.LookupIsLast` | apps/frontend/lib/org-chart-layout.ts:22-31 | a lookup by id finds the last unit of that id |
| `OrgTree.DepthBound` | apps/frontend/lib/org-chart-layout.ts:18-49 | with unique ids, every unit whose parent chain ends at the root is fewer steps away than there are units, whatever the other pointers (dangling or cyclic): the recursion ends |
| `OrgTree.TreeHoldsReachableUnits` | apps/frontend/lib/org-chart-layout.ts:18-49 | the tree built holds exactly the units whose parent chain ends at the last parentless unit, each once |
| `OrgTree.RecursionEndsIff` | apps/frontend/lib/org-chart-layout.ts:33-92 | for every list, repeated ids included: the recursion below a unit ends if and only if no chain of child ids comes back to an id it has passed, and it is then no deeper than the list is long |
| `OrgTree.UniqueIdsEnd` | apps/frontend/lib/org-chart-layout.ts:18-49 | with unique ids the recursion below the root ends, whatever the parent pointers |
| `OrgTree.RepeatedIdCanEnd` | apps/frontend/lib/org-chart-layout.ts:18-49 | unique ids are not necessary for that: a list with a repeated id for which the recursion ends |
| `OrgTree.RepeatedIdClosesCycle` | apps/frontend/lib/org-chart-layout.ts:21-47 | nor do repeated ids always go well: a list whose root becomes its own child, for which the recursion ends at no depth |
| `OrgTree.UnfoldHolds` | apps/frontend/lib/org-chart-layout.ts:18-131 | for every list whose recursion ends, the tree of calls holds exactly the units that a chain of child ids leads to |
| `OrgTree.UniqueIdsChart` | apps/frontend/lib/org-chart-layout.ts:18-49 | for unique ids this tree is the one with every reachable unit once |
| `OrgTree.FlattenRoundTrip` | apps/frontend/lib/org-chart-data.ts:25-50 | for every tree with unique non-empty ids, building the tree of its flat list gives the tree back, with child order |
| `OrgLayout.WidthByLeaves` | apps/frontend/lib/org-chart-layout.ts:53-64 | the width of a subtree is 320 times its leaves minus 40 |
| `OrgLayout.MinimumNeverBinds` | apps/frontend/lib/org-chart-layout.ts:58-63 | the maximum with the minimum width never changes the result |
| `OrgLayout.DescendantInsideAncestor` | apps/frontend/lib/org-chart-layout.ts:75-92 | every descendant's horizontal interval lies inside its ancestor's |
| `OrgLayout.PlacedApart` | apps/frontend/lib/org-chart-layout.ts:75-131 | any two boxes of a layout are at least 40 apart horizontally when they are equally deep, and at least 100 apart vertically otherwise |
| `OrgLayout.GapsInPixels` | apps/frontend/lib/org-chart-layout.ts:12-131 | two boxes are at least 40 pixels apart in one row; rows are 90 high and at least 100 apart |
| `OrgLayout.RowsAndWidths` | apps/frontend/lib/org-chart-layout.ts:53-92 | the box at every path is at 190 times its depth, and 320 times its leaves minus 40 wide, at least 280 |
| `OrgLayout.NoOverlap` | apps/frontend/lib/org-chart-layout.ts:95-131 | no two emitted rectangles overlap |
| `OrgLayout.BoxEmitted` | apps/frontend/lib/org-chart-layout.ts:95-131 | the node at every path is emitted with its computed position and width |
| `OrgLayout.LeavesEvenlySpaced` | apps/frontend/lib/org-chart-layout.ts:75-92 | the i-th leaf in preorder is at 320 times i |
| `OrgLayout.PositionByLeaves` | apps/frontend/lib/org-chart-layout.ts:75-92 | every node starts at 320 times the number of leaves before it |
| `OrgLayout.EmittedInPreorder` | apps/frontend/lib/org-chart-layout.ts:95-131 | nodes are emitted in preorder |
| `OrgLayout.EdgesMatchBoxes` | apps/frontend/lib/org-chart-layout.ts:117-128 | there is one edge for each node but the root, in the same order, from a node emitted before it, one level above it and spanning it |
| `OrgLayout.DrawnTwice` | apps/frontend/lib/org-chart-layout.ts:75-131 | a unit that is reached twice is drawn twice in exactly one place, having one node |
| `OrgLayout.DrawnApartIff` | apps/frontend/lib/org-chart-layout.ts:75-131 | the drawn rectangles are apart if and only if no unit is reached twice |
| `OrgLayout.ChartOfOrg` | apps/frontend/lib/org-chart-data.ts:25-50 | laying out a flattened tree emits its units in flatten order with n - 1 edges |
| `OrgLayout.EdgesAreParentPointers` | apps/frontend/lib/org-chart-layout.ts:117-128 | every edge is the parent pointer of its target, and every node but the root is the target of exactly one edge |
| `OrgChart.IndexUnits` | apps/frontend/lib/org-chart-layout.ts:19-31 | every id is mapped to a fresh node |
| `OrgChart.LinkToParent` | apps/frontend/lib/org-chart-layout.ts:35-47 | one step of the linking loop pushes the node to its parent's children, if the parent exists |
| `OrgChart.BuildTree` | apps/frontend/lib/org-chart-layout.ts:18-50 | the node graph has, under every id, the children that the flat list gives it; the root is the last parentless unit |
| `OrgChart.CallsEndIff` | apps/frontend/lib/org-chart-layout.ts:18-131 | for every list, the recursions over the nodes that `BuildTree` links end below a node if and only if no chain of child ids repeats an id |
| `OrgChart.BuiltShape` | apps/frontend/lib/org-chart-layout.ts:18-50 | for every list whose recursion ends, repeated ids included, the mutable node graph has the shape of the tree of calls |
| `OrgChart.AssignDepths` | apps/frontend/lib/org-chart-layout.ts:67-72 | every id gets the depth of its last occurrence in the tree, shared nodes included, and ids outside it keep theirs |
| `OrgChart.CalculateSubtreeWidth` | apps/frontend/lib/org-chart-layout.ts:53-64 | returns the width of the functional tree |
| `OrgChart.PositionNodes` | apps/frontend/lib/org-chart-layout.ts:75-92 | every id gets the place and width of its last occurrence in the functional layout, in the row of its own depth; the others keep theirs |
| `OrgChart.TreeToNodesAndEdges` | apps/frontend/lib/org-chart-layout.ts:95-131 | appends, for each occurrence in preorder, the box where its id was placed last, and the edges of the tree |
| `OrgChart.LayoutOrgChart` | apps/frontend/lib/org-chart-layout.ts:133-149 | for every list whose recursion below the root ends, the chart draws the tree of calls, each occurrence where the last one of its id was placed, with the edges of that tree; it is empty without a root |
| `OrgChart.ChartApartIff` | apps/frontend/lib/org-chart-layout.ts:133-149 | the rectangles of that chart are apart if and only if no unit is reached twice; for unique ids it is the layout of the tree built from the list |
| `TokenRefresh.StepInv` | apps/frontend/components/token-refresh-scheduler.tsx:53-300 | every event (timer, network answer, visibility change, cleanup, effect run) keeps the invariant |
| `TokenRefresh.OneRefreshInFlight` | apps/frontend/components/token-refresh-scheduler.tsx:69-83 | at most one refresh that is not cancelled is in flight, and it is the one in the cancel slot |
| `TokenRefresh.LateAnswerIsInert` | apps/frontend/components/token-refresh-scheduler.tsx:84-159 | an answer for a cancelled refresh changes neither timers, expiry, retry count, exits nor its successor's slot |
| `TokenRefresh.SettledWhenDone` | apps/frontend/components/token-refresh-scheduler.tsx:75-158 | a refresh that is over, or cancelled, has settled its replication gate |
| `TokenRefresh.RedirectIsFinal` | apps/frontend/components/token-refresh-scheduler.tsx:60-236 | once the redirect flag is set, it stays set, and no later run starts a refresh or sets a timer |
| `TokenRefresh.NothingRunsUnmounted` | apps/frontend/components/token-refresh-scheduler.tsx:193-299 | while unmounted every refresh in flight is cancelled, and no event starts one |
| `TokenRefresh.NeverAsleep` | apps/frontend/components/token-refresh-scheduler.tsx:168-300 | while mounted, visible and not redirected, a timer is pending or a refresh is in flight: no wake-up is lost |
| `TokenRefresh.FourthFailureLogsIn` | apps/frontend/components/token-refresh-scheduler.tsx:203-272 | a run with four counted failures, in which nothing resets the budget, has left for the login page |
| `TokenRefresh.RetryCountBounded` | apps/frontend/components/token-refresh-scheduler.tsx:208-264 | the retry count is at most 3, or 4 with the redirect flag set |
| `TokenRefresh.TimerDelays` | apps/frontend/components/token-refresh-scheduler.tsx:174-222 | refresh timers wait at least the minimum delay, back-off timers 1, 2 or 4 seconds |
| `TokenRefresh.RefreshComesBeforeExpiry` | apps/frontend/components/token-refresh-scheduler.tsx:174-191 | the refresh fires in the second that is 300 seconds before expiry, or after 5 seconds if that is nearer |
| `TokenRefresh.ExpiryIsBooked` | apps/frontend/components/token-refresh-scheduler.tsx:96-231 | in every run the expiry in use is the one given last: by the props, or by the answer of a call that was then accepted and not cancelled |
| `TokenRefresh.NextRefreshInTime` | apps/frontend/components/token-refresh-scheduler.tsx:168-206 | after a refresh, in every run, a timer is pending that fires in the second 300 seconds before the expiry that was given last, or after five seconds |
| `TokenRefresh.NewTimersInTime` | apps/frontend/components/token-refresh-scheduler.tsx:168-225 | every event sets at most one timer, and a refresh timer it sets is in time for the expiry in use |
| `TokenRefresh.CancelledAtCleanup` | apps/frontend/components/token-refresh-scheduler.tsx:78-299 | the calls that become cancelled are those in flight at a clean-up |
| `TokenRefresh.GoodAnswersRenew` | apps/frontend/components/token-refresh-scheduler.tsx:86-158 | a refresh with good answers is accepted: its expiry counts, the retry budget is full, and nothing else changes |
| `TokenRefresh.BusyRefreshSucceeds` | apps/frontend/components/token-refresh-scheduler.tsx:69-197 | a timer that fires while a refresh is in flight starts none and counts as a success |
| `TokenRefresh.ExitsAreSent` | apps/frontend/components/token-refresh-scheduler.tsx:60-212 | in every run the page goes to the login exactly when the server refuses the session or a failure finds the retry budget spent, and is reloaded exactly when the session is another one or cannot be taken over |
| `TokenRefresh.FailsIffRetryable` | apps/frontend/components/token-refresh-scheduler.tsx:90-154 | an answer counts as a failure exactly if it is an error of the network, of the server, of reading it or of the identity check |
| `TokenRefresh.NthBackoff` | apps/frontend/components/token-refresh-scheduler.tsx:206-273 | the first, second and third counted failure since the budget was full set back-off timers of 1, 2 and 4 seconds |
| `TokenRefresh.ShownTab` | apps/frontend/components/token-refresh-scheduler.tsx:234-278 | a tab that is shown refreshes at once within 300 seconds of expiry, and otherwise sets a timer in time |
| `TokenRefresh.HiddenTab` | apps/frontend/components/token-refresh-scheduler.tsx:279-282 | a hidden tab has no pending timer |
| `TokenRefresh.MountedIs` | apps/frontend/components/token-refresh-scheduler.tsx:227-299 | the component counts as mounted from an effect that ran until the next clean-up |
| `TokenRefresh.TokenRefreshScheduler.Schedule` | apps/frontend/components/token-refresh-scheduler.tsx:168-225 | replaces the timer by one with the computed delay |
| `TokenRefresh.TokenRefreshScheduler.StartRefresh` | apps/frontend/components/token-refresh-scheduler.tsx:69-83 | starts a refresh unless one is in flight |
| `TokenRefresh.TokenRefreshScheduler.ResponseArrived` | apps/frontend/components/token-refresh-scheduler.tsx:86-96 | the answer to the request |
| `TokenRefresh.TokenRefreshScheduler.BodyArrived` | apps/frontend/components/token-refresh-scheduler.tsx:96-119 | the body of the answer |
| `TokenRefresh.TokenRefreshScheduler.RecipientVerified` | apps/frontend/components/token-refresh-scheduler.tsx:118-149 | the identity check before renewing |
| `TokenRefresh.TokenRefreshScheduler.SessionRenewed` | apps/frontend/components/token-refresh-scheduler.tsx:126-140 | the renewed session is accepted, or the page reloads |
| `TokenRefresh.TokenRefreshScheduler.TimerFired` | apps/frontend/components/token-refresh-scheduler.tsx:193-225 | a refresh timer refreshes unless the component is unmounted or redirected; a back-off timer schedules, which does nothing after a redirect |
| `TokenRefresh.TokenRefreshScheduler.RefreshReturned` | apps/frontend/components/token-refresh-scheduler.tsx:197-274 | what a timer or a visibility change does after its refresh |
| `TokenRefresh.TokenRefreshScheduler.HandleVisibilityChange` | apps/frontend/components/token-refresh-scheduler.tsx:234-282 | visible near expiry refreshes at once, visible otherwise reschedules, hidden pauses |
| `TokenRefresh.TokenRefreshScheduler.CleanUpEffect` | apps/frontend/components/token-refresh-scheduler.tsx:293-299 | cancels the refresh and the timer |
| `TokenRefresh.TokenRefreshScheduler.RunEffect` | apps/frontend/components/token-refresh-scheduler.tsx:284-292 | the effect marks the component mounted, schedules and listens |
| `TokenRefresh.TokenRefreshScheduler.FollowProps` | apps/frontend/components/token-refresh-scheduler.tsx:227-231 | the effect that follows the props marks the component mounted and takes over the new expiry |
| `PluginLoader.StepInv` | apps/frontend/lib/frontend-plugin-loaders.ts:80-122 | every new call, activation check, loader result and microtask keeps the invariant |
| `PluginLoader.LoadedOnce` | apps/frontend/lib/frontend-plugin-loaders.ts:97-121 | for one type, every load but the last is settled without activation: at most one is in flight, and none follows a successful one |
| `PluginLoader.LoadedMeansActivated` | apps/frontend/lib/frontend-plugin-loaders.ts:108-112 | a type is in the loaded set exactly if one of its loads was activated |
| `PluginLoader.WaiterGetsOutcome` | apps/frontend/lib/frontend-plugin-loaders.ts:101-121 | every call that waited returns or throws what the very load it joined came to |
| `PluginLoader.OwnerDeletesOwnEntry` | apps/frontend/lib/frontend-plugin-loaders.ts:114-121 | the owner's cleanup removes its own entry, never that of a newer load, and only owners remove entries |
| `PluginLoader.NoCallForgotten` | apps/frontend/lib/frontend-plugin-loaders.ts:97-121 | a waiting call is subscribed to its load or already queued, and the queue can always go on |
| `PluginLoader.EmptyQueueMeansPending` | apps/frontend/lib/frontend-plugin-loaders.ts:101-121 | with an empty queue, every call that still waits does so for a loader that is still pending |
| `PluginLoader.MicrotasksDrain` | apps/frontend/lib/frontend-plugin-loaders.ts:97-121 | from every reachable state, microtasks alone empty the queue, and then exactly the calls wait whose loader was, and is, still pending |
| `PluginLoader.ActivatedReturnsTrue` | apps/frontend/lib/frontend-plugin-loaders.ts:93-99 | in every reachable state a call that has no check or passes it, and whose type has been activated, returns true at once and loads nothing |
| `PluginLoader.EndIsExplained` | apps/frontend/lib/frontend-plugin-loaders.ts:80-122 | in every run a call that waited for no load returned false only if its own check refused it, threw only if there was no loader or its own check or loader threw, and returned true only for a type that was activated |
| `PluginLoader.LoadsFollow` | apps/frontend/lib/frontend-plugin-loaders.ts:101-114 | every load has the status that its own loader's answer gives it, and begins for a type that is neither loaded nor loading |
| `PluginLoader.FrontendPluginLoaders.EnsureFrontendPluginTypeLoaded` | apps/frontend/lib/frontend-plugin-loaders.ts:80-95 | a call up to its activation check |
| `PluginLoader.FrontendPluginLoaders.ActivationChecked` | apps/frontend/lib/frontend-plugin-loaders.ts:93-95 | a check that throws or refuses ends the call; otherwise it goes on to load |
| `PluginLoader.FrontendPluginLoaders.LoadOnce` | apps/frontend/lib/frontend-plugin-loaders.ts:97-114 | loaded, joined, thrown or started |
| `PluginLoader.FrontendPluginLoaders.LoaderSettled` | apps/frontend/lib/frontend-plugin-loaders.ts:108-108 | a loader's outcome queues the reaction of its load |
| `PluginLoader.FrontendPluginLoaders.RunMicrotask` | apps/frontend/lib/frontend-plugin-loaders.ts:97-122 | the oldest microtask runs: the `then` of a load, or a call that resumes |
| `PluginLoader.FrontendPluginLoaders.ThenActivated` | apps/frontend/lib/frontend-plugin-loaders.ts:108-112 | the `then` of a load marks its type and wakes the calls awaiting it |
| `PluginLoader.FrontendPluginLoaders.AfterAwait` | apps/frontend/lib/frontend-plugin-loaders.ts:103-121 | a call's result, and the owner's cleanup |
| `CommentScanner.ScanIsRender` | tools/project-boundaries/reference-scanner.ts:20-58 | on every text read by the lexical grammar (characters, string literals, line and block comments) the scan keeps the characters, the literals, and of comments their newlines |
| `CommentScanner.LiteralStays` | tools/project-boundaries/reference-scanner.ts:24-39 | a literal in any of the three quotes, with escaped characters in it, stays as it is |
| `CommentScanner.LineCommentGoes` | tools/project-boundaries/reference-scanner.ts:40-44 | a line comment leaves one newline, also at the end of the text |
| `CommentScanner.BlockCommentGoes` | tools/project-boundaries/reference-scanner.ts:45-56 | a block comment leaves its newlines, also if it is not closed |
| `CommentScanner.CharacterStays` | tools/project-boundaries/reference-scanner.ts:57-58 | any other character stays |
| `CommentScanner.Lex` | tools/project-boundaries/reference-scanner.ts:20-58 | every text is read by that grammar, and its pieces make up the text |
| `CommentScanner.LexUnique` | tools/project-boundaries/reference-scanner.ts:20-58 | in one way only |
| `CommentScanner.ScanIdempotent` | tools/project-boundaries/reference-scanner.ts:15-59 | scanning twice is scanning once, on every text |
| `CommentScanner.ScanKeepsLiterals` | tools/project-boundaries/reference-scanner.ts:24-39 | the scanned text holds no comment, and the same string literals in the same order |
| `CommentScanner.NewlinesPreserved` | tools/project-boundaries/reference-scanner.ts:40-56 | the number of newlines is kept, except that one is added exactly if the text ends inside a line comment |
| `CommentScanner.WithoutComments` | tools/project-boundaries/reference-scanner.ts:15-59 | the loop, with its index, quote and escape variables, computes the scan |
| `CedarTokens.TokensLossless` | apps/frontend/lib/cedar-highlight.ts:41-116 | token texts concatenate to the source, none is empty, and each start is the total length before it |
| `CedarTokens.TokensStable` | apps/frontend/lib/cedar-highlight.ts:41-116 | tokenizing any token's text alone gives that one token, with the same kind |
| `CedarTokens.TokensMaximal` | apps/frontend/lib/cedar-highlight.ts:53-112 | a token ends only at a character (or a segment) that cannot belong to it |
| `CedarTokens.StringIsOneToken` | apps/frontend/lib/cedar-highlight.ts:61-77 | a literal with escaped characters is one string token, whatever follows |
| `CedarTokens.CommentIsOneToken` | apps/frontend/lib/cedar-highlight.ts:53-59 | a comment is one token up to the end of its line |
| `CedarTokens.NameIsOneToken` | apps/frontend/lib/cedar-highlight.ts:79-101 | names joined by double colons are one entity token; a single name is a keyword if it is among the keywords, and text otherwise |
| `CedarTokens.KeywordsAre` | apps/frontend/lib/cedar-highlight.ts:14-36 | which words are keywords |
| `CedarTokens.TokenizeCedar` | apps/frontend/lib/cedar-highlight.ts:41-116 | the tokenizer's nested loops return these tokens |
| `PercentCoding.EncodeRoundTrip` | apps/frontend/lib/embed-manifest.ts:127-128 | decoding undoes encoding, for every text (section 2.1 of RFC 3986 over section 3 of RFC 3629) |
| `PercentCoding.EncodeSafe` | apps/frontend/lib/embed-manifest.ts:144-145 | an encoded text holds only unreserved characters and percent signs, and is empty only for the empty text |
| `PercentCoding.EncodeForm` | apps/frontend/lib/embed-manifest.ts:127-128 | letters, digits and nine marks are encoded as themselves, everything else by percent triplets, with capital digits, of its UTF-8 bytes |
| `PercentCoding.Utf8Iff` | apps/frontend/lib/embed-manifest.ts:127-128 | the UTF-8 bytes of a character are those of the table of section 3 of RFC 3629 |
| `PercentCoding.DecodeIff` | apps/frontend/lib/embed-manifest.ts:127-131 | a text decodes to another exactly if it spells it, each character by itself or by triplets of its UTF-8 bytes; overlong forms, surrogates and broken triplets are refused |
| `EmbedPath.CanonicalIff` | apps/frontend/lib/embed-manifest.ts:133-134 | a path is canonical exactly if it is printed by its own segments |
| `EmbedPath.NormalizeUndoesRoute` | apps/frontend/public/processfocus-embed.js:73-112 | for every path, normalizing its route gives its segments back under one slash, or nothing if it has none |
| `EmbedPath.RouteRoundTrip` | apps/frontend/public/processfocus-embed.js:73-112 | the route gives back the path if and only if the path is canonical, also when its first segment is `embed` |
| `EmbedPath.SpellingsAgree` | apps/frontend/public/processfocus-embed.js:91-112 | one leading `embed` or none, any number of leading slashes, and a query or fragment make no difference to what a path is normalized to: its segments, decoded where they can be |
| `EmbedPath.SpacesAroundGo` | apps/frontend/public/processfocus-embed.js:78-81 | nor does white space around it |
| `EmbedPath.SpacesAre` | apps/frontend/public/processfocus-embed.js:78-78 | blanks, tabs and line ends are white space, visible ASCII characters are not |
| `EmbedPath.UrlCountsForItsPath` | apps/frontend/public/processfocus-embed.js:83-89 | an absolute URL is normalized like its path |
| `EmbedPath.PageReadsRoute` | apps/frontend/lib/embed-manifest.ts:127-145 | the page's segments are `embed` and the encoded segments, and decode to the path exactly if it is canonical |
| `EmbedPath.ClientAndServerAgree` | apps/frontend/public/processfocus-embed.js:114-119 | the client prints the server's route from what it read |
| `LineStream.SplitIsTheText` | scripts/nx-quiet.ts:60-66 | a text is its finished lines, each with its newline, and the rest, none of which holds a newline |
| `LineStream.SplitUnique` | scripts/nx-quiet.ts:60-66 | and it is so in one way only |
| `LineStream.SplitAppend` | scripts/nx-quiet.ts:58-66 | only the unfinished line has to be kept when more text arrives |
| `LineStream.ConsumeLines` | scripts/nx-quiet.ts:60-65 | the inner loop consumes the finished lines of the buffer and leaves the rest |
| `LineStream.PrintedAre` | scripts/nx-quiet.ts:60-65 | what is printed are the progress lines, in order, and nothing if progress is not forwarded |
| `LineStream.LinesMakeText` | scripts/nx-quiet.ts:60-71 | the lines of a text, each with a newline, are the text, but for a missing newline at its end |
| `LineStream.CollectStream` | scripts/nx-quiet.ts:43-72 | for every way of cutting a text, the text comes back whole and the lines printed are those of its lines that are to be printed |
| `InputTypes.MatchPrinted` | cli/generate-rxdb/src/generator.ts:217-222 | the lazy pattern splits a printed list reference into its item, the item's bang and the outer bang |
| `InputTypes.RenamesInside` | cli/generate-rxdb/src/generator.ts:212-232 | on every list reference, and every bare name without a bang, the result is the print of the same structure with nested names renamed |
| `InputTypes.RenamesExactly` | cli/generate-rxdb/src/generator.ts:212-232 | this holds if and only if the reference is not a bare nested name with a bang |
| `SchemaWalker.DetermineGood` | cli/generate-rxdb/src/walker.ts:175-364 | walking a schema only adds nested types, keeps each referring to earlier ones, and returns a reference to a scalar or to one of them |
| `SchemaWalker.CollectionResolves` | cli/generate-rxdb/src/walker.ts:147-170 | a collection's fields refer to scalars and to the nested types found; nested types are defined before they are used |
| `SchemaWalker.FieldsFollowProperties` | cli/generate-rxdb/src/walker.ts:156-192 | the fields of a type literal are its properties, in order, with their names, nullable exactly if optional |
| `SchemaTypes.DetermineIs` | cli/generate-rxdb/src/walker.ts:222-364 | what the walk determines for a part is that part's own type, from the table of keywords, marks, lists and nested names, and its own nested types after those found before; it fails exactly on unsupported parts |
| `SchemaTypes.CollectionIs` | cli/generate-rxdb/src/walker.ts:147-193 | a collection is walked exactly if it is a struct of supported properties; its fields are the properties' names, types and nullability |
| `SchemaTypes.FirstDefinedIs` | cli/generate-rxdb/src/walker.ts:314-318 | the member of a union that counts is the first that is neither undefined nor void |
| `SchemaTypes.CollectionInSchema` | cli/generate-rxdb/src/generator.ts:173-207 | every collection has an object type with its properties, required unless optional, and `deleted`, and a type for pulling its documents in bulk |
| `SchemaTypes.OperationsInSchema` | cli/generate-rxdb/src/generator.ts:270-293 | the names, arguments and results of a collection's operations; only `Execution` can be asked for by time |
| `SchemaGenerator.InputMirrorsObject` | cli/generate-rxdb/src/generator.ts:156-250 | an input type has the fields of its object type: the same names, list structure and bangs, over renamed nested types |
| `SchemaGenerator.ReferencesResolve` | cli/generate-rxdb/src/generator.ts:20-86 | in every generated schema, every field of an object type and every result of an operation refers to a scalar, the base type BulkCheckpoint or a generated object type, and every field of an input type and every argument to a scalar, the base type PullCheckpoint or a generated input type |
| `SchemaGenerator.NestedClosed` | cli/generate-rxdb/src/generator.ts:140-171 | the object and input types of a collection's nested types refer to what is defined |
| `SchemaGenerator.PushClosed` | cli/generate-rxdb/src/generator.ts:237-270 | so do the three push input types |
| `SchemaGenerator.GenerateGraphQL` | cli/generate-rxdb/src/generator.ts:20-86 | the loops push these definitions and operations, or return the first walk error |
| `SchemaNames.DefinitionsAreBuilt` | cli/generate-rxdb/src/generator.ts:41-75 | the definitions of a schema have, in order, the names built from the collection and property names |
| `SchemaNames.WalkNames` | cli/generate-rxdb/src/walker.ts:208-288 | the names of the nested types that a walk adds are a function of the property names alone |
| `SchemaNames.BuiltReferenced` | cli/generate-rxdb/src/generator.ts:20-86 | every definition of every collection is referred to by a field, an operation or an argument |
| `SchemaNames.ResolvesOnceIff` | cli/generate-rxdb/src/generator.ts:20-322 | in every generated schema, each reference is to exactly one definition if and only if the names built from the collection and property names are pairwise distinct and differ from the fixed names |
| `SchemaNames.EqualNestedNames` | cli/generate-rxdb/src/walker.ts:211-287 | properties `foo: {bar: {x}}` and `fooBar: {y}` of a collection `C` give two different nested types `CFooBar` |
| `SchemaNames.AmbiguousSchema` | cli/generate-rxdb/src/generator.ts:20-86 | so its schema defines `CFooBar` twice, with different fields, and refers to it |
| `ProjectGraph.EdgeAllowedIff` | tools/project-boundaries/policy.ts:266-289 | towards a classified project the four constraints come down to one: public source depends on public source only |
| `ProjectGraph.PathStaysPublic` | scripts/check-project-boundaries.ts:70-91 | everything on a dependency path from public source is public source |
| `ProjectGraph.CheckMeansSeparation` | scripts/check-project-boundaries.ts:43-94 | the check reports nothing if and only if every project has exactly one visibility and one distribution tag, no private one is publishable, and no private source is reachable along any dependency path from public source |
| `ProjectGraph.ValidateProjectGraph` | scripts/check-project-boundaries.ts:43-94 | the loops report exactly the errors of the nodes and then of the edges, in order |
| `ProjectGraph.ReportedIff` | scripts/check-project-boundaries.ts:43-94 | an error is reported exactly if it is the fault of a node (not one visibility tag, not one distribution tag, private but publishable) or a constraint violated by a dependency between nodes of the graph |
| `ProjectGraph.TagsCount` | scripts/check-project-boundaries.ts:31-41 | the tags of a dimension are counted with repetitions |
| `ProjectGraph.EdgeAllowedTowardsAny` | tools/project-boundaries/policy.ts:266-289 | towards any target the constraints mean: public needs public, private needs a visibility tag, and a distribution tag needs a distribution tag |
| `ProjectGraph.InferredTagsClassified` | tools/project-boundaries/policy.ts:328-347 | the tags the policy infers pass the node check unless a private root is listed as publishable |
| `ProjectGraph.InferredTagsAre` | tools/project-boundaries/policy.ts:328-347 | a root is tagged public exactly if it is a public root, publishable exactly if it is a publishable one, and not at all if it is neither public nor private |
| `Snapshot.InputsSeparated` | scripts/create-public-source-snapshot.ts:45-69 | the allowlist check reports nothing if and only if every input is an explicit path and no path whatever lies under both an input and a private root |
| `Snapshot.ExportPartitions` | scripts/create-public-source-snapshot.ts:234-296 | the entries are partitioned, in order, into excluded paths and written files, no path is written twice, and only licences are added |
| `Snapshot.LicenseClosure` | scripts/create-public-source-snapshot.ts:241-296 | every written package manifest has exactly one licence file beside it, with the canonical bytes |
| `Snapshot.LicenseBeside` | scripts/create-public-source-snapshot.ts:257-287 | that licence's path is in the manifest's own directory |
| `Snapshot.ChangesRecorded` | scripts/create-public-source-snapshot.ts:234-296 | every file of an export is its entry's blob with its mode, or differs from it as the receipt records: a manifest that got its licence, a licence made canonical, or a licence that was added |
| `Snapshot.NeverOverwrites` | scripts/create-public-source-snapshot.ts:220-285 | on the entries of a Git tree the first loop never meets an existing file |
| `Snapshot.SnapshotIsPublic` | scripts/create-public-source-snapshot.ts:127-296 | a file of a snapshot lies within a private root if and only if the root is itself the licence path beside a written package manifest, and any such file is at exactly that path |
| `Snapshot.OrdinarySnapshotIsPublic` | scripts/create-public-source-snapshot.ts:127-296 | if no private root is named like a licence, no file of a snapshot lies within any of them |
| `Snapshot.ShippedSnapshotIsPublic` | tools/project-boundaries/policy.ts:95-115 | which holds of the private roots of the repository: no file of a snapshot lies within any of them |
| `Snapshot.AddedLicenseCanBePrivate` | scripts/create-public-source-snapshot.ts:45-287 | with another list of private roots, an input passes the allowlist check and the licence added lies under a private root |
| `Snapshot.CreatePublicSourceSnapshot` | scripts/create-public-source-snapshot.ts:146-296 | the checks and the two loops, with every error in its order |
| `SnapshotRules.WithinIsInside` | scripts/create-public-source-snapshot.ts:42-43 | a path is within a root exactly if the root's segments are its first segments |
| `SnapshotRules.ExcludedExactly` | scripts/create-public-source-snapshot.ts:38-238 | the paths reported as excluded are the entries inside an exclusion and those called AGENTS.md or CLAUDE.md |
| `SnapshotRules.NothingKeptBackIsWritten` | scripts/create-public-source-snapshot.ts:20-296 | no file of a snapshot is called AGENTS.md or CLAUDE.md or lies inside an exclusion, except a licence that was added and is itself the exclusion |
| `SnapshotRules.SnapshotIs` | scripts/create-public-source-snapshot.ts:234-296 | a snapshot holds, in order, the wanted form of every entry that is not kept back and then the added licences, and records exactly what was changed and added |
| `SnapshotRules.SnapshotMadeIff` | scripts/create-public-source-snapshot.ts:45-296 | a snapshot of a tree is made exactly if inputs and entries are admitted, every written manifest and licence copy is reviewed, and no written file lies below the place of a licence |
| `SnapshotRules.ErrorTells` | scripts/create-public-source-snapshot.ts:45-296 | a refused snapshot names what is wrong |
| `SnapshotRules.ExplicitIff` | scripts/create-public-source-snapshot.ts:45-60 | an input is explicit exactly if it holds no pattern, control or drive character, no backslash, and no empty, dotted or Git segment |
| `SnapshotRules.InputErrorsTell` | scripts/create-public-source-snapshot.ts:48-69 | every error of the allowlist check names an input and what is wrong with it |
| `TodoLabels.SameLabelIff` | apps/frontend/lib/todo-utils.ts:44-69 | two moments show the same label exactly if the same number of label changes is still to come |
| `TodoLabels.LabelTimes` | apps/frontend/lib/todo-utils.ts:44-69 | the labels by age in milliseconds: just now, minutes, hours, yesterday, days, the date |
| `TodoLabels.DelayIff` | apps/frontend/lib/todo-utils.ts:85-100 | there is a delay exactly for readable times less than a week old |
| `TodoLabels.DelayMeetsLabel` | apps/frontend/lib/todo-utils.ts:85-100 | the label stays until one second before the delay is over, changes exactly then, and the extra second skips no label |
| `TodoLabels.ChangesOnTimeIff` | apps/frontend/lib/todo-utils.ts:85-100 | the change comes exactly then if and only if the assignment is not in the future |
| `TodoLabels.RefreshesAreRank` | apps/frontend/lib/todo-utils.ts:85-100 | repeated refreshing shows every label still to come, one a refresh, and then stops |
| `TodoLabels.RefreshesBounded` | apps/frontend/lib/todo-utils.ts:85-100 | 89 refreshes suffice if and only if the assignment is at most one second in the future |

## Left out

- The queue poller is modelled on values, its loop and fibers being Effect programs. Writing the state file and remembering the snapshot are one step, the notification between them being taken to do nothing. Worker restarts and a second worker are not modelled.
- Time is not modelled: the 15-second deadline may pass at any poll, and the 100 ms sleeps are the steps of others. Tokens are fresh, and removing the file always succeeds.
- An operation under a pause that throws releases its handle like one that returns, so the two are one step.
- The queue database: claiming a job either finds one or not.
- How many refresh timers are pending at once: the back-off assignments can overwrite a live handle.
- The 32-bit limit of `setTimeout` delays.
- React rendering, the effect system's own scheduling, the router and the replication adapters: the refs and the order of events are what the model keeps of them.
- Plugin loading: calls of the loader from inside a loader, failure observers that throw, the reset used by tests, and the sequential loop of `loadFrontendManifestPlugins` over one manifest are not modelled.
- The chart's constant presentation fields of nodes and edges (types, styles, colours, edge ids) are not modelled.
- Empty unit ids in the round trip of a flattened tree: the source takes an empty parent id for a missing one.
- CommentScanner.WithoutComments: without the final removal of lines that start with `#` (line 61 of the scanner); it can delete quotes, and the whole function is not idempotent. The package-reference patterns are not part of this model.
- Texts are sequences of Unicode scalar values throughout, not of UTF-16 code units; lone surrogates, which `encodeURIComponent` refuses, do not occur.
- Absolute embed URLs go through the URL parser, which is a parameter. `loadForm` normalizes a second time, so a segment that decodes to text with `%`, `?` or `#` need not survive that; dot segments are removed by the URL parser.
- Decoding of the output stream: chunks are decoded texts; what the UTF-8 decoder flushes at the end is a parameter, and holds no newline because it is at most a replacement character. The test for progress lines is a parameter.
- SchemaGenerator.ReferencesResolve: definitions and operations are kept as names, fields and arguments, not as text; of the fixed base types and scalars the model keeps the names and references. That the definition is the only one of its name is `ResolvesOnceIff`.
- The list of nested types, which the source extends in place, is passed along as a value. Capitalizing a field name is modelled for ASCII letters.
- The remaining validators of the boundary script (inventory, publication, text references, dashboard boundaries) are not modelled; reading a key of the graph's records never meets an inherited property.
- Git's output is taken as entries at pairwise incomparable paths, each under some input; the destination, digests, file modes on disk, the audit file and the edits of `preparePublicSourceWorkspace` are left out. JSON and the normalization of licence texts are parameters.
- Labels are kept without their wording, and the date of an old assignment as a constant. Due-date labels and the overdue timer are not modelled.
- The colours of the Cedar highlighter.
