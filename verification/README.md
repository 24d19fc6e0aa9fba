# OpenSible: verified models of the execution queue and its helpers

OpenSible runs Ansible playbooks on remote workers. Each run is one JSON document; workers poll the server for
waiting runs, users cancel or stop them, and a periodic sweep ends runs that got stuck. Around that queue the server
edits inventory trees, cleans up configuration, rewrites playbooks, tails logs and limits logins. This project models
that behaviour in Dafny and proves what it guarantees.

| files | what they model |
|---|---|
| `Executions.dfy` | one execution record: the transition table and the six events (claim, cancel, stop, sweep, orphan, finish) that rewrite it |
| `ExecutionProtocol.dfy` | claims of any number of workers interleaved step by step with cancels, stops, sweeps, finish reports, new runs and index losses |
| `ExecutionHistory.dfy`, `ExecutionDeadline.dfy`, `ExecutionCapacity.dfy` | what holds over every run of that protocol |
| `ExecutionReports.dfy` | what confirming and late finish reports do to a record, over every run |
| `ExecutionScenario.dfy` | concrete runs: status times that go back, final statuses replaced and reopened, a started run canceled in the user's name, shortened durations |
| `ClaimOrder.dfy`, `ExecutionServer.dfy` | the server's calls as imperative code over records, index tables and the scan throttle; order, drain, refinement of the full scan by the index path |
| `ExecutionRefinement.dfy` | an undisturbed call of the server as a sequence of protocol steps |
| `Inventory.dfy`, `Rehoming.dfy`, `GroupDeletion.dfy`, `VarsFile.dfy` | inventory trees as values: removing and re-homing hosts, deleting groups, adding `vars_file` |
| `InventoryTree.dfy` | the same edits in place, on linked nodes, proved equal to the value functions |
| `LoginLimiter.dfy` | the sliding-window limiter, as a class and as concurrent runs |
| `LogTail.dfy`, `AnsibleCfg.dfy`, `DockerPreflight.dfy` | the backwards log tail, the ansible.cfg normaliser, the Docker dependency rewrite |
| `Options.dfy`, `SetSizes.dfy`, `Filters.dfy`, `TextLines.dfy` | an option type, sizes of subsets, filtering lists, splitting text into lines |

Two styles are combined for the queue. `ExecutionServer.Server` is the code of one call, with fields it updates in
place, each method proved against a function of the old state. `ExecutionProtocol` takes the same events apart into
interleaved steps. Scans and capacity counts may be arbitrarily stale. Claims, stops and sweeps read a document under
the file's lock and write it back in a later step; the row pruner and the finish report read and write in separate steps
as well and lock nothing, so their writes may come between the read and the write of anybody else, and whoever writes
puts back what it read. `ExecutionRefinement.PollIsARun` ties the two styles: what an undisturbed claim call leaves of
the records and running rows, and what it returns, a sequence of protocol steps leaves and returns.

Operations are specified by functions, and each such function is pinned by results that do not mention it: by the fields
of a record, by the path to a place in a tree, by filtering or indexing a list, and with the constants written out.
Inductions are written out as well; Dafny's automatic induction is off for every lemma.

## Where the code differs from what one expects of it

- **Status times can go back.** The row pruner and the finish report lock nothing. The pruner and the sweep stamp the
  clock reading they took before they looked at the records, and a report that repeats the status it had read writes
  back that status's time. A status time falls exactly at the steps where what is written back, or the pruner's
  reading, is older than what the file holds (`ExecutionHistory.StatusTimeFalls`). Two polls of one worker a second
  apart suffice (`ExecutionScenario.StatusTimeCanGoBack`). When the worker polls from one loop, so does a stop request
  during a prune, an outdated report, or a report that lands while a sweep holds the file
  (`ExecutionScenario.StopDuringPrune`, `ExecutionScenario.OutdatedReports`, `ExecutionScenario.SweepOverSuccess`). For
  such a worker the pruner turns a time back only on a run that is no longer RUNNING
  (`ExecutionHistory.SerialPolling`), and a stop, sweep or report ever does so only over a document that has changed
  since it was read (`ExecutionHistory.OnlyOverwritesTurnBack`).
- **A full worker is not turned away.** The documentation of the pruner says it drops rows whose record is not
  RUNNING. As the claim path calls it, it also fails every run still RUNNING under the worker
  (`server/storage/index_db.py` 272-337), so a claim with a positive limit always finds room again
  (`ExecutionServer.RoomAfterAdmit`) and is refused only for a limit of zero or less.
- **`cancelReason` 'user' does not mean that the run never started.** A worker that reports CANCELED for a run being
  stopped makes the store write 'user' as well (`ExecutionScenario.StartedYetUserCanceled`). A started run is ever shown
  with it exactly if some report did that (`ExecutionReports.UserCancelIffConfirmed`).
- **A late report can shorten a timeout.** A finish report that repeats the final status is merged without a status
  change (`ExecutionScenario.TimeoutOfFiveSeconds`, `ExecutionScenario.ForcedCancelOfFiveSeconds`). A timed-out run is
  ever shown with less than 30 minutes exactly if a report without an error gave or implied such a duration, and a
  forced cancel with less than five exactly if a report did (`ExecutionReports.ShortTimeoutIffReported`,
  `ExecutionReports.ShortForcedCancelIffReported`).
- **A final status can be replaced, and left.** A report, pruner or sweep that read the record before it became final
  writes another final status over it (`ExecutionScenario.OutdatedReports`, `ExecutionScenario.SweepOverSuccess`), and a
  stop that read it RUNNING turns a success into CANCELING, which a later sweep cancels by force
  (`ExecutionScenario.StopOverSuccess`). A final status changes exactly at those writes, and is left for a live one
  exactly when a stop writes over it (`ExecutionHistory.RankStep`, `ExecutionHistory.FinalStaysFinal`). At most one stop
  is ever written to a run (`ExecutionHistory.OneStopIsWritten`), and a run has at most three status changes besides
  those writes (`ExecutionHistory.ChangesBound`).
- **Re-homing is not exact on every tree.** A host that a list names twice keeps one entry, and a file whose 'all' is
  missing or no mapping is not swept at all, though the reader walks its top level (`Rehoming.NullAllIsSkipped`);
  `Rehoming.Leftover` is precisely what remains. Giving a primary file its missing 'all' group hides the groups that
  stood at its top level (`Rehoming.HiddenGroupsAreLost`).
- **Deleting a group** removes one occurrence from a list of children; a list that names the group twice keeps one.
- **An installer that comes too late** is enough for the Docker rewrite to leave a play alone.
  `DockerPreflight.InTimeUnlessLate` says which plays end up with an installer before the first Docker task.

- **A changed inventory file need not be saved.** Adding `vars_file` turns every list of hosts into a mapping, but the
  flag that makes the route save the file is raised only when a host gained a file. A changed tree goes unreported
  exactly when it has such lists and none of its hosts needs a file (`VarsFile.ChangedTree`,
  `VarsFile.CommentsAreNotReported`).

## Model

| member | source | states |
|---|---|---|
| Executions.EventsFollowTransitionTable | server/storage/executions_store.py:41-48 | every write that changes a status follows the transition table and lowers the rank; only a repeated final report keeps the status |
| Executions.EventsKeepTimes | server/app.py:2725-2825 | every event keeps the time invariant: startedAt <= cancelRequestedAt < canceledAt by more than 300 s for forced cancels, at least 1800 s for timeouts, and what each cancelReason says about the run's past |
| Executions.OnlyClaimStamps | server/app.py:2626-2640 | no event but a claim touches worker and start time, and none brings a run back into the queue |
| Executions.OnlyLateOrphanGoesBack | server/storage/index_db.py:272-337 | an event leaves an older statusUpdatedAt than the document it was computed from exactly when it is the pruner's and its clock reading is older than that document |
| Executions.EventsKeepIdentity | server/storage/executions_store.py:97-229 | no event touches a run's project, queue and creation time, identifier or requirements |
| Executions.SatisfiesEach | server/services/execution_dispatcher.py:19-51 | a worker may run an execution if and only if it is the pinned one, has every required tag and offers every required capability with that value |
| Executions.SweepOutcome | server/app.py:2766-2817 | a timeout fails the run and a forced cancel cancels it, both now, with the whole seconds since startedAt as duration |
| Executions.OrphanOutcome | server/storage/index_db.py:311-318 | an orphan fails now, with the whole seconds since its start as duration, never below zero |
| Executions.ReportAccepted | server/storage/executions_store.py:41-48 | which reports are accepted, status by status, and from which worker |
| Executions.ReportOutcome | server/storage/executions_store.py:168-191 | a report leaves its outcome and end, and the duration given, or the whole seconds from the start (or else the creation) to that end |
| ExecutionProtocol.WriteIsSound | server/app.py:2590-2654 | whatever a step writes, it wrote from a reading on which its guard held, with the claim stamps and requirements the file still has; claims and cancels start from the current document |
| ExecutionProtocol.LeavingTheQueue | server/api/executions_routes.py:206-232 | a waiting run leaves the queue only by a cancel of an unlocked file or by the commit of the claim that holds it |
| ExecutionProtocol.OneHolderKept | server/app.py:2596-2600 | no step lets two claims hold the same file |
| ExecutionProtocol.EditsStayAlone | server/app.py:2725-2735 | no step lets a stop or sweep hold a file together with another stop, another sweep or a claim |
| ExecutionProtocol.StepKeepsInv | server/app.py:2418-2669 | every enabled step, in any order and with any stale scan, keeps the whole invariant |
| ExecutionProtocol.InvThroughout | server/app.py:2418-2669 | the invariant holds in every state of every run |
| ExecutionHistory.HandedOutOnce | server/app.py:2590-2654 | two commits of one execution in one run are the same commit: each execution is handed out at most once |
| ExecutionHistory.HandoutSatisfies | server/app.py:2501-2562 | the worker a run is handed to satisfies its requirements, then and ever after, although they were checked only when the run was found |
| ExecutionHistory.ClaimStampsFrozen | server/app.py:2626-2640 | once a run has left the queue its workerId and startedAt never change, and it never returns |
| ExecutionHistory.TimestampsThroughout | server/app.py:2744-2825 | the time invariant holds for every record in every state of every run |
| ExecutionHistory.StatusTimeGoesBack | server/storage/index_db.py:272-337 | a step lowers a record's status time if and only if it is the write of a pruner with an older clock reading, or of a stop, sweep or report whose stamp (or restored time) is older than what the file holds |
| ExecutionHistory.StatusTimeFalls | server/app.py:2744-2825 | the same at every step of every run |
| ExecutionHistory.OnlyOverwritesTurnBack | server/storage/executions_store.py:133-194 | a stop, sweep or report turns a status time back only over a document that has changed since it was read |
| ExecutionHistory.StatusTimeNeverFalls | server/app.py:2708-2825 | over any stretch of any run without such a write statusUpdatedAt never decreases, whatever readings sweeps stamp |
| ExecutionHistory.SerialPolling | server/app.py:2444-2463 | with one claim call per worker at a time, a pruner turns a status time back only on a run that is no longer RUNNING, so that a status time falls only when another write came between a read and its write |
| ExecutionScenario.StatusTimeCanGoBack | server/app.py:2444-2463 | a run with two overlapping claim calls of one worker in which a record's status time falls from 2 to 1 although the pruner's document was current |
| ExecutionScenario.StopDuringPrune | server/api/executions_routes.py:264-292 | a run with one claim call at a time in which a stop request during a prune makes the status time fall |
| ExecutionScenario.OutdatedReports | server/api/worker_routes.py:257-340 | a run with one claim call at a time and four status changes, the last of them by a report that restores an older time |
| ExecutionScenario.SweepOverSuccess | server/app.py:2744-2790 | a run in which a sweep that read RUNNING writes FAILED over a SUCCESS reported meanwhile, with an older status time |
| ExecutionScenario.StopOverSuccess | server/api/executions_routes.py:264-292 | a run in which a stop that read RUNNING writes CANCELING over a reported SUCCESS: four changes, none of which replaces a final status by another |
| ExecutionHistory.RankStep | server/storage/executions_store.py:37-48 | a step changes a final status if and only if a pruner, sweep or report replaces it by another or a stop writes over it, leaves it for a live one if and only if it is the stop, and lowers the rank whenever it changes any other status |
| ExecutionHistory.FinalStaysFinal | server/storage/executions_store.py:37-48 | over any stretch of any run, a final status stays final unless a stop writes over it, and stays the same unless such a write or a replacing one does |
| ExecutionHistory.OneStopIsWritten | server/api/executions_routes.py:264-292 | however many stop requests there are, two writes of a stop to one run are the same write |
| ExecutionHistory.SettledThroughout | server/api/executions_routes.py:264-292 | a run past RUNNING with no stop on its way stays so, and no stop is written to it ever after |
| ExecutionHistory.ChangesBound | server/storage/executions_store.py:41-48 | over any run an execution changes its status at most three times plus once for each final status replaced or reopened, and is reopened at most once |
| ExecutionHistory.AtMostThreeChanges | server/storage/executions_store.py:41-48 | at most three status changes in any run in which nobody writes another status over a final one of the execution |
| Executions.UserCancelIsConfirmed | server/storage/executions_store.py:168-178 | an event makes a record a started run canceled in the user's name if and only if it is a report of CANCELED on a run being stopped |
| Executions.TimeoutShortened | server/api/worker_routes.py:257-340 | an event takes a timeout below 30 minutes if and only if it is a report without an error whose duration, given or from its end, is below |
| Executions.ForcedCancelShortened | server/api/worker_routes.py:257-340 | an event takes a forced cancel below five minutes if and only if it is a report whose duration is below |
| ExecutionReports.ShownIffIntroduced | server/storage/executions_store.py:97-229 | over every run, a file shows a property of final records at some time if and only if some write introduced it from a document without it |
| ExecutionReports.UserCancelIffConfirmed | server/storage/executions_store.py:168-178 | over every run, a started run is shown as canceled in the user's name if and only if a worker confirmed its stop |
| ExecutionReports.ShortTimeoutIffReported | server/api/worker_routes.py:257-340 | over every run, a timeout is shown below 30 minutes if and only if a late report shortened it |
| ExecutionReports.ShortForcedCancelIffReported | server/api/worker_routes.py:257-340 | over every run, a forced cancel is shown below five minutes if and only if a late report shortened it |
| ExecutionScenario.StartedYetUserCanceled | server/storage/executions_store.py:168-178 | a run that ends with a started run canceled in the user's name |
| ExecutionScenario.TimeoutOfFiveSeconds | server/api/worker_routes.py:257-340 | a run that ends with a timeout of five seconds |
| ExecutionScenario.ForcedCancelOfFiveSeconds | server/api/worker_routes.py:257-340 | a run that ends with a forced cancel of five seconds |
| ExecutionHistory.RemovalsAreSafe | server/app.py:2535-2549 | a row removed by self-healing belongs to no run that is QUEUED on disk, then or at any later time |
| ExecutionHistory.IndexCoversQueue | server/services/execution_history.py:63-196 | while index writes succeed and no row is lost, every waiting run has a row once its creator has added it |
| ExecutionDeadline.BecomesLive | server/api/executions_routes.py:264-292 | a record becomes RUNNING only by a commit, and CANCELING only by the write of a stop that had read it RUNNING |
| ExecutionDeadline.StopRequestKept | server/api/executions_routes.py:264-292 | while a run is being stopped its record does not change: cancelRequestedAt keeps the time of the first request |
| ExecutionDeadline.LaterStopIsDatedLater | server/api/executions_routes.py:264-292 | a run that nobody was stopping at some moment is later CANCELING only with a cancelRequestedAt after that moment |
| ExecutionDeadline.VisitAfterMaxAge | server/app.py:2744-2790 | a visit 30 minutes after the start leaves the run final or being stopped, with no further stop on its way |
| ExecutionDeadline.Deadline | server/app.py:2744-2825 | with sweeps at least once per window, a started run is final 35 minutes and two windows after its start, whatever stops were requested |
| ExecutionCapacity.CapacityThroughout | server/app.py:2610-2647 | running rows and granted claims of a worker together never exceed limit + k - 1, and every active run has a row or a claim on its way to one |
| ExecutionCapacity.CapacityBound | server/app.py:2444-2463 | with at most k claim calls of a worker under way and index writes succeeding it never has more than limit + k - 1 active runs |
| ExecutionCapacity.SerialCapacity | server/app.py:2444-2463 | a worker that polls from one loop never exceeds its limit |
| ExecutionCapacity.LeavingRowIsInactive | server/storage/index_db.py:272-337 | whenever a running row disappears, its run is not active for that worker afterwards |
| ClaimOrder.IndexPathSeesAll | server/app.py:2527-2562 | with a covering index of at most 50 rows the listed candidates are all candidates |
| ClaimOrder.PicksAgree | server/app.py:2586-2590 | two first-come-first-served picks from one pool are equally old, and the same when queue times are distinct |
| ClaimOrder.NoOlderRunWaits | server/app.py:2586-2590 | nobody is handed a run while a named run of the pool has an earlier queuedAt, or createdAt where that is missing |
| ClaimOrder.CandidatesAre | server/app.py:2501-2518 | a scan looks at exactly the QUEUED, unlocked runs of the project asked for whose pin, tags and capabilities the worker meets |
| ClaimOrder.ListingSize | server/storage/index_db.py:340-363 | the index query returns every row in scope if there are at most 50, and otherwise 50 of which none is younger than one left out |
| ClaimOrder.SeriesConserves | server/app.py:2586-2654 | over a series of claims, what was handed out and what is still eligible together stay the eligible set it began with |
| ClaimOrder.DrainIsExact | server/app.py:2479-2525 | repeated claims return every eligible run exactly once, oldest first, and then nothing |
| ClaimOrder.DrainInQueueOrder | server/app.py:2586-2590 | over a drain, the run with the earlier queuedAt (or createdAt) is handed out earlier |
| ClaimOrder.DrainServes | server/app.py:2479-2525 | a drain hands out exactly the QUEUED runs with an identifier, in scope, whose pin, tags and capabilities the worker meets |
| ExecutionServer.SortIsSorted | server/app.py:2586-2587 | sorting the candidates by queue time is a sorted permutation |
| ExecutionServer.SortIsStable | server/app.py:2586-2587 | candidates of equal queue time keep the order in which they were found |
| ExecutionServer.SweepIsIdempotent | server/app.py:2708-2834 | a second sweep at the same moment has nothing to do |
| ExecutionServer.SweepIsExact | server/app.py:2725-2825 | a sweep changes precisely the unlocked over-age records, each into the status its own status calls for, and keeps claim stamps |
| ExecutionServer.PruneSparesOthers | server/storage/index_db.py:272-337 | pruning a worker's rows touches no waiting run and no run of another worker |
| ExecutionServer.PruneFailsOrphans | server/storage/index_db.py:304-318 | a run still RUNNING under the worker, with a row, is failed now after the time since its start |
| ExecutionServer.AdmissionSparesTheIdle | server/app.py:2444-2463 | only a worker without room has its runs failed, and only those with a row of its own |
| ExecutionServer.HealedRows | server/app.py:2529-2549 | listed rows go exactly when the file is gone or elsewhere, or was read and does not wait |
| ExecutionServer.FullScanPollIsStep | server/app.py:2479-2525 | a poll over the disk is one step of a drain, whatever the worker had running |
| ExecutionServer.IndexPollRefinesFullScan | server/app.py:2527-2576 | with a covering index of at most 50 rows a poll through the index and one through the files hand out equally old runs, or both nothing |
| ExecutionServer.LostRunIsFound | server/app.py:2564-2572 | while a run is eligible, a poll that scans whenever the index lists nothing hands out an eligible run, and after a scan none that was queued later |
| ExecutionServer.Server.PollUntilStarted | worker/internal/loop/loop.go:97-195 | however often a worker polls, an eligible run, also one the index has lost, is started by the last of as many polls a scan interval apart as there are eligible runs |
| ExecutionServer.Server.PollOnce | server/app.py:2527-2576 | a poll while some run is eligible takes an eligible one if a scan is due, and otherwise takes one or leaves the eligible runs and the throttle alone |
| ExecutionServer.Server.PollWithoutIndex | worker/internal/loop/loop.go:97-195 | polls over the disk form a series of claims, so that the drain theorem holds of them |
| ExecutionRefinement.PollIsARun | server/app.py:2418-2669 | an undisturbed claim is a sequence of enabled protocol steps with the same records, running rows and result |
| ExecutionRefinement.PruneAll | server/storage/index_db.py:272-337 | pruning row by row with unlocked reads and writes leaves, undisturbed, the pruned files and no row |
| ExecutionServer.BackfillCovers | server/app.py:2494-2518 | after a scan that met no locked file every waiting run in scope has a row, including those this worker may not take |
| ExecutionServer.BackfilledRow | server/app.py:2506-2514 | a backfilled row is filed under the run's project and its queuedAt, or createdAt when that is missing or zero |
| ExecutionServer.ScanKeysDiffer | server/app.py:2564-2569 | two polls share a throttle exactly when they ask for the same project, or one for all and the other for a project named '__all__' |
| ExecutionServer.OldestAreListing | server/storage/index_db.py:340-363 | the oldest 50 rows of the sorted table are a listing as the index query promises it |
| ExecutionServer.RoomAfterAdmit | server/app.py:2444-2463 | after the capacity check a worker with a positive limit has room |
| ExecutionServer.ThrottleKept | server/app.py:2564-2572 | recording a due scan keeps any two scans of one key at least the interval apart |
| ExecutionServer.RecoverRecord | server/app.py:2740-2825 | the branches of the sweep on one record leave the record the sweep event describes |
| ExecutionServer.OrphanRecord | server/storage/index_db.py:298-330 | the pruner's branch fails a record still RUNNING under the worker and leaves any other |
| ExecutionServer.Server.CancelExecution | server/api/executions_routes.py:206-243 | cancels exactly a QUEUED run, answers not-found and conflict as the route does, and touches no other record |
| ExecutionServer.Server.StopExecution | server/api/executions_routes.py:264-303 | requests a stop of exactly a RUNNING run and is a no-op on one already CANCELING |
| ExecutionServer.Server.RecoverStuckExecutions | server/app.py:2708-2834 | in any order of the directory, the sweep leaves exactly the swept records and returns how many it changed |
| ExecutionServer.Server.PruneStaleRunning | server/storage/index_db.py:272-337 | drops all running rows of the worker, fails its RUNNING records, and returns the number of rows |
| ExecutionServer.Server.ListQueued | server/storage/index_db.py:340-363 | returns a listing: oldest first, in scope, at most 50 |
| ExecutionServer.Server.CheckListed | server/app.py:2527-2562 | finds exactly the listed candidates and removes exactly the misleading rows |
| ExecutionServer.Server.ScanQueuedFromDisk | server/app.py:2479-2525 | finds exactly the candidates on disk and gives every waiting run in scope its row |
| ExecutionServer.Server.ClaimNextExecution | server/app.py:2418-2669 | one poll: where it looked, the first-come-first-served pick by the times on the records, the new records and rows, what the index keeps and gains, and the throttle |
| Inventory.RemoveHostExact | server/api/inventory_groups_hosts_routes.py:836-860 | after the removal the reader reports the host only for groups whose list named it twice, and every other host as before, at any depth |
| Inventory.RemoveHostNoChange | server/api/inventory_groups_hosts_routes.py:836-860 | a tree that lists the host nowhere is left as it is |
| Inventory.WalkByPath | server/app.py:1771-1785 | the reader reports a group if and only if some path leads to one of that name whose hosts have the host as key or item |
| Inventory.RemovalLeavesTheRest | server/api/inventory_groups_hosts_routes.py:836-860 | at every path only the host goes: all other entries keep settings and order, a list loses one occurrence, variables, child names and other data stay |
| Inventory.FindIsFirst | server/api/inventory_groups_hosts_routes.py:861-874 | the search finds the group that comes first in its order, children before anything deeper, and fails only when there is none |
| Rehoming.PlaceExact | server/api/inventory_groups_hosts_routes.py:861-874 | placing succeeds exactly when the search finds a group, and adds exactly that membership |
| Rehoming.PlaceChangesOne | server/api/inventory_groups_hosts_routes.py:955-965 | placing gives the host, with its vars_file, to the first group of that name, at the end of its hosts, and changes no other place of the tree |
| Rehoming.NewGroupAtTop | server/api/inventory_groups_hosts_routes.py:950-957 | a target found nowhere becomes a top-level group that holds the host and nothing else |
| Rehoming.AddToGroupsExact | server/api/inventory_groups_hosts_routes.py:925-965 | adding a host to the target groups adds exactly those memberships and touches no other host |
| Rehoming.RehomeExact | server/api/inventory_groups_hosts_routes.py:900-975 | the reader reports the host for 'all', the target groups, and precisely what the edit cannot reach |
| Rehoming.RehomeMeetsPromise | server/api/inventory_groups_hosts_routes.py:900-975 | the move is exact if and only if nothing outside the targets was out of reach; it is for files whose 'all' is a mapping and lists without repeats |
| Rehoming.RehomeSparesOthers | server/app.py:1761-1817 | every other host keeps its groups, except those read from the top level of a primary file whose 'all' is missing or no mapping |
| Rehoming.RehomingLeavesTheRest | server/api/inventory_groups_hosts_routes.py:900-975 | in every file with an 'all' group each group, at its path, keeps its other hosts with settings and order, its variables and its children |
| Rehoming.SkippedFilesStay | server/api/inventory_groups_hosts_routes.py:900-935 | a file without an 'all' group is left alone, but for the primary file, which is given one and keeps its top level |
| Rehoming.RehomedSettings | server/api/inventory_groups_hosts_routes.py:955-965 | wherever the host is mapped to settings afterwards, they are its own vars_file and nothing else |
| Rehoming.ReportedByPath | server/app.py:1761-1817 | what the reader reports of a project, by paths through its files |
| Rehoming.NullAllIsSkipped | server/api/inventory_groups_hosts_routes.py:906-935 | a file whose 'all' is null keeps the host in its top-level group |
| Rehoming.HiddenGroupsAreLost | server/api/inventory_groups_hosts_routes.py:925-965 | a two-group example in which another host loses a group |
| GroupDeletion.RemoveGroupExact | server/api/inventory_groups_hosts_routes.py:758-775 | the name stays only where a list repeated it, the tree is unchanged exactly when the name did not occur, survivors keep their hosts, and the search finds nothing |
| GroupDeletion.DeletionIsComplete | server/api/inventory_groups_hosts_routes.py:758-775 | without repeats no trace of the name is left and a second deletion changes nothing |
| GroupDeletion.AvoidingIsPart | server/api/inventory_groups_hosts_routes.py:758-775 | only memberships under the deleted name are lost |
| GroupDeletion.NoKeyNotFound | server/api/inventory_groups_hosts_routes.py:861-874 | a name that is no key anywhere is not found |
| GroupDeletion.SurvivorsKept | server/api/inventory_groups_hosts_routes.py:758-775 | every group not under the name survives, under its own name, with its hosts, settings and variables; a list of child names loses the first mention and keeps all others in order |
| GroupDeletion.DeletionKeepsNames | server/api/inventory_groups_hosts_routes.py:758-766 | a mapping of children keeps exactly the other names, in order |
| GroupDeletion.OccursByPath | server/api/inventory_groups_hosts_routes.py:758-775 | there is something to delete if and only if some path leads to a node of that name or to a list that mentions it |
| InventoryTree.RemoveHostFromChildren | server/api/inventory_groups_hosts_routes.py:836-860 | the in-place removal over linked nodes leaves exactly the value function's tree and reports a change exactly when the host was listed |
| InventoryTree.RemoveGroupBelow | server/api/inventory_groups_hosts_routes.py:758-775 | the in-place deletion leaves exactly the value function's tree and returns true exactly when the name occurred |
| InventoryTree.FindGroupRecursive | server/api/inventory_groups_hosts_routes.py:861-874 | returns a reference into the tree, null exactly when the search finds nothing, and changing that node's hosts is what placing a host means |
| InventoryTree.AddHostToGroup | server/api/inventory_groups_hosts_routes.py:925-965 | adds the host to the existing group in place, or to a new group, as the value function says |
| InventoryTree.AddHostToGroups | server/api/inventory_groups_hosts_routes.py:925-965 | the loop over the target groups, in place |
| VarsFile.OnePassSuffices | server/api/inventory_files_routes.py:766-837 | a second pass returns an equal tree and has nothing left to name, on every nested tree |
| VarsFile.MembershipsKept | server/api/inventory_files_routes.py:766-837 | no host joins or leaves the group at any path |
| VarsFile.EntryOutcome | server/api/inventory_files_routes.py:783-809 | a host that is text and no comment ends with a vars_file, keeps one it had, and loses no other setting |
| VarsFile.FromListIsItems | server/api/inventory_files_routes.py:810-821 | a host list becomes a mapping with every item once |
| VarsFile.FromListInOrder | server/api/inventory_files_routes.py:810-821 | the items stand in the order in which they first come in the list |
| VarsFile.FillingLeavesTheRest | server/api/inventory_files_routes.py:766-837 | at every path only hosts change, entry by entry as stated; variables, child names and data that is no group stay |
| VarsFile.NeedsByPath | server/api/inventory_files_routes.py:766-837 | the flag is raised if and only if some path leads to a group with a host that gains a file |
| VarsFile.ChangedTree | server/api/inventory_files_routes.py:766-837 | the pass changes a tree if and only if some host needs a file or some group lists its hosts, so a change goes unreported exactly when there are lists and no host needs a file |
| VarsFile.CommentsAreNotReported | server/api/inventory_files_routes.py:810-821 | a list of comments becomes a mapping while the flag stays down |
| VarsFile.UpdateHosts | server/api/inventory_files_routes.py:781-821 | the loops over a group's hosts compute that and raise the flag exactly when a host gained a file |
| VarsFile.UpdateHostsVarsFile | server/api/inventory_files_routes.py:766-837 | the recursive pass computes the filled tree, and its flag says whether any host needed a file |
| LogTail.LinesOfSuffix | server/api/logs_routes.py:90-101 | whatever precedes a text only adds lines before it and lengthens its first line |
| LogTail.SuffixIsEnough | server/api/logs_routes.py:92-101 | a suffix with more than n newlines has the same last n lines as the whole |
| LogTail.TailLines | server/api/logs_routes.py:76-105 | for every content, n and chunk size: n lines, or all there are, equal one by one to the last lines of the file, having read less than a chunk beyond the newline that sufficed |
| TextLines.Reassembled | server/api/logs_routes.py:102 | the lines of a text, joined by newlines, with a newline at the end if it had one, are the text |
| TextLines.LinesHaveNoNewline | server/api/logs_routes.py:102 | no line holds a newline |
| LoginLimiter.Limiter.Allow | server/api/auth_routes.py:25-31 | keeps exactly the known failures later than 60 seconds before the caller's reading, in order, and allows fewer than five |
| LoginLimiter.Limiter.Login | server/api/auth_routes.py:60-92 | one undisturbed login is turned away exactly with five failures in the last 60 seconds, else records a failure or resets, and leaves what its steps in the concurrent model, each enabled in its turn, leave |
| LoginLimiter.CheckCountsEnough | server/api/auth_routes.py:25-31 | although the clock was read before the lock, the check counts every recent failure |
| LoginLimiter.CheckRefuses | server/api/auth_routes.py:25-31 | over every run, a check refuses if five failures since the last success lie in the last 60 seconds, and only if five lie later than 60 seconds before its reading |
| LoginLimiter.CurrentCheckRefuses | server/api/auth_routes.py:25-31 | over every run, a check with a current reading refuses if and only if at least five of the key's failures since its last success lie in the last 60 seconds |
| LoginLimiter.FailuresAreRecorded | server/api/auth_routes.py:33-41 | the failures counted are those of the steps taken since the key's last success |
| LoginLimiter.BudgetKept | server/api/auth_routes.py:70-89 | recent failures and attempts still on their way to one never exceed 4 + k together |
| LoginLimiter.SlidingWindowBound | server/api/auth_routes.py:70-89 | over any concurrent run with at most k attempts of a key between check and outcome, no 60-second window since the last success holds more than 4 + k failures |
| LoginLimiter.SerialWindowBound | server/api/auth_routes.py:19-41 | attempts one after the other get exactly the limit |
| AnsibleCfg.StripTrims | server/api/ansible_cfg_routes.py:37-42 | stripping leaves the trimmed middle of a text, with nothing but white space around it |
| AnsibleCfg.AsciiSpaces | server/api/ansible_cfg_routes.py:37-42 | blank, tab and line ends are white space, and no other printable ASCII character is |
| AnsibleCfg.CaseIsIgnored | server/api/ansible_cfg_routes.py:42 | keys that differ only in ASCII case are the same key |
| AnsibleCfg.KeyAsWritten | server/api/ansible_cfg_routes.py:41-42 | a key in any case, with a blank or tab before or behind it, reads as the key |
| AnsibleCfg.NewValueKeepsKey | server/api/ansible_cfg_routes.py:46-55 | writing a new value leaves a setting with the same key and no comment |
| AnsibleCfg.CallbacksOfJoin | server/api/ansible_cfg_routes.py:52-55 | a written callback list reads back as the same callbacks |
| AnsibleCfg.CallbacksKept | server/api/ansible_cfg_routes.py:52-56 | the callbacks that are not deprecated stay, in order, and the line goes exactly when there are none |
| AnsibleCfg.AllButTwo | server/api/ansible_cfg_routes.py:53 | the wanted callbacks are all but profile_tasks and ansible.posix.profile_tasks, in order |
| AnsibleCfg.CallbacksInOrder | server/api/ansible_cfg_routes.py:52 | the listed callbacks are the stripped parts between commas up to a comment, in order, without the empty ones |
| AnsibleCfg.WhatChanges | server/api/ansible_cfg_routes.py:43-51 | interpreter_discovery goes; an interpreter chosen explicitly and every other setting stay as they are |
| AnsibleCfg.InterpreterPinned | server/api/ansible_cfg_routes.py:45-47 | each of the four automatic interpreters is replaced by /usr/bin/python3 under the same key |
| AnsibleCfg.LinesOfResult | server/api/ansible_cfg_routes.py:34-57 | the lines of the result, with the two cases in which a blank last line appears or is lost |
| AnsibleCfg.NormalizingTwice | server/api/ansible_cfg_routes.py:31-57 | normalising is idempotent on every text, and the result holds no interpreter_discovery, no automatic interpreter and no deprecated callback |
| AnsibleCfg.LeftAlone | server/api/ansible_cfg_routes.py:31-57 | a text is returned unchanged exactly when each of its lines is |
| AnsibleCfg.UnrelatedSurvive | server/api/ansible_cfg_routes.py:37-51 | comments and lines of other keys survive unchanged and in order |
| AnsibleCfg.NormalizeAnsibleConfigContent | server/api/ansible_cfg_routes.py:31-57 | the loop over the lines computes the normalised text |
| DockerPreflight.ObjectMentions | server/api/playbooks_routes.py:62-73 | the recursive search finds Docker exactly when some text at any depth names a module or some mapping key is one |
| DockerPreflight.TaskUsesIff | server/api/playbooks_routes.py:51-73 | a task uses Docker if and only if it is a mapping and some key in it, at any depth, is a Docker key or some text inside one of its lists or mappings names a module |
| DockerPreflight.DockerKeysAre | server/api/playbooks_routes.py:35-46 | the Docker keys: five short names, and every name that begins with community.docker. |
| DockerPreflight.DockerTextsAre | server/api/playbooks_routes.py:71-72 | a text names a module if it contains community.docker. or a short name followed by a colon |
| DockerPreflight.TaskInstallsIff | server/api/playbooks_routes.py:76-94 | a task installs the dependencies if and only if its name begins as a preflight task's or one of four package modules names both packages, in a text or in the items of a list |
| DockerPreflight.PreflightContents | server/api/playbooks_routes.py:97-118 | the two tasks install both packages as administrator, one on Debian and one on RedHat systems |
| DockerPreflight.NeedsDepsExactly | server/api/playbooks_routes.py:137-142 | a play is patched if and only if a task of its list uses Docker and none of its tasks and pre-tasks installs the dependencies |
| DockerPreflight.NamesNoDocker | server/api/playbooks_routes.py:62-73 | a short text without a colon names no Docker module |
| DockerPreflight.PreflightTasks | server/api/playbooks_routes.py:97-118 | the two inserted tasks count as installers and not as users of Docker |
| DockerPreflight.PlayOutcome | server/api/playbooks_routes.py:137-148 | a play changes if and only if a task uses Docker and no task or pre-task installs; it then has the preflight tasks right before its first Docker task, and removing them gives back the play |
| DockerPreflight.OnlyTasksChange | server/api/playbooks_routes.py:143-147 | of a patched play only the value of its tasks entry changes, at its place |
| DockerPreflight.SecondPassChangesNothing | server/api/playbooks_routes.py:135-148 | the rewrite is idempotent |
| DockerPreflight.InTimeUnlessLate | server/api/playbooks_routes.py:135-148 | an installer precedes the first Docker task afterwards if and only if the play was rewritten or had one there already |
| DockerPreflight.EnsureInPlays | server/api/playbooks_routes.py:135-148 | the loop over the plays patches each one in place and reports a change exactly when some play needed it |

## Left out

- A cancel is one step: it finds a waiting run, which nobody writes without the file's lock. A cancel and a claim's write read the clock when they write; a stop and a report may have read it at any time since they read the document.
- ExecutionCapacity.CapacityBound: assumes that index writes succeed; a claim whose row was not written is not counted by the code either.
- ExecutionDeadline.Deadline: assumes that each window has a sweep that finds the file unlocked and, if it has to end the run, writes it back.
- ExecutionServer.Server.ClaimNextExecution: runs without interference and reads the clock once; interleavings are the subject of ExecutionProtocol.
- ExecutionServer.OrphanRecord: a RUNNING record without a start time is dated now; the source tries the index row's start time first. Records that went through a claim always carry one.
- Executions that are created directly as RUNNING, which the record creator accepts (`server/services/execution_history.py` 94-125), are not modelled: every run here starts QUEUED.
- ExecutionServer.Server.PollUntilStarted: no locks are held, no run joins or leaves and no other worker polls meanwhile; the clock does not run backwards; and waiting records carry their identifier: a record without one blocks polls that find its row.
- ExecutionRefinement.PollIsARun: says nothing about rows of the queue index, which the protocol lets a call treat more freely.
- Finish reports come for runs that were handed out; a report for a run that is still waiting, the PATCH route and other free updates of a record are not modelled.
- Records carry a status, a creation time and times in the fields the code expects; identifiers are the file names, never reused, and files are not deleted by retention.
- The count of running rows is always available; the fallback that counts them from the files when the index is not is not modelled. Index errors show only as rows that were not written or were lost.
- Requirements are the pinned worker, tags and capabilities compared as text; the two places a pin may stand in are one field. A claim for a project with an empty name is one for all projects.
- What a claim attaches for the worker, log lines, heartbeats and whether a worker is online (which decides nothing in the sweep) are left out.
- VarsFile.UpdateHostsVarsFile: returns a new tree; the source also sets the file name inside the configuration object it was given, which only shows when two hosts share one object.
- The loop of the host-group update over several inventory files is modelled on values; the edits inside one tree are modelled in place as well.
- Inventory files that are not YAML or cannot be read, and YAML aliases that make a tree share parts, are left out.
- LogTail.TailLines: text is a sequence of characters with the newline as only separator; UTF-8 decoding and the other separators of splitlines are left out. So they are for AnsibleCfg.
- AnsibleCfg.NormalizeAnsibleConfigContent: lower case is modelled for the letters that can produce an ASCII letter, which is all the comparison of keys needs.
- DockerPreflight.EnsureInPlays: works on parsed plays; the textual pre-check, parsing and dumping of YAML are left out, and how values other than strings are shown is a parameter.
- LoginLimiter.SlidingWindowBound: counts failures since the last success of the key, as a success clears the list.
- Routing, authentication, request parsing, JSON responses, file locks that fail midway, torn writes and crashes.
- The playbook generator, schedulers, git synchronisation, secrets, the console and the infrastructure templates would add only unrelated or easy members.
