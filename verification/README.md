# Verified models of the agent runtime client

The repository is a Go service between browsers, an agent gateway and desktop
devices. Most of it moves data between HTTP, gRPC and a database. This project
models the parts that decide something, and proves what holds of them in every
case: the control plane that dispatches actions to devices, the store behind it,
the streaming of runs, the control loop, workspace patches, agent configuration,
usage figures, the wire decoder, identifiers and the scheduler.

| file | what it models |
|---|---|
| `Hub.dfy` | task sessions of the control hub, and first-outcome-wins over whole runs |
| `TaskStore.dfy` | `SaveTask` as three interleaved statements, and how writes converge |
| `ActionStore.dfy` | the tables of dispatched actions and of their observations |
| `Dispatch.dfy` | `Dispatch` and `Observe` as interleaved steps, with and without a store, and their correlation |
| `Sending.dfy` | when an action is sent, and the runs that send one twice |
| `Devices.dfy` | device selection, and ownership under interleaved registrations and bindings |
| `Protocol.dfy` | messages and task states |
| `ControlLoop.dfy` | the loop of model runs and device actions |
| `RunStream.dfy` | the bounded channel between a run and the browser |
| `Workspace.dfy` | lines, matches, line-range replacement, k-th match replacement |
| `Patch.dfy` | batches of changes, their order, and line edits as one substitution |
| `AgentConfig.dfy` | hiding secrets of a configuration tree and putting them back, on values |
| `ConfigTree.dfy` | the same walks on maps that are shared by reference and changed in place |
| `ModelUsage.dfy` | attribution and summing of usage metrics |
| `Wire.dfy` | the protobuf decoder for usage records, and an encoder |
| `Ulid.dfy` | identifiers: carry, encoding, order |
| `Cron.dfy`, `CronText.dfy` | cron fields and their loops; what an expression means, from its text |
| `Scheduler.dfy`, `Scanning.dfy` | slot claims of many scanners, running limit; what one scan does |
| `Common.dfy`, `Strings.dfy` | shared vocabulary |

Code that changes state is a class or a loop proved against a specification
function; the properties are lemmas about those functions. Concurrent code is a
transition system whose steps are the sections that hold a lock, the operations on
a channel, and the single statements sent to the database; its properties hold of
every sequence of steps. Clock readings, random bytes, the results of calls to the
gateway, to devices and to the disk, and the order in which Go walks a map are
inputs.

The main results, one per part:

* `Hub.FirstOutcomeWins` and `TaskStore.StoreKeepsOutcome`: over every interleaving in
  which no load from the store overwrites a task in memory, a task's first final status,
  its owner and its history survive, and the stored status ends as that outcome however
  the writes are reordered (`TaskStore.WritesConverge`), unless the store had a final one.
* `Dispatch.OneOwnerPerAction`, `Dispatch.LiveAnswersCorrelate`, `Dispatch.StoredAnswersFit`,
  `Sending.CanSendIff`, `Sending.NoSendAfterOutcome`: who owns an action id, whose answer a
  call gets from a device or from the store, exactly when a call may still send, and that
  none does once an outcome is recorded.
* `Devices.BoundDeviceIsOwned` and `Devices.DeviceTable.Select`: ownership in memory
  agrees with the store, and selection does not depend on map order.
* `RunStream.WrittenIsPrefix`, `RunStream.EmitNeverStuck`, `RunStream.DrainDelivers`:
  order, absence of deadlock, and delivery.
* `ControlLoop.RunControlLoop`, `ControlLoop.StatusFollowsEvents`: the whole trace of a
  loop, what the client is shown however early it stops reading, and the status it leaves.
* `Patch.LineEditsAreSimultaneous`, `Patch.SubstitutesIff`: a batch of line edits is one
  substitution, exactly when the sort puts it in descending order.
* `ConfigTree.ReadThenWriteBack`: what was read and is written back, in place, comes back
  exactly when its secrets are those of the saved objects it is matched with; with
  distinct ids, exactly when it has no API key.
* `ModelUsage.CountsAddUp`, `ModelUsage.OrderIrrelevant`: conservation and permutation.
* `Wire.RoundTrip`, `Wire.LongestPrefix`: encoded records come back; any bytes are read
  up to the first malformed field.
* `Ulid.RunIsMonotonicIff`, `Ulid.DecodeRecovers`, `Ulid.SameIdIff`: order of whole runs,
  exactness, and when two generators meet.
* `CronText.ExpressionMeans`, `Scanning.FirstDueStart`, `Scheduler.ClaimedAtMostOnce`,
  `Scheduler.RunsFollowClaims`: what a cron expression means, which tasks a scan starts,
  and that each run has a due claim of its own.

Some properties a reader might expect are false of the code. Each item below begins with
such a property; then come the case that breaks it and the exact condition under which
it holds:

* A final status survives. `SetTaskStatus` loads a task from the store without the lock
  and then overwrites the one in memory, so two calls can lose it
  (`Hub.ReloadLosesOutcome`). A reload of earlier rows of a task is harmless exactly if
  the task is not in memory or has nothing to lose (`Hub.ReloadIsSafeIff`).
* The stored status is that of the newest snapshot. Unlike all other columns it is kept by
  order of arrival (`TaskStore.OpenStatusIsLastWritten`). It follows the newest snapshot
  in every order exactly if a final status that was there before is the same, or, with
  none there, if all other snapshots have the same status or, where the newest one is
  final, an open one (`TaskStore.StatusFollowsIff`).
* A stored owner stays. `BeginTask` does not ask the store, so after a restart another
  user's call takes the task over, and saving it overwrites the stored owner. The owner
  survives exactly if the section that first brings the task into memory is for that
  owner (`TaskStore.StoredOwnerSurvivesIff`).
* An action is sent once. Cache, store and pending map are looked at one after the other,
  so overlapping calls send it twice (`Sending.OverlapSendsTwice`). In a hub without a
  store, so do calls that do not overlap, if the first one gets an observation of another
  task or sequence and so records nothing (`Sending.MismatchWithoutStoreSendsTwice`). At
  any moment of any run a new call can come to send exactly if neither the cache nor,
  where there is one, the store holds anything under its key (`Sending.CanSendIff`).
* An answer fits the action. Observations are saved before they are compared, so in a hub
  with a store a second call returns the one that did not fit
  (`Sending.MismatchWithStoreIsAnswered`): an answer from the store fits exactly if the
  first observation saved of that action did (`Dispatch.StoredAnswersFit`). Keys do not
  hold the sequence, so an action id used again in a later round gets the earlier answer
  (`Sending.LaterRoundGetsEarlierAnswer`); an answer from the cache has the right sequence
  exactly if the call that recorded it had the same (`Dispatch.CachedAnswersCorrelate`),
  and with a colon in a task id even the task can be another one (`Dispatch.KeysMayCollide`).
* The cache has at most 4096 entries. Timed-out and cancelled calls do not look at its
  size (`Sending.TimeoutsFillCache`); a step takes it over the limit exactly if it
  records such an end under a new key while the cache is full (`Dispatch.ExceedsIff`).
* Line edits refer to the lines on disk. Edits are sorted only among changes with the
  identical path string (`Patch.OtherPathsStayInPlace`), so two spellings of a path can
  miss (`Patch.TwoSpellingsMiss`); disjoint edits of a file substitute exactly if their
  sorted order is descending (`Patch.SubstitutesIff`).
* Writing back what was read restores the secrets. API keys are hidden but never put back,
  and of two items with one id the first gets the second one's secrets
  (`AgentConfig.DuplicateIDsMixSecrets`); `AgentConfig.RestoredIff` says for all values
  when everything is restored.
* A stepped range stays within its bounds. Its loop adds the step in 64 bits, and with the
  largest step minute 59 also allows every odd minute (`Cron.OddMinutes`). A field means
  its stepped ranges exactly if the addition overflows for none of its tokens
  (`Cron.FieldIsStandardIff`).
* A slot is claimed once. One that comes back, as when clocks are set back, is claimed
  again: in any run of any scanners exactly if it is tried after another slot and again
  after another one, the slot in the row at the start included (`Scheduler.TwiceClaimedIff`).
* Identifiers increase. They do exactly while the clock does not go back and the entropy
  does not wrap (`Ulid.RunIsMonotonicIff`).

One convention to note: many cron implementations match when either the day of month
or the weekday does. The code requires both, and so does `Cron.Matches`.

## Model

| member | source | states |
|---|---|---|
| Hub.TaskTable.BeginTask | application/service/control/hub.go:318-342 | creates the session or takes over one of the same or no user; refuses exactly another user's task; the snapshot to save is the new session |
| Hub.TaskTable.SetTaskStatus | application/service/control/hub.go:465-493 | the new session table, whether the task was in memory or loaded; a snapshot is saved if and only if the status was taken |
| Hub.TaskTable.NoteAction | application/service/control/hub.go:635-653 | appends the action, takes its sequence and device, and moves an unfinished task to EXECUTING |
| Hub.TaskTable.NoteProgress | application/service/control/hub.go:669-684 | keeps the latest report; progress revives no finished task and creates none |
| Hub.TaskTable.NoteObservation | application/service/control/hub.go:686-718 | appends the observation, sets the status it calls for unless the task is finished, and opens or closes the device session for task and conversation |
| Hub.BegunIsTheCallers | application/service/control/hub.go:318-342 | a begun task is the caller's, in the caller's conversation and on the caller's device: a new one waits for its action, an old one keeps status and histories, another user's is left alone |
| Hub.StatusTaken | application/service/control/hub.go:465-493 | a valid status is taken by every known task but a finished one with another status; nothing else of the task changes, and no other task |
| Hub.ActionExecutes | application/service/control/hub.go:635-653 | an action is appended to its task, which executes on that device unless it was COMPLETED, FAILED or CANCELLED; other tasks stay |
| Hub.ProgressExecutes | application/service/control/hub.go:669-684 | a report makes a task execute unless it was finished, and replaces the last report alone |
| Hub.SessionsFollow | application/service/control/hub.go:686-718 | an observation with a device session lists it under its family for task and conversation, or drops the family exactly if it reports that a closing action succeeded |
| Hub.ListedUntilObserved | application/service/control/hub.go:702-716 | over all runs, what a conversation lists for a family changes only with an observation of that family |
| Hub.FamilyIsBeforeDash | application/service/control/hub.go:720-727 | the family of a session is what stands before its first dash, or "default" without one |
| Hub.OnlyCallersDecide | application/service/control/hub.go:635-718 | over all runs, actions, progress and observations never complete or fail a task, nor undo that |
| Hub.FirstOutcomeWins | application/service/control/hub.go:318-718 | over every interleaving without such a reload, a final status and a non-empty owner never change, and actions and observations only grow |
| Hub.StoreFreeRunsAreSafe | application/service/control/hub.go:473-475 | a hub without a store never reloads, so the previous row covers all its runs |
| Hub.ReloadIsSafeIff | application/service/control/hub.go:470-483 | a reload is harmless for all earlier rows of the task if and only if the task is not in memory or has nothing to lose |
| Hub.ReloadLosesOutcome | application/service/control/hub.go:470-492 | two overlapping calls after which COMPLETED has become FAILED |
| Hub.CancelledForGood | application/service/control/hub.go:600-619 | after the cancelling write a task that the hub or the store knows is CANCELLED, or has its earlier outcome, for the rest of the run |
| Hub.RunsKeepNoData | application/service/control/hub.go:410-431 | whatever devices send, no run leaves attachment data in the recorded observations: every caller strips or builds them |
| Hub.RunsKeepFamilies | application/service/control/hub.go:703-716 | over all runs every listed device session stands under its own family |
| Protocol.WithoutAttachmentData | domain/entity/control/protocol.go:261-269 | the loop yields the observation with exactly the attachments' data removed |
| TaskStore.TaskRows.Insert | infra/repository/repo/control/store.go:105-112 | inserts only a missing row and reports it; other rows stay |
| TaskStore.TaskRows.UpdateFields | infra/repository/repo/control/store.go:114-127 | takes the fields of a snapshot that is not older, and leaves the status and other rows |
| TaskStore.TaskRows.UpdateStatus | infra/repository/repo/control/store.go:128-134 | takes the status unless the stored one is final, and leaves the fields and other rows |
| TaskStore.TaskRows.SaveTask | infra/repository/repo/control/store.go:91-136 | the row after an undisturbed save |
| TaskStore.RunConverges | infra/repository/repo/control/store.go:91-136 | from any row and in every interleaving of the three statements, the fields are those of a newest snapshot offered, and the status is a stored one's, final if one of them is |
| TaskStore.WritesConverge | infra/repository/repo/control/store.go:91-136 | whatever row was there before, all orders end with the newest fields; a final status stays, else the status is a snapshot's, final exactly if some snapshot's is |
| TaskStore.StatusFollowsIff | infra/repository/repo/control/store.go:91-136 | every order leaves the status of a given snapshot, such as the newest, if and only if that status prevails over the others |
| TaskStore.OpenStatusIsLastWritten | infra/repository/repo/control/store.go:128-134 | two orders of two unfinished snapshots that end with different statuses |
| TaskStore.SnapshotsAgree | application/service/control/hub.go:488-492 | all final statuses, and all owners, in the snapshots of one run are the same |
| TaskStore.StoreKeepsOutcome | application/service/control/hub.go:650-666 | from any row and however the saves of one run's snapshots interleave, a final status in the row stays, else the stored status ends as the task's one outcome |
| TaskStore.StoredOwnerSurvivesIff | application/service/control/hub.go:318-342 | after a start the stored owner survives all saves if and only if the section that first brings the task into memory is for that owner |
| ActionStore.ActionTables.SaveAction | infra/repository/repo/control/store.go:196-207 | registers an action exactly if neither its id nor its key is taken, and touches no row |
| ActionStore.ActionTables.SaveObservation | infra/repository/repo/control/store.go:209-230 | fails exactly for an unregistered action; a first observation becomes the row, without attachments and under the registered key, a later one changes its status alone, and no other row changes |
| ActionStore.ActionTables.FindObservationByIdempotency | infra/repository/repo/control/store.go:232-243 | finds a row with the key exactly if there is one |
| ActionStore.ObservationConsistent | infra/repository/repo/control/store.go:209-230 | the row of each action keeps its registered key, the task, session and sequence of the first observation saved, and the status of the last |
| ActionStore.StoredFirstWithLastStatus | infra/repository/repo/control/store.go:209-230 | the stored form is that of the first observation with the id, with the status of the last and no attachments |
| ActionStore.OneRowPerKey | infra/repository/po/control/control_po.go:34-63 | at most one row has a key, so the lookup by key has one answer |
| Dispatch.DispatchTable.Reserve | application/service/control/hub.go:532-538 | takes the action id exactly if it is free |
| Dispatch.DispatchTable.Release | application/service/control/hub.go:539-543 | frees the action id and no other |
| Dispatch.DispatchTable.Finish | application/service/control/hub.go:564-569 | the answer is in the cache under its key, with all it said but attachment data; the other entries stay if there was room and are all gone otherwise; never more than 4096 |
| Dispatch.DispatchTable.Persist | application/service/control/hub.go:594-596 | remembers a terminal observation without looking at the size |
| Dispatch.RunInv | application/service/control/hub.go:406-598 | the invariants on pending, channels, observers, cache and stored answers hold in every interleaving, with and without a store |
| Dispatch.OneOwnerPerAction | application/service/control/hub.go:532-543 | at most one call in flight per action id, and pending holds exactly those ids |
| Dispatch.LiveAnswersCorrelate | application/service/control/hub.go:559-575 | a live answer has the action's id, task and sequence, and no other call received it |
| Dispatch.CachedAnswersCorrelate | application/service/control/hub.go:503-508 | a cached answer was recorded by another call, without attachment data; with stamped keys it is for the same task and action, and for the same sequence exactly if that call had it |
| Dispatch.KeysMayCollide | application/service/runtime/service.go:293-294 | two actions of different tasks with one key, when a task id holds a colon |
| Dispatch.StoredAnswersFit | application/service/control/hub.go:509-517 | an answer from the store is the first observation saved of the action registered under the key, with a later status, and fits the call exactly if that one did |
| Sending.LaterRoundGetsEarlierAnswer | application/service/control/hub.go:503-508 | a run in which a later round's action is answered with the observation of an earlier one of another sequence |
| Dispatch.CacheBound | application/service/control/hub.go:565-596 | over all runs the cache exceeds 4096 entries by at most the number of timed-out or cancelled calls |
| Dispatch.ExceedsIff | application/service/control/hub.go:565-596 | a step takes the cache over 4096 if and only if it records a timeout or cancel under a new key while the cache is full |
| Sending.TimeoutsFillCache | application/service/control/hub.go:580-596 | for every n a run of n timeouts leaves n entries in the cache, with and without a store |
| Sending.CanSendIff | application/service/control/hub.go:503-553 | at any moment of any run, a call started then can come to send its action if and only if neither the cache nor, with a store, the observation table holds its key |
| Sending.NoSendAfterRecorded | application/service/control/hub.go:503-508 | once a key's outcome is recorded, no later call with it sends anything until the cache is emptied |
| Sending.CompleteRecords | application/service/control/hub.go:564-569 | taking a live answer records task, action, session, sequence, status, and the id and digest of each attachment, without data; other entries stay below 4096 and none does at it; nothing else changes but the call |
| Sending.PersistRecords | application/service/control/hub.go:586-598 | a call that ends by itself records that end under its key, whatever the size of the cache, and every other entry stays |
| Sending.NoSendAfterOutcome | application/service/control/hub.go:503-508 | from the step that records a call's outcome, no later call with its key sends anything, in any run, until an answer arrives while the cache is full |
| Sending.AnsweredOnce | application/service/control/hub.go:406-439 | an observation that fits reaches its call, whose action was sent once, and a later call with the key is given what it said without sending, with and without a store |
| Sending.MismatchWithoutStoreSendsTwice | application/service/control/hub.go:559-563 | without a store, a run of two calls, one after the other, that sends one action twice after an observation of another task or sequence |
| Sending.MismatchWithStoreIsAnswered | application/service/control/hub.go:411-417 | with a store, the second call of such a run sends nothing and returns the observation that did not fit |
| Sending.OverlapSendsTwice | application/service/control/hub.go:503-538 | a run of two overlapping calls that sends one action twice, with and without a store |
| Devices.DeviceTable.Install | application/service/control/hub.go:107-114 | the new registration replaces the old one, whose other connection is to be closed |
| Devices.DeviceTable.Unregister | application/service/control/hub.go:117-128 | removes the device, and nothing else, exactly if the connection is still its own |
| Devices.DeviceTable.BindInMemory | application/service/control/hub.go:301-311 | binds a connected device unless another user has it |
| Devices.DeviceTable.CheckRequested | application/service/control/hub.go:216-231 | accepts a requested device exactly if it is among the matching ones, with the source's precedence of errors |
| Devices.DeviceTable.Diagnose | application/service/control/hub.go:169-195 | the five counts are the sizes of the sets they name, in any map order |
| Devices.DeviceTable.Select | application/service/control/hub.go:238-267 | selects iff exactly one device matches, ambiguous iff two or more, offline iff none is connected, bound to another user iff all are |
| Devices.Choose | application/service/control/hub.go:238-267 | the selection loop itself, over an arbitrary order |
| Devices.Partition | application/service/control/hub.go:242-257 | every connected device is another user's, lacks the capability or matches |
| Devices.DeviceRows.FindDevice | infra/repository/repo/control/store.go:63-73 | the stored owner of a known device |
| Devices.DeviceRows.UpsertDevice | infra/repository/repo/control/store.go:25-38 | a new row gets the owner, a known one keeps its own |
| Devices.DeviceRows.BindDevice | infra/repository/repo/control/store.go:40-51 | succeeds exactly on a row that is free or already the user's, and then makes it the user's |
| Devices.RunAgrees | application/service/control/hub.go:85-128 | in every interleaving the hub's owners are empty or the stored ones, and a stored owner is never replaced |
| Devices.BoundDeviceIsOwned | application/service/control/hub.go:281-312 | after a successful binding the stored owner is that user for good |
| Devices.OneUserPerDevice | infra/repository/repo/control/store.go:40-51 | two successful bindings of one device are by one user |
| Devices.OwnerSelects | application/service/control/hub.go:216-267 | in every run a bound device, whenever connected, can take its user's actions for exactly its capabilities, and no other user's while it is held for its user |
| Devices.RegisteredForItsOwner | application/service/control/hub.go:85-115 | an undisturbed registration installs the device for its stored owner, or for nobody, and adds a missing row without owner |
| Devices.BindsIff | application/service/control/hub.go:281-312 | an undisturbed binding succeeds if and only if the device is connected and no other user's in memory and in the store; then both hold it for the user, else nothing changes |
| Devices.GoneForGood | application/service/control/hub.go:117-128 | a registered connection that has ended takes its own device away and no other, and in no run is it back without a new registration |
| Devices.NoEmptyID | application/service/control/hub.go:86-88 | no device is kept under the empty id that selection uses for none |
| RunStream.Pump.TakeEvent | api/http/handler/runtime/run_handler.go:242-255 | the loop body is the transition system's step: a nil event is skipped, an error event noted, the rest written or the loop left |
| RunStream.Pump.Conclude | api/http/handler/runtime/run_handler.go:259-272 | an error event is added exactly as that step does: if the run failed and none was forwarded |
| RunStream.WrittenIsPrefix | api/http/handler/runtime/run_handler.go:239-256 | the client always has a prefix, in order, of the accepted non-nil events |
| RunStream.AllWrittenOnClose | api/http/handler/runtime/run_handler.go:242-246 | when the closed channel is seen, all accepted events have been written |
| RunStream.SyntheticErrorIff | api/http/handler/runtime/run_handler.go:259-272 | an own error event exactly for a failed run that forwarded none |
| RunStream.EmitNeverStuck | api/http/handler/runtime/run_handler.go:217-226 | in every reachable state an emit can return, at once or after the handler's next step |
| RunStream.WorkerEndsAlone | api/http/handler/runtime/run_handler.go:214-232 | with the handler gone every emit returns, and posting the result never waits |
| RunStream.HandlerNeverStuck | api/http/handler/runtime/run_handler.go:236-257 | the handler can act whenever the client left or the channel closed, and its wait for the result ends |
| RunStream.DrainDelivers | api/http/handler/runtime/run_handler.go:236-272 | once the run is over a reading client gets every accepted event, and an own error only if none was forwarded |
| RunStream.EmittedIsAccepted | api/http/handler/runtime/run_handler.go:217-226 | an event emitted while there is room goes to the end of the channel |
| RunStream.UndisturbedRun | api/http/handler/runtime/run_handler.go:206-272 | a reading client gets all non-nil events of a run in order, and then an own error exactly if the run failed without emitting one |
| ControlLoop.RunControlStep | application/service/runtime/service.go:285-307 | the client is shown the events, mapped, up to an action that does not parse, or a prefix if it stops; success returns the last action, and failure has one of the three causes |
| ControlLoop.ShowProgress | application/service/runtime/service.go:357-359 | the progress reports that correlate are shown in order, and a failure to show them changes nothing |
| ControlLoop.DispatchControlAction | application/service/runtime/service.go:309-374 | which observation the loop goes on with, that progress and then the observation are shown, and when there is none |
| ControlLoop.Values.AppendObservationHistory | application/service/runtime/service.go:522-536 | the history is the last min(8, n + 1) of the n old ones and the new observation |
| ControlLoop.Values.ApplyDeviceObservation | application/service/runtime/service.go:492-507 | the context after an observation: task, latest action and observation, history, active sessions |
| ControlLoop.Settle | application/service/runtime/service.go:200-223 | which outcomes end the loop, in what way, and what is then shown; a known open task becomes FAILED after a failed run or without an observation, COMPLETED after a run without an action, CANCELLED if the device reports a cancel, and the hub is untouched otherwise |
| ControlLoop.RunControlLoop | application/service/runtime/service.go:187-233 | the rounds, their prompts, actions and observations, the end and its cause, what is shown of every round, or the prefix of it for a client that takes nothing more once it has refused an event, the history as the last eight of all, and the hub after the final write |
| ControlLoop.ActionsAreNumbered | application/service/runtime/service.go:196-305 | at most eight runs; the k-th action has sequence k, the task's id and a key of task and action id |
| ControlLoop.StatusFollowsEvents | application/service/runtime/service.go:187-233 | for a client that reads on, a known open task ends for good as FAILED if eight rounds went on, or the run after those that did fails, has an action that does not parse or one whose task cannot be begun; COMPLETED if that run asks for nothing; CANCELLED if the device reports a cancel; else it waits and is as others leave it |
| ControlLoop.PromptsFollow | application/service/runtime/service.go:225-228 | every run but the first is prompted with the task and the latest action and observation alone |
| ControlLoop.ObservedInTurn | application/service/runtime/service.go:522-536 | the history is fed one observation of each round that went on, in order and without attachment data |
| ControlLoop.LastActionIsLast | application/service/runtime/service.go:285-307 | the action that a run ends up asking for is its last one, with the task's id, the round as sequence, and the key of task and action |
| ControlLoop.EachEventIsShown | application/service/runtime/service.go:287-301 | each event is shown in its place: an action stamped, a Done after an action not at all, any other as it is |
| ControlLoop.AnswerIsShown | application/service/runtime/service.go:309-374 | the reports of the action and no others are shown, and then what the device answered without attachment data |
| ControlLoop.NoDoneAfterAction | application/service/runtime/service.go:298-300 | after an action no Done event of the run is shown |
| ControlLoop.PlainRunUnchanged | application/service/runtime/service.go:287-301 | a run without actions is shown event by event |
| ControlLoop.CancelledMeanwhile | application/service/runtime/service.go:200-232 | a task that is CANCELLED in memory or in the store when the loop ends stays so, whatever status the loop writes |
| ControlLoop.OutcomeIsKept | application/service/runtime/service.go:200-232 | after the final write a known task is COMPLETED, FAILED or CANCELLED as the loop ended, or has its earlier outcome, for the rest of the run |
| Workspace.LineStarts | api/http/handler/public/workspace/workspace_handler.go:483-488 | the offsets found by scanning are where the lines start |
| Workspace.TextLineCountIsLines | api/http/handler/public/workspace/workspace_handler.go:520-529 | the counted lines are as many as the starts that ranges are checked against |
| Workspace.ReplaceLineRange | api/http/handler/public/workspace/workspace_handler.go:476-518 | the file with its whole lines replaced, or the range error, as the next two rows say in full |
| Workspace.ReplaceOutcome | api/http/handler/public/workspace/workspace_handler.go:476-518 | each range error has its exact condition; else the lines before and after the range stand around the text, which gets a newline exactly if it is not empty, has none, and a line follows or the file ended in one; a text for the line after the last is appended |
| Workspace.ReplacedMatch | api/http/handler/public/workspace/workspace_handler.go:457-474 | the file is split around the k-th leftmost match and the replacement stands there; with no such match it is unchanged |
| Workspace.OtherLinesUntouched | api/http/handler/public/workspace/workspace_handler.go:505-517 | the lines before and after the range are those of the original |
| Workspace.MatchesAreLeftmost | api/http/handler/public/workspace/workspace_handler.go:399-418 | each counted match is the leftmost one after its predecessor, and none follows the last |
| Workspace.MatchesSpaced | api/http/handler/public/workspace/workspace_handler.go:399-418 | counted matches do not overlap |
| Workspace.FindMatchLines | api/http/handler/public/workspace/workspace_handler.go:440-455 | the line numbers of the first min(limit, count) matches, in ascending order |
| Workspace.LineNumberIsLine | api/http/handler/public/workspace/workspace_handler.go:451-451 | a reported line number names the line that an edit of that number replaces |
| Workspace.ReplaceOccurrence | api/http/handler/public/workspace/workspace_handler.go:457-474 | replaces exactly the k-th leftmost match, and nothing if there is none; an empty text is found at the start |
| Workspace.EarlierMatchesStay | api/http/handler/public/workspace/workspace_handler.go:457-474 | earlier matches stay where they were |
| Patch.SortStable | api/http/handler/public/workspace/workspace_handler.go:356-362 | the in-place sort is stable insertion by the source's comparison, for any changes |
| Patch.SortedKeeps | api/http/handler/public/workspace/workspace_handler.go:356-362 | the sort neither loses nor repeats a change |
| Patch.SortedDescending | api/http/handler/public/workspace/workspace_handler.go:357-362 | disjoint line edits of one path string end up in strictly descending order |
| Patch.ApplyOne | api/http/handler/public/workspace/workspace_handler.go:363-419 | one change against the edited or the stored text, with each refusal |
| Patch.ChangeOutcome | api/http/handler/public/workspace/workspace_handler.go:363-397 | which changes are refused, in the order of the checks: blank path or nothing to edit, path outside, no file, more than 262144 bytes; an edited file is not looked up again |
| Patch.TextEditOutcome | api/http/handler/public/workspace/workspace_handler.go:399-419 | an edit by text without match, with several but no occurrence, or with too large a one is refused; else it replaces that one of the leftmost matches and nothing else |
| Patch.RefusedAtFirst | api/http/handler/public/workspace/workspace_handler.go:363-420 | a refused batch names the first change, in sorted order, that fails after those before it succeeded |
| Patch.BuildWorkspacePatch | api/http/handler/public/workspace/workspace_handler.go:347-438 | the original and edited files of a patch, the first refusal by position, and the refusal of a patch without effect |
| Patch.FilesAreIndependent | api/http/handler/public/workspace/workspace_handler.go:371-397 | a file's new text is its own changes applied in order to its text on disk |
| Patch.EditBeforeTail | api/http/handler/public/workspace/workspace_handler.go:476-518 | an edit above an already edited tail edits the original lines |
| Patch.LineEditsAreSimultaneous | api/http/handler/public/workspace/workspace_handler.go:356-397 | disjoint in-range edits of one path yield, in whatever order they were listed, each edit's text at its first line, with a newline if it needs one, none of its other lines, and every other original line |
| Patch.PiecesSubstitute | api/http/handler/public/workspace/workspace_handler.go:356-397 | such a substitution exists for all disjoint edits |
| Patch.BatchPatch | api/http/handler/public/workspace/workspace_handler.go:347-438 | the whole patch of such a batch |
| Patch.OtherPathsStayInPlace | api/http/handler/public/workspace/workspace_handler.go:357-362 | in a list of any length the sort moves no change past another but a line edit past one of the same path string with a smaller line number |
| Patch.SubstitutesIff | api/http/handler/public/workspace/workspace_handler.go:356-397 | disjoint line edits of one file, under any spellings, substitute simultaneously with all texts if and only if their sorted order is descending |
| Patch.TwoSpellingsMiss | api/http/handler/public/workspace/workspace_handler.go:357-368 | two disjoint edits of one file under two spellings that miss the substitution |
| ConfigTree.ScrubSensitiveAgentConfig | application/assembler/agent/sys_agent_assembler.go:79-104 | the in-place walk leaves the same maps without exactly the hidden keys, at every level and in any map order |
| ConfigTree.ScrubbedValue | application/assembler/agent/sys_agent_assembler.go:79-104 | read as a value, the scrubbed tree is the scrubbed value |
| ConfigTree.IndexByID | application/service/agent/sys_agent_svc.go:183-188 | the index holds the last saved item of each non-empty id |
| ConfigTree.PreserveSensitiveValues | application/service/agent/sys_agent_svc.go:160-196 | the in-place walk turns the incoming tree into the preserved one, which takes secrets over by reference, and changes no saved map |
| ConfigTree.PreservedValue | application/service/agent/sys_agent_svc.go:160-196 | read as a value, the preserved tree is the preserved value |
| ConfigTree.ReadThenWriteBack | application/service/agent/sys_agent_svc.go:138-139 | a scrubbed tree written back in place holds its value again if and only if its hidden fields are those of the saved objects it is matched with; for a copy with distinct ids, if and only if no API key was exposed |
| AgentConfig.RestoredIff | application/service/agent/sys_agent_svc.go:160-219 | for all values, what was read and is written over a saved value comes back if and only if at every level its kept fields equal those of its match, and nothing else was hidden |
| AgentConfig.ReadThenWriteBack | application/service/agent/sys_agent_svc.go:160-219 | with distinct ids, writing back what was read restores everything if and only if no API key was exposed |
| AgentConfig.DuplicateIDsMixSecrets | application/service/agent/sys_agent_svc.go:183-195 | with one id twice, the first item gets the second one's prompt |
| AgentConfig.OnlySecretsChange | application/service/agent/sys_agent_svc.go:160-196 | reading the preserved tree shows what reading the update shows |
| AgentConfig.ScrubHidesAll | application/assembler/agent/sys_agent_assembler.go:79-94 | a read shows no hidden key at any level |
| AgentConfig.KeptNames | application/service/agent/sys_agent_svc.go:211-219 | the five kept names, and apikey, which is hidden but not kept |
| AgentConfig.SpellingIrrelevant | application/assembler/agent/sys_agent_assembler.go:96-104 | underscores and ASCII case make no difference to a key |
| AgentConfig.KeptFieldIff | application/service/agent/sys_agent_svc.go:165-173 | a kept field in both objects takes the new value if and only if that is a text with a character that is not white space, or the saved value anyway; else, and when the update lacks it, it has the saved value |
| AgentConfig.NewStringsSurvive | application/service/agent/sys_agent_svc.go:166-171 | at every level each kept text of the update with a character that is not white space stands in the result |
| AgentConfig.PreserveIdempotent | application/service/agent/sys_agent_svc.go:160-196 | preserving twice is preserving once |
| ModelUsage.IndexItems | application/service/model/sys_model_svc.go:203-217 | the three indexes hold the last item per id, the first per name, and the names of several items |
| ModelUsage.AmbiguousNameGetsNothing | application/service/model/sys_model_svc.go:210-231 | a metric known only by a name that two items share counts for no item |
| ModelUsage.AttributionIsOwn | application/service/model/sys_model_svc.go:221-235 | an item gets metrics of its own id, or of a name that is its alone |
| ModelUsage.IdDecides | application/service/model/sys_model_svc.go:221-224 | a metric with a listed id counts for the last item that has it |
| ModelUsage.NameDecides | application/service/model/sys_model_svc.go:225-235 | a metric without one counts for nothing if and only if its name is blank, unlisted or shared, and else for the item of its name |
| ModelUsage.AttributedToOwner | application/service/model/sys_model_svc.go:280-282 | with the source's keys and no NUL in user names, a metric counts for an item of its own user |
| ModelUsage.Aggregated | application/service/model/sys_model_svc.go:219-249 | aggregates and totals are the sums over the attributed metrics |
| ModelUsage.EachFigureIsSummed | application/service/model/sys_model_svc.go:236-248 | an item has an aggregate exactly if a metric counts for it, and each of the seven figures is the sum of that figure |
| ModelUsage.Fill | application/service/model/sys_model_svc.go:251-277 | what each field of an item becomes, and which keep their value |
| ModelUsage.ApplyModelUsageMetrics | application/service/model/sys_model_svc.go:202-278 | every listed item shows the sums of its own metrics and its share of its user's requests |
| ModelUsage.CountsAddUp | application/service/model/sys_model_svc.go:236-249 | a user's usage counts add up to the requests attributed to that user's items |
| ModelUsage.OrderIrrelevant | application/service/model/sys_model_svc.go:220-249 | the sums do not depend on the order of the metrics |
| Wire.DecodeModelUsage | infra/runtime/mapping_response.go:224-272 | the sub-message loop, stopping at the first malformed field |
| Wire.ModelUsageFromUnknown | infra/runtime/mapping_response.go:198-222 | the outer loop returns the records of the input up to the first malformed field |
| Wire.RoundTrip | infra/runtime/mapping_response_test.go:62-75 | the records of any encoded list, with well-formed unknown fields in between, are returned exactly and in order |
| Wire.FieldBytes | infra/runtime/mapping_response.go:198-272 | the bytes of small fields of each wire type, as section "Message Structure" of the protocol buffers encoding guide has them |
| Wire.DecodeMeaning | infra/runtime/mapping_response.go:224-272 | per sub-field the last value sent wins |
| Wire.AnyOrder | infra/runtime/mapping_response_test.go:69-72 | sub-fields in any order, with anything in between, mean the same record |
| Wire.SignedCounter | infra/runtime/mapping_response.go:252-261 | negative counters travel in ten bytes and come back |
| Wire.LongestPrefix | infra/runtime/mapping_response.go:200-221 | on any bytes the result is that of the longest prefix of complete fields |
| Ulid.Increment | pkg/ulid/ulid.go:45-53 | the in-place loop is the carry on big-endian bytes |
| Ulid.CarryAddsOne | pkg/ulid/ulid.go:44-53 | the carry is plus one modulo the size of the number |
| Ulid.Encode | pkg/ulid/ulid.go:56-93 | the bit slicing yields the canonical 26 symbols |
| Ulid.Group | pkg/ulid/ulid.go:68-75 | eight symbols carry exactly the forty bits of five bytes |
| Ulid.CanonicalValue | pkg/ulid/ulid.go:55-93 | the symbols read as base-32 digits are the time times two to the 80th plus the entropy |
| Ulid.DecodeRecovers | pkg/ulid/ulid.go:55-93 | time and entropy are recovered for every time below two to the 48th |
| Ulid.OrderPreserved | pkg/ulid/ulid.go:14-15 | string order of identifiers is numeric order |
| Ulid.Generator.New | pkg/ulid/ulid.go:25-42 | an identifier that reads as the time over the random bytes if the clock differs from the last call's, and over one more than the last entropy modulo two to the 80th if it is the same; the new state |
| Ulid.BurstValue | pkg/ulid/ulid.go:33-38 | the k-th identifier after the first of a millisecond carries the first one's random bytes plus k |
| Ulid.SameIdIff | pkg/ulid/ulid.go:33-38 | two generators in one millisecond return the same identifier if and only if their random starts plus their counts are the same; first identifiers differ exactly if the random bytes do |
| Ulid.NextIsLargerIff | pkg/ulid/ulid.go:30-38 | the next identifier is larger if and only if the clock advanced or the entropy did not wrap |
| Ulid.RunIsMonotonicIff | pkg/ulid/ulid.go:23-42 | a run is strictly increasing, so without duplicates, if and only if each of its steps is in order |
| Cron.SplitJoins | application/service/scheduledtask/cron.go:50-52 | splitting at a separator loses nothing |
| Cron.AtoiReadsDecimal | application/service/scheduledtask/cron.go:54-82 | decimal numbers are read back |
| Cron.AddRange | application/service/scheduledtask/cron.go:87-89 | the loop ends, and adds exactly the values it reaches when the step is added in 64 bits |
| Cron.ReachedIsStepped | application/service/scheduledtask/cron.go:87-89 | without overflow the loop reaches exactly the stepped range |
| Cron.ExpandCronField | application/service/scheduledtask/cron.go:48-97 | succeeds iff every token parses, and then is the non-empty union of what the tokens' loops reach |
| Cron.FieldIsStandardIff | application/service/scheduledtask/cron.go:48-97 | a field allows the union of its stepped ranges, within its bounds, if and only if the addition overflows for no token |
| CronText.TokenReads | application/service/scheduledtask/cron.go:51-86 | a token *, n or a-b, with or without /step, is accepted exactly if it is in the bounds, in order, and its step not zero, and is read as that range |
| CronText.FieldMeans | application/service/scheduledtask/cron.go:48-97 | a field of such tokens is accepted exactly if all are well formed, and then allows what some token means |
| Cron.OddMinutes | application/service/scheduledtask/cron.go:87-89 | minute 59 with the largest step allows every odd minute |
| Cron.ParseCron | application/service/scheduledtask/cron.go:31-46 | five fields, each expanded with its own bounds, or nothing |
| Cron.CronMatches | application/service/scheduledtask/cron.go:17-29 | matches iff the expression parses and all five values are allowed |
| CronText.ExpressionMeans | application/service/scheduledtask/cron.go:17-97 | five such fields match a time if and only if all tokens are well formed within 0-59, 0-23, 1-31, 1-12 and 0-6, and minute, hour, day, month and weekday each are what some token of their field means |
| Scheduler.SlotOrder | application/service/scheduledtask/service.go:224-224 | slots are ordered like the minutes they stand for |
| Scheduler.TaskTable.Claim | application/service/scheduledtask/service.go:225-228 | affects an active row with another slot, and only that row |
| Scheduler.Service.Tick | application/service/scheduledtask/service.go:206-236 | rows, running count and started runs after one scan; never more than three running |
| Scheduler.StartedWasDue | application/service/scheduledtask/service.go:220-231 | every run that a scan starts is of a task whose expression allowed the time and whose slot was free just before |
| Scanning.DueRowsClaimed | application/service/scheduledtask/service.go:220-228 | after a scan the row of each due task has the slot, and every other row is as it was |
| Scanning.FirstDueStart | application/service/scheduledtask/service.go:229-234 | a scan starts exactly the first due tasks, in order, as many as three less those running |
| Scanning.TickIsAttempts | application/service/scheduledtask/service.go:220-234 | a scan that no other gets in between is, in rows, running count and runs, its attempts one after the other in the system of many scanners |
| Scheduler.RunKeeps | application/service/scheduledtask/service.go:225-235 | the claim and running invariants hold for any number of scanners |
| Scheduler.ClaimedAtMostOnce | application/service/scheduledtask/service.go:225-228 | a slot claimed twice has another slot of the task in between, so claims in slot order are unique |
| Scheduler.RunsFollowClaims | application/service/scheduledtask/service.go:220-234 | for any number of scanners every run has a claim of its own, made at a minute that its task's expression allows, and no service runs more than three |
| Scheduler.RunsAreUnique | application/service/scheduledtask/service.go:225-234 | when claims come in slot order no two runs are of one task and slot |
| Scheduler.TwiceClaimedIff | application/service/scheduledtask/service.go:225-228 | over every run of any number of scanners and from any rows, a slot of a task is claimed twice if and only if it is tried after another slot and again after another one |

## Left out

- HTTP handlers, routing, configuration, boot wiring and the copying between transport, domain and table types: no property of their own.
- Integer widths but in cron steps, where the addition can wrap: other counters and times are unbounded.
- Text that is not valid UTF-8: a Go string is the sequence of its code points, and the size of a file in bytes is an input.
- Database engines, drivers and JSON columns: a table is a map and a statement is one step.
- gRPC, WebSocket, git, and every other process or network peer: their results are inputs.
- Patch.BuildWorkspacePatch: gives the files before and after the patch; the text that `git diff` makes of them, and its errors, are not modelled.
- Hub.CancelledForGood: covers the status that cancelling writes, not the cancel messages to devices, nor the choice of the first hundred tasks.
- Protocol and type tags, policy words, deadlines, arguments and the base64 and digest checks of attachments in message validation: scalar checks without state.
- ControlLoop.RunControlLoop: a client that refused an event takes none later; an emit that is accepted again after the time limit, or dropped after the client has left, is not modelled.
- `FindTask`, `ListTasks` and the devices' online flags: single statements that no proved property rests on.
- The hub without a store as far as device ownership goes: a device is then simply unbound after it reconnects.
- Progress reports that are still being handed on when their dispatch returns: the control loop shows reports before the observation, and the stream has the run as the only emitter.
- A service that was given no control hub, which the start-up code never leaves out: a dispatch is then refused, and the status write that follows it, application/service/runtime/service.go:212, calls a method of the nil hub and panics at its lock.
- The updates of `Touch`, `Devices`, `Tasks` and `ActiveSessions`: reads and time stamps.
- ConfigTree.ScrubSensitiveAgentConfig: takes a decoded tree, in which no map occurs twice; JSON text and its errors are not modelled.
- ConfigTree.PreserveSensitiveValues: the same for the incoming tree; lower case is modelled as far as the compared ASCII words can tell.
- ModelUsage.Fill: rates and latency are exact quotients; rounding and formatting are not modelled, nor is 64-bit overflow of the sums.
- Patch.SortStable: the insertion sort that Go's stable sort is on at most 20 elements; more are refused before.
- Ulid.Generator.New: the random bytes are an input, and so is the clock.
- Cron.ParseCron: time zones are resolved before; a time is its calendar fields.
- Scheduler.Service.Tick: job records, approvals and the run itself are not modelled.
- `normalizePatch`, context excerpts, search and tree listing in the workspace handler: not needed for the edit properties.
- Placeholder counting, masking, log truncation, installers, media and training jobs: easy or bound to I/O.
