# Verified model of Sonalmod's runtime

A Dafny model of the stateful core of the repository, with proofs of what it is
for. Check everything with `dafny verify dfyconfig.toml`.

Code that changes state in place is modelled as classes and loops, and each
such method is proved against a function of the old state. What the source
promises is then proved about those functions, for every input, every run and
every interleaving.

## What is modelled

- **Event bus and background runner** (`BusProtocol`, `BusSafety`, `BusProgress`, `EventBus`,
  `RunnerProtocol`, `RunnerSafety`, `RunnerHistory`, `StaleHistory`,
  `BackgroundRunner`). Two transition systems, one nested in the other:
  goroutines that publish, subscribe, replay, receive, leave and close, where
  Publish and Close take several steps with the lock held and channels hold 256
  events; and runs over many sessions that count history, register, produce and
  are removed while readers join. The classes are the source's objects; their
  methods take the steps of these systems. `RunnerHistory` tells what a run and
  its readers have from the schedule alone.
- **Session storage** (`SessionState`, `RecentEvents`, `SessionFiles`,
  `SessionRefinement`, `SessionEffects`, `SessionMetadata`, `MetadataSync`,
  `MetadataRecords`, `MetadataOverlap`, `MetadataTitles`). Three layers of state
  in prefixed keys and separate files, an append-only log, the metadata index
  beside it, and the wrapper that keeps both in step, also when its calls
  overlap. Proved to behave as three maps and a log; `SessionEffects` says what
  each call changes of what later calls are answered.
- **Event stream** (`StreamEvents`, `SseWriter`, `SseParser`, `SseStream`,
  `SseBlocks`, `StreamReducer`, `StreamTexts`, `AgentStream`, `StreamMapping`).
  The Go writer, the TypeScript incremental parser and the client's reducer; the
  frame format is that of sections 9.2.5 and 9.2.6 of the WHATWG HTML Living
  Standard. `AgentStream` joins this to the runner: what a browser ends up with
  is the fold of what the run yielded. `StreamTexts` and `StreamMapping` say
  what that fold is: the texts, calls and errors a user sees.
- **Workspace tools** (`DirectoryTree`, `ExecJobs`, `JobService`). The
  recursive listing with one budget of nodes, and background jobs with capped
  output.
- **ACP client** (`AcpClient`, `AcpContents`, `AcpCommand`). A three-call
  exchange over JSON-RPC 2.0 (section 4.1, notifications; section 5, responses),
  stated as the exact language of messages it accepts, with what it carries
  over and why it fails.
- **Agent profiles and providers** (`AgentProfiles`, `ProfileMarkdown`,
  `ProviderFiles`, `ProviderStore`). The profile normaliser and its Markdown
  files, and the provider files with their two extensions.

## Assumptions

JSON and YAML are exact on the values written: decoding what was encoded gives
it back, JSON text is one line without a leading blank, YAML text has no line
that begins with `---`. Clocks, generated identifiers, iterator failures, process results
and the point at which a connection breaks are parameters. Files are a map from
paths to contents, and file calls succeed unless a file stands where a
directory is needed or the other way round. Listings are sorted by an arbitrary
function that sorts, the same way for the same input; the provider list sorts
by insertion, of which only that is used. Text is a sequence of characters, and
identifiers are single path components.

## Where the code departs from what it is said to do

For each of these the exact condition is proved under which the code does what
is said, and an input is given where it does not.

- The limit on background jobs is said to be on jobs running at once
  (`tools/workspacefs/tools.go:30`). Finished jobs are never taken out of the
  table (`ExecJobs.RefusalIsForRunningJobsIff`, `ExecJobs.FullOfFinishedJobs`;
  `ExecJobs.NewJobPossibleIff` says when a job can ever get in again).
- Sessions of an application called `_user` are looked for where user state is
  stored, and those of one called `_app` may need a directory where an
  application state file is (`SessionRefinement.AppNameIsSafeIff`).
- The filter on recent events relies on a log in time order, which storage does
  not enforce (`RecentEvents.CutIsExactIffSplit`,
  `RecentEvents.CutCanLoseEvents`).
- A history count taken before a run registers can be out of date when it
  registers (`RunnerSafety.SpliceIsExactIffCountWas`,
  `StaleHistory.CountCanBeStale`). It is not if nothing is stored in between
  (`RunnerHistory.CountedHistoryIsShown`).
- Subscribe on a closed bus hands out a channel that nothing ever closes
  (`BusSafety.StuckOnlyIfSubscribedTooLate`, `BusSafety.LateSubscriberWaits`).
- A chunk boundary between CR and LF makes two line breaks of one
  (`SseStream.SentTextIsReadIffCleanCuts`, `SseStream.CutThroughCrLfMatters`);
  the writer never emits CR.
- A blank agent command survives normalisation in regular mode but is not
  written (`ProfileMarkdown.RoundTripIff`, `ProfileMarkdown.BlankCommandIsLost`).
- Deleting a provider that has both files brings the older one back
  (`ProviderFiles.StepIsMapStepIff`, `ProviderFiles.DeleteCanResurface`).
- The metadata wrapper holds no lock from storing a session to saving its
  record, so overlapping calls on one session can leave a record without a
  session (`MetadataOverlap.OverlapIsSafeIff`,
  `MetadataOverlap.OverlapCanLeaveRecord`). Appends may overlap freely
  (`MetadataOverlap.ClashesIffPending`).
- Overlapping appends can replace a title, which is meant to stay once set
  (`MetadataTitles.SaveIsSafeIff`, `MetadataTitles.OverlapReplacesTitle`); it
  stays if nothing else saves or drops the record between an append's finding
  and saving it (`MetadataTitles.KeptIfUndisturbed`).

An empty write to a full output buffer would raise its flag though nothing is
lost (`ExecJobs.TruncatedMeansLostIff`). The loop that copies a process's
output makes none, and without one the flag means loss
(`ExecJobs.NonEmptyWritesMeanLoss`).

## Model

| member | source | states |
|---|---|---|
| BusSafety.ReplayThenLiveIsTheBuffer | runtime/internal/event_bus.go:112-199 | in every interleaving, a replay reader still registered has in its snapshot, its received events and its queue exactly the buffer, but for the event of a publish that has not reached it; what any replay reader has shown is a prefix of the buffer |
| BusSafety.SubscriberSeesWhatFollows | runtime/internal/event_bus.go:56-73 | in every interleaving, a plain subscriber has been handed a prefix of the events published after it registered, and all of them if its loop ended by itself |
| BusSafety.FinishedReaderSawTheRun | runtime/internal/event_bus.go:142-199 | a reader that has finished and was neither cancelled nor stopped saw every event it was owed and then the error of Close exactly once if there is one |
| BusSafety.NeverPanics | runtime/internal/event_bus.go:38-95 | no interleaving sends on a closed channel or closes a channel or Done twice |
| BusProgress.PanicsIff | runtime/internal/event_bus.go:38-95 | a step panics if and only if it sends on a closed channel or closes a channel or Done a second time |
| BusSafety.FirstCloseIsFinal | runtime/internal/event_bus.go:75-95 | over any further run the buffer only grows, and after the first Close neither the buffer nor the error changes |
| BusSafety.StuckOnlyIfSubscribedTooLate | runtime/internal/event_bus.go:52-95 | for every schedule before and after it joined: once Close has returned, a reader that has not left can go on by itself if and only if it did not call Subscribe on a bus already closed, or has been cancelled since |
| BusSafety.LateSubscriberWaits | runtime/internal/event_bus.go:52-95 | closing and then subscribing leaves a reader that cannot go on, whatever follows |
| BusSafety.StepKeepsInv | runtime/internal/event_bus.go:38-199 | no step from a good state panics, and every step keeps the invariant that ties buffer, channels, lock and readers together |
| BusSafety.UninterruptedEndsNaturally | runtime/internal/event_bus.go:142-164 | a reader is marked as ended early only by a cancellation or by its consumer asking for no more |
| BusProgress.BusAccounts | runtime/internal/event_bus.go:38-95 | in any schedule the buffer is what was published before the first Close, in order, and the error is that of the first Close |
| BusProgress.SendWaitsIffFull | runtime/internal/event_bus.go:14-50 | a publish hands its event to the channel of a subscriber it still has to visit, and waits if and only if that holds 256 events |
| BusProgress.CloseFinishes | runtime/internal/event_bus.go:75-95 | a Close that has begun never waits: its own steps lead to a bus that is done, with nobody subscribed and the lock free |
| BusProgress.ReaderTakesNext | runtime/internal/event_bus.go:112-164 | a reader with something left in its snapshot, or later in its channel, can take the next of it and hands that over |
| BusProgress.InterruptEndsReader | runtime/internal/event_bus.go:142-164 | a reader of live events can always be cancelled; a cancellation, or a consumer that wants no more, ends it early |
| BusProgress.EndedStays | runtime/internal/event_bus.go:142-199 | a reader that has ended is handed neither event nor error any more, whatever follows |
| EventBusObject.EventBus.Publish | runtime/internal/event_bus.go:38-50 | a publish that returns has appended the event and sent it on every registered channel; one that waits has done so for the channels not in its to-do set and stands at a full one; on a closed bus nothing changes |
| EventBusObject.EventBus.SendPending | runtime/internal/event_bus.go:47-49 | the sending loop serves subscribers in any order, each once, and stops only at a full channel |
| EventBusObject.EventBus.Subscribe | runtime/internal/event_bus.go:56-65 | registers a fresh open channel under the next id |
| EventBusObject.EventBus.Unsubscribe | runtime/internal/event_bus.go:69-73 | drops the id; its channel stays as it is |
| EventBusObject.EventBus.Close | runtime/internal/event_bus.go:78-95 | the first Close sets the error, closes exactly the registered channels and forgets them; a second one changes nothing |
| EventBusObject.EventBus.CloseChannels | runtime/internal/event_bus.go:89-91 | the closing loop closes every registered channel once |
| EventBusObject.EventBus.ReplaySnapshot | runtime/internal/event_bus.go:112-128 | copies the buffer and registers in one critical section; after Close returns the buffer and the error and registers nothing |
| EventBusObject.EventBus.RemoveSubscriber | runtime/internal/event_bus.go:131-140 | searching for a channel drops exactly the id it was handed out under, or nothing if that is gone |
| EventBusObject.SendsServeAll | runtime/internal/event_bus.go:47-49 | with room everywhere, the protocol steps of the sending loop, in any order, serve every subscriber |
| EventBusObject.PublishIsARun | runtime/internal/event_bus.go:38-50 | an uninterrupted Publish is a run of the protocol that reaches the state the method promises |
| RunnerSafety.OneRunPerSession | runtime/internal/background_runner.go:78-90 | in every interleaving, two runs of one session between registration and removal are the same run, and the table entry is theirs |
| RunnerSafety.RemovalDeletesOwnEntry | runtime/internal/background_runner.go:131-135 | whenever a run is removed, the entry deleted is its own |
| RunnerSafety.RejectedIffBusy | runtime/internal/background_runner.go:78-90 | a Run call is refused if and only if a run of its session lies between registration and removal, and then changes nothing |
| RunnerSafety.HistoryThenLiveRun | runtime/internal/background_runner.go:174-262 | a ReadSession call has shown, at every moment, a prefix of what it read of the history followed by the run; followed to the end it has shown exactly that, then the error of the run once, whatever was stored or removed meanwhile; what it read is the counted history as stored at registration, cut short only by a read that failed |
| RunnerSafety.UninterruptedReadSawTheRun | runtime/internal/background_runner.go:174-262 | a ReadSession call that has ended, with no cancellation and no refusal of more in the schedule, has shown what it read of the history, the whole run and its error once |
| RunnerSafety.SpliceIsExactIffCountWas | runtime/internal/background_runner.go:58-90 | what such a call shows is the whole history and then the whole run if and only if the count taken before registration was the stored length at registration |
| RunnerHistory.CountedHistoryIsShown | runtime/internal/background_runner.go:58-90 | in any schedule: a Run call that counts and is accepted, with nothing stored for its session in between, registers with the number of events stored, or of those before its count failed; whatever follows, a call on its run followed to the end whose read did not fail has shown the counted events and the whole run, which is the whole history and the whole run if the count did not fail |
| RunnerHistory.CountMatchesProtocol | runtime/internal/background_runner.go:60-72 | what the counting loop counts of a history iterator, failing or not, is the count that the protocol records for the call |
| RunnerHistory.ReadIsCutIffItFails | runtime/internal/background_runner.go:189-235 | in any schedule: a history read is cut if and only if its iterator fails before the counted events are read, and then has the events before the failure; otherwise it has exactly the counted events as stored at registration |
| RunnerHistory.LookUpFindsTheRun | runtime/internal/background_runner.go:174-187 | in any schedule: a ReadSession call finds a run if and only if its session has one between registration and removal, and then that one |
| RunnerHistory.HistoryGoesOn | runtime/internal/background_runner.go:239-251 | a call whose consumer wants more shows one more event of what it read at each step |
| RunnerHistory.HistoryGoesLive | runtime/internal/background_runner.go:193-198 | when all of it is shown, the call joins the bus as soon as that is free, having shown what it read and nothing else |
| RunnerHistory.HistoryStops | runtime/internal/background_runner.go:239-251 | a consumer that wants no more has been shown exactly one event more |
| RunnerHistory.StoppedStays | runtime/internal/background_runner.go:239-262 | a call that was stopped shows nothing more, whatever follows |
| RunnerHistory.RunGoesOn | runtime/internal/background_runner.go:92-135 | in any schedule: whenever its bus is free a registered run can serve its caller, a producing one can publish any event or end with any outcome, and one that has ended can be removed, which frees its session |
| RunnerHistory.ScheduleAccounts | runtime/internal/background_runner.go:106-129 | in any schedule, the log of a session is what was stored for it in order, a run has yielded what its runner produced in order, and its error is the one it ended with |
| StaleHistory.CountCanBeStale | runtime/internal/background_runner.go:60-262 | a schedule in which an event stored between counting and registering, so before the run registered, is missed by a read that follows the run to its end |
| RunnerSafety.RunCallerSeesTheRun | runtime/internal/background_runner.go:92-169 | the caller of Run has been handed a prefix of the events the run yielded, and at its natural end all of them and the error once |
| RunnerSafety.UninterruptedCallerSawTheRun | runtime/internal/background_runner.go:92-169 | under the same condition the caller of Run has been handed the whole run and its error once |
| RunnerSafety.OnlyInterruptsEndRunReader | runtime/internal/background_runner.go:138-169 | in any schedule only a cancellation or a refusal of more ends a reader of a run early |
| RunnerSafety.ExecuteKeepsWorld | runtime/internal/background_runner.go:58-135 | no schedule of runs and reads over many sessions panics, and every one keeps the invariant of the table, the runs and the calls |
| BackgroundRunnerObject.CountEvents | runtime/internal/background_runner.go:64-72 | the count is the number of events before the first error of the history |
| BackgroundRunnerObject.MaterializePrefix | runtime/internal/background_runner.go:220-235 | the first n events before any error, and none for n at most zero |
| BackgroundRunnerObject.Forward | runtime/internal/background_runner.go:242-260 | one copying loop hands over items up to an error or to where the consumer stops, and tells whether to go on |
| BackgroundRunnerObject.ChainIters | runtime/internal/background_runner.go:239-262 | the two iterators one after the other, ending at the first error, cut where the consumer stops |
| BackgroundRunnerObject.ChainedMeans | runtime/internal/background_runner.go:239-262 | chained iterators yield the events of both, or if the first fails its events and its error and nothing of the second |
| BackgroundRunnerObject.UpToErrorMeans | runtime/internal/background_runner.go:242-260 | an iterator cut after its first error yields the same events, and that error last if there is one |
| BackgroundRunnerObject.BackgroundRunner.Register | runtime/internal/background_runner.go:78-90 | the table changes as the protocol says, and the call is accepted exactly when the protocol accepts it |
| BackgroundRunnerObject.BackgroundRunner.RemoveActiveRun | runtime/internal/background_runner.go:131-135 | deletes the entry of the session and no other |
| BackgroundRunnerObject.BackgroundRunner.ReadSession | runtime/internal/background_runner.go:174-200 | a session is active if and only if a run of it lies between registration and removal; then the stream is the counted prefix and the live items of that run, otherwise the history |
| BackgroundRunnerObject.StreamMatchesProtocol | runtime/internal/background_runner.go:220-235 | the prefix taken from a failing history iterator is the one the protocol takes |
| SessionState.ExtractStateDeltas | runtime/internal/sessions/file.go:277-298 | one pass over the keys yields, per prefix, the stripped keys, and the plain keys for the session; temporary keys go nowhere |
| SessionState.CopyPrefixed | runtime/internal/sessions/file.go:302-317 | copies a layer into a state under its prefix |
| SessionState.MergeStates | runtime/internal/sessions/file.go:302-328 | the session layer overlaid with the prefixed app and user layers |
| SessionState.SplitOfMergeIffPlain | runtime/internal/sessions/file.go:277-317 | splitting a merged state gives the three layers back if and only if no key of the session layer carries a prefix |
| SessionState.MergeOfSplit | runtime/internal/sessions/file.go:277-317 | merging what was split loses the temporary keys and nothing else |
| RecentEvents.Search | runtime/internal/sessions/file.go:619-622 | the halving search as the library runs it, on any log |
| RecentEvents.FilterEvents | runtime/internal/sessions/file.go:610-624 | without a time the whole log, or for a count between zero and its length exactly the last so many events; with one, those cut by the search |
| RecentEvents.SearchFindsFirst | runtime/internal/sessions/file.go:619-622 | on a log split by the time, the search finds where it splits |
| RecentEvents.CutIsExactIffSplit | runtime/internal/sessions/file.go:610-624 | the result is exactly those of the last N events that are not before the time if and only if no earlier event follows a later one among them |
| RecentEvents.CutOfOrderedLog | runtime/internal/sessions/file.go:610-624 | on a log with non-decreasing timestamps the result is exactly those of the last N events that are not before the time, and a suffix of the log |
| RecentEvents.SinceSelects | runtime/internal/sessions/file.go:610-624 | the events not before a time are each selected as often as they occur, and no other |
| RecentEvents.CutCanLoseEvents | runtime/internal/sessions/file.go:610-624 | some log out of order loses an event that should be kept |
| SessionFiles.FileSessionService.CreateSession | runtime/internal/sessions/file.go:483-575 | writes the app, user and session files as the disk step says; the handle holds the live merged state |
| SessionFiles.FileSessionService.GetSession | runtime/internal/sessions/file.go:577-635 | reads without writing; the state merges the layers as they are now |
| SessionFiles.FileSessionService.AppendEvent | runtime/internal/sessions/file.go:776-887 | the disk changes by the stored session and the trimmed event, never by what the handle remembers; the handle grows by the same event |
| SessionFiles.FileSessionService.DeleteSession | runtime/internal/sessions/file.go:738-762 | removes the session file only, or reports why not |
| SessionFiles.FileSessionService.UpdateStateFile | runtime/internal/sessions/file.go:847-887 | adds a delta to a state file and reports a path that cannot be written; an empty delta writes nothing |
| SessionFiles.FileSessionService.UpdateLayers | runtime/internal/sessions/file.go:511-537 | writes the app layer and then the user layer of a delta, stopping at the first that cannot be written |
| SessionRefinement.StorageIsTheModel | runtime/internal/sessions/file.go:483-902 | any calls through any handles, for sessions whose files meet no state file, are answered as by three live layers and one log per session |
| SessionRefinement.StepRefines | runtime/internal/sessions/file.go:483-902 | each operation on the files refines the same operation on the layers and logs |
| SessionRefinement.AppNameIsSafeIff | runtime/internal/sessions/file.go:471-481 | an application name is answered as the model answers, whatever else is stored, if and only if it is neither `_user` nor `_app` |
| SessionRefinement.UserStateReadsAsSession | runtime/internal/sessions/file.go:471-481 | two calls whose answers differ: a user state file is read as a session of application `_user` |
| SessionRefinement.AppStateStandsInTheWay | runtime/internal/sessions/file.go:471-481 | two calls whose answers differ: a session of application `_app` needs a directory where an application state file is |
| SessionRefinement.SessionMeetsUserFileIff | runtime/internal/sessions/file.go:471-481 | a session file and a user state file have one path exactly for application `_user` |
| SessionRefinement.SessionBelowAppFileIff | runtime/internal/sessions/file.go:471-481 | a session lies below an app state file exactly for application `_app` and a user called like the file |
| SessionRefinement.LogIsEveryAppend | runtime/internal/sessions/file.go:776-845 | until a session is deleted, the events in its file are those it had and then every non-partial append that was answered, in order, through whichever handle and whatever other sessions do |
| SessionRefinement.AppendIsAnswered | runtime/internal/sessions/file.go:776-845 | an append to a stored session whose files meet no state file is always answered |
| SessionRefinement.TempKeysNeverPersist | runtime/internal/sessions/file.go:889-902 | no call leaves a temporary key in the state or an event of any session file, or returns one in a state |
| SessionRefinement.TempKeysNeverAppear | runtime/internal/sessions/file.go:889-902 | over any run no session file comes to hold a temporary key and no answer has one in its state |
| SessionEffects.AppendIsSeen | runtime/internal/sessions/file.go:776-902 | after an answered append of a complete event a Get of any session gives every key of the delta that is for it the value in the delta, and every other key the value it had: app keys reach the sessions of the application, user keys those of the user, plain keys the session itself and temporary keys none |
| SessionEffects.AppendIsStored | runtime/internal/sessions/file.go:776-887 | the event stored last has the content, time and partial flag of the caller and of its delta exactly the keys that are not temporary, with their values; the events before it stay |
| SessionEffects.CreateIsSeen | runtime/internal/sessions/file.go:483-575 | an answered Create changes what other sessions see by the app and user keys of its state and nothing else |
| SessionEffects.CreatedIsRead | runtime/internal/sessions/file.go:483-635 | a created session is answered, and later read, with the keys of its state that are not temporary over those its application and user had, and without events |
| SessionEffects.GetGivesTheLog | runtime/internal/sessions/file.go:605-624 | a Get without a time gives the whole stored log, or for a count between zero and its length exactly the last so many events |
| SessionEffects.DeletedIsGone | runtime/internal/sessions/file.go:738-762 | a deleted session cannot be read and every other session reads as before |
| SessionEffects.RefusedIff | runtime/internal/sessions/file.go:483-887 | on a tidy disk a call for a clear session is refused if and only if a name is missing or the session is there or not as it should, in that order, and then changes nothing; a partial event is answered and not stored |
| SessionEffects.MissingIff | runtime/internal/sessions/file.go:577-762 | on any disk a session that is not there is not found, or cannot be read if another file is in the way of its own |
| SessionEffects.BlockedLayerFails | runtime/internal/sessions/file.go:483-887 | a layer that cannot be written fails the call before the session file is written; at most the application layer has been written by then |
| SessionMetadata.MemorySessionMetadataStore.Save | runtime/internal/sessions/memory.go:64-83 | replaces the record with the same key in place or appends, and is an update of a map |
| SessionMetadata.MemorySessionMetadataStore.List | runtime/internal/sessions/memory.go:86-112 | a page of a listing that has every record of the user exactly once, newest first, with the total; bad parameters are refused |
| SessionMetadata.Matched | runtime/internal/sessions/memory.go:98-103 | the filter loop of both stores |
| SessionMetadata.SortedLists | runtime/internal/sessions/memory.go:86-112 | sorting what matches lists every record of the user once |
| SessionMetadata.MemorySessionMetadataStore.Delete | runtime/internal/sessions/memory.go:115-136 | compacts the list over the deleted record, and is a removal from a map |
| SessionMetadata.Saved | runtime/internal/sessions/memory.go:73-82 | the upsert loop |
| SessionMetadata.Compacted | runtime/internal/sessions/memory.go:127-134 | the in-place compaction loop leaves the other records in order |
| SessionMetadata.UpsertIsUpdate | runtime/internal/sessions/memory.go:64-83 | saving keeps one record per key and is the update of the map the list stands for |
| SessionMetadata.WithoutIsRemoval | runtime/internal/sessions/memory.go:115-136 | deleting keeps one record per key and is the removal from that map |
| SessionMetadata.FindSessionMetadata | runtime/internal/sessions/metadata_sync.go:169-194 | the paging loop ends, finds a record of the session if there is one and reports none only if there is none |
| SessionMetadata.FoundIsLookup | runtime/internal/sessions/metadata_sync.go:169-194 | on a store with one record per key the answer is the lookup by application, user and session |
| SessionMetadata.PagesPartition | runtime/internal/sessions/metadata_sync.go:175-192 | the pages at the offsets the loop visits are the sorted list cut into parts |
| SessionMetadata.PageHolds | runtime/internal/sessions/memory.go:86-115 | a page has the records from its offset on, at most as many as asked for and all there are below that, and the number of all |
| MetadataSync.FileSessionMetadataStore.Save | runtime/internal/sessions/file.go:117-146 | one index file per application and user stands for one map of all records: save updates it |
| MetadataSync.FileSessionMetadataStore.List | runtime/internal/sessions/file.go:148-179 | a page of a listing that has every record of the user exactly once, newest first, though index files are one per user; bad parameters are refused |
| MetadataSync.FileSessionMetadataStore.Delete | runtime/internal/sessions/file.go:181-209 | delete removes the record from that map, and the file is rewritten only if it loses one |
| MetadataSync.MetadataSyncStorage.CreateSession | runtime/internal/sessions/metadata_sync.go:61-85 | the session is created as without the wrapper and, unless saving fails, gets a record without title |
| MetadataSync.MetadataSyncStorage.DeleteSession | runtime/internal/sessions/metadata_sync.go:95-103 | the record goes when the session went, unless deleting it fails |
| MetadataSync.MetadataSyncStorage.AppendEvent | runtime/internal/sessions/metadata_sync.go:105-145 | the event is stored as without the wrapper; the record found by paging is saved with the title and times it should have |
| MetadataSync.MetadataSyncStorage.ChooseTitle | runtime/internal/sessions/metadata_sync.go:147-167 | an existing title stays, otherwise the first user message is summarised |
| MetadataSync.BuildUserMessageText | runtime/internal/sessions/metadata_sync.go:196-213 | the text parts of a user event joined by single blanks and trimmed |
| MetadataSync.SyncKeepsInStep | runtime/internal/sessions/metadata_sync.go:61-145 | with no metadata failure, one call keeps record keys equal to session keys |
| MetadataSync.IndexStaysInStep | runtime/internal/sessions/metadata_sync.go:61-145 | so does any run of calls, one after the other |
| MetadataSync.LastCallIsLast | runtime/internal/sessions/metadata_sync.go:61-145 | a run of calls ends with what its last call does |
| MetadataSync.AppendKeepsIdentity | runtime/internal/sessions/metadata_sync.go:105-167 | whatever metadata calls fail, an append changes neither the creation time nor a title of its record, nor any other record |
| MetadataSync.IdentityOverRuns | runtime/internal/sessions/metadata_sync.go:105-167 | over any run of calls, one after the other, in which a session is not created again or deleted, with any failures, its creation time and non-empty title stay |
| MetadataRecords.AppendSavesRecord | runtime/internal/sessions/metadata_sync.go:105-167 | an answered append of a complete event saves one record with now as the time of its last change, the creation time it had or now, and the title it had or else the summary of the text of the user message |
| MetadataRecords.MessageIsItsWords | runtime/internal/sessions/metadata_sync.go:196-213 | the text of a user message is its non-empty texts with single blanks in between, trimmed; an event that is not from the user has none |
| MetadataRecords.CreateAndDeleteSave | runtime/internal/sessions/metadata_sync.go:61-103 | a created session gets an untitled record with both times now, and a deleted one loses its record |
| MetadataRecords.FailedMetadataIsIgnored | runtime/internal/sessions/metadata_sync.go:61-145 | whatever metadata calls fail, the session and the answer are those of the storage; a failed save or delete, a refused call, a partial event and a read leave the records alone |
| MetadataOverlap.QuietIsInStep | runtime/internal/sessions/metadata_sync.go:61-145 | calls may overlap in any way, appends of one session among them, as long as none clashes when it begins: when nothing is under way any more, record keys equal session keys |
| MetadataOverlap.OverlapKeepsInStep | runtime/internal/sessions/metadata_sync.go:61-145 | meanwhile what is still to be done agrees with the files, and record keys differ from session keys at most at sessions with a call under way |
| MetadataOverlap.OverlapIsSafeIff | runtime/internal/sessions/metadata_sync.go:61-145 | after a call that leaves something to be done, every order of finishing ends in step at its session if and only if the call did not clash: the calls under way there are saves if and only if it is no deletion |
| MetadataOverlap.EveryFinishIsInStepIff | runtime/internal/sessions/metadata_sync.go:61-145 | every order of the pending changes ends in step at a session if and only if each of them is a save exactly when the session is stored |
| MetadataOverlap.BeginKeepsAgreementIff | runtime/internal/sessions/metadata_sync.go:61-145 | a call that leaves something to be done keeps the pending changes in agreement with the file if and only if it does not clash |
| MetadataOverlap.ClashesIffPending | runtime/internal/sessions/metadata_sync.go:61-145 | an append never clashes; a creation or deletion that takes effect clashes exactly when a call on its session is under way |
| MetadataOverlap.OverlapCanLeaveRecord | runtime/internal/sessions/metadata_sync.go:95-145 | an append and a deletion of one session that overlap leave its record without the session |
| MetadataOverlap.CallIsTwoSteps | runtime/internal/sessions/metadata_sync.go:61-145 | a call alone is its two steps |
| MetadataTitles.KeptIfUndisturbed | runtime/internal/sessions/metadata_sync.go:105-167 | an append keeps creation time and non-empty title if nothing else saves or drops the record between its finding and its saving |
| MetadataTitles.AloneIsTheWrapper | runtime/internal/sessions/metadata_sync.go:105-167 | the three parts of an append with nothing in between change the records as the wrapper does |
| MetadataTitles.ChangesAreTheWrappers | runtime/internal/sessions/metadata_sync.go:61-103 | the changes of a creation and of a deletion that took effect are those of the wrapper |
| MetadataTitles.SaveIsSafeIff | runtime/internal/sessions/metadata_sync.go:105-167 | whatever the time and the summary, a save keeps creation time and title of the record there is now if and only if what its append found has them already |
| MetadataTitles.IdentityOverOverlaps | runtime/internal/sessions/metadata_sync.go:105-167 | over any interleaving in which every save of a session meets the record as its append found it, and the session is neither created again nor deleted, creation time and non-empty title stay |
| MetadataTitles.OverlapReplacesTitle | runtime/internal/sessions/metadata_sync.go:105-167 | two overlapping appends that both find an untitled record: the second save replaces the title of the first |
| MetadataTitles.DeletionHidesRecord | runtime/internal/sessions/metadata_sync.go:169-194 | when the newest record is deleted between two pages, the record at the boundary is on neither |
| SseWriter.AgentApiSseWriter.WriteEvent | runtime/internal/agentapi/sse.go:153-169 | one frame with the name of the event and its JSON; on a broken connection as much as fitted |
| SseWriter.AgentApiSseWriter.WriteBody | runtime/internal/agentapi/sse.go:54-74 | the loop writes the mapped events up to the first trouble and then one closing event, and fails exactly when the stream ended in trouble or did not fit |
| SseWriter.AgentApiSseWriter.StreamAgentRun | runtime/internal/agentapi/sse.go:34-75 | a run stream is the session frame and that body |
| SseWriter.AgentApiSseWriter.StreamSessionRead | runtime/internal/agentapi/sse.go:81-138 | a session read is the session frame, the status frame and that body |
| SseWriter.BodyEndsOnce | runtime/internal/agentapi/sse.go:54-151 | the body is the events before the first trouble and one closing event placed last: done, or an error with the text of the first trouble, or a fixed text if that is empty |
| SseWriter.EndsAtFirstTrouble | runtime/internal/agentapi/sse.go:54-73 | what is written before the end are the images of the items up to the first that cannot be written; the stream ends with its error, a request that is over before an iterator that failed before a failed mapping |
| SseWriter.SentIsCutWhereItBroke | runtime/internal/agentapi/sse.go:153-169 | a response holds what it held and the text, up to where the connection broke |
| SseParser.ParseEventBlock | apps/sonal-ui/src/lib/agentapi/sse.ts:12-35 | the field loop of a block, with its leading-blank and missing-data rules |
| SseStream.DrainCompleteFrames | apps/sonal-ui/src/lib/agentapi/sse.ts:54-72 | draining ends, since every frame shortens the buffer, and yields the complete frames up to one that is not JSON |
| SseStream.ParseAgentSseJsonStream | apps/sonal-ui/src/lib/agentapi/sse.ts:78-130 | the reading loop yields the frames of the normalised chunks and an unterminated last block, for any chunks |
| SseStream.SplitInTwo | apps/sonal-ui/src/lib/agentapi/sse.ts:54-72 | draining a text and then what follows is draining both at once |
| SseStream.ChunksDoNotMatter | apps/sonal-ui/src/lib/agentapi/sse.ts:78-130 | any two cuts of a text, neither through a CR LF pair, yield the same events and the same tail |
| SseBlocks.BlockMeans | apps/sonal-ui/src/lib/agentapi/sse.ts:8-35 | a block is a frame if and only if it has a data line; its data are the values of those lines joined by line feeds, its name the value of the last event line, and comments and other fields are nothing |
| SseBlocks.LinesAreTheText | apps/sonal-ui/src/lib/agentapi/sse.ts:8-13 | the lines of a block are the text between its line feeds |
| SseBlocks.UnterminatedIsRead | apps/sonal-ui/src/lib/agentapi/sse.ts:78-127 | a stream that breaks off before the blank line after its last event is read to that event, however it is cut |
| SseBlocks.BlankRestIsNothing | apps/sonal-ui/src/lib/agentapi/sse.ts:119-127 | a rest of blanks yields nothing |
| SseStream.SentTextIsReadIffCleanCuts | apps/sonal-ui/src/lib/agentapi/sse.ts:8-10 | the parser works on the normalised text that was sent if and only if no cut falls in a CR LF pair |
| SseStream.CrFreeCutsAreClean | apps/sonal-ui/src/lib/agentapi/sse.ts:8-10 | text without CR may be cut anywhere |
| SseStream.CutThroughCrLfMatters | apps/sonal-ui/src/lib/agentapi/sse.ts:8-10 | one such cut ends a frame early |
| SseStream.BlockIsItsFrame | apps/sonal-ui/src/lib/agentapi/sse.ts:12-35 | a written block parses to its event name and data |
| SseStream.WrittenFramesAreRead | apps/sonal-ui/src/lib/agentapi/sse.ts:54-72 | splitting the written text gives the written frames and leaves nothing |
| SseStream.WrittenIsRead | apps/sonal-ui/src/lib/agentapi/sse.ts:78-130 | whatever events are written, cut into any chunks, the client yields exactly those and does not throw, given that the JSON of those events is exact |
| SseStream.BrokenStreamYieldsPrefix | apps/sonal-ui/src/lib/agentapi/sse.ts:54-72 | a stream that breaks off anywhere has complete frames that are a prefix of those written |
| StreamReducer.ApplyToolCallParts | apps/sonal-ui/src/lib/agentapi/streamState.ts:75-106 | the loop over parts appends calls and answers earlier ones |
| StreamReducer.ToolStepsMeaning | apps/sonal-ui/src/lib/agentapi/streamState.ts:75-106 | after any parts the list is the earlier calls and then the new ones in order, each with the last answer that came after it |
| StreamReducer.ApplyIdleHistoryAgentEvent | apps/sonal-ui/src/lib/agentapi/streamState.ts:169-199 | one history event emits the scratch turn, a user row, both or neither |
| StreamReducer.HistoryConservesCalls | apps/sonal-ui/src/lib/agentapi/streamState.ts:147-199 | over any history the ids in emitted rows followed by those in the scratch turn are all calls in arrival order |
| StreamReducer.RowsAreAnswered | apps/sonal-ui/src/lib/agentapi/streamState.ts:147-199 | every emitted assistant row is non-empty and has all its calls answered |
| StreamReducer.TextIsExtendedOrFlushed | apps/sonal-ui/src/lib/agentapi/streamState.ts:108-199 | one history event either emits a turn whose text extends what there was and starts afresh, or extends the text |
| StreamReducer.TextGrows | apps/sonal-ui/src/lib/agentapi/streamState.ts:108-130 | no event shortens or rewrites the text |
| StreamTexts.EventAddsText | apps/sonal-ui/src/lib/agentapi/streamState.ts:52-130 | a complete event whose texts, joined in order, repeat or extend the non-empty text becomes the text; the joined texts of any other event are appended, parts that carry a call or result left out; an event of the user leaves the text alone |
| StreamTexts.ChunksAreJoined | apps/sonal-ui/src/lib/agentapi/streamState.ts:108-130 | after any run of chunks the text is the old text followed by all their texts in order |
| StreamTexts.StreamedAnswerIsShownOnce | apps/sonal-ui/src/lib/agentapi/streamState.ts:119-128 | an answer that comes in chunks and then as a whole is shown once, as the whole has it |
| StreamTexts.RowsOfEvent | apps/sonal-ui/src/lib/agentapi/streamState.ts:147-202 | a history event emits the turn with its text and calls if and only if it is from the user or completes the turn, the turn is not empty and no call waits; then comes a row with the joined texts of a non-empty user message; a turn not emitted goes on |
| StreamTexts.HistoryConservesTexts | apps/sonal-ui/src/lib/agentapi/streamState.ts:147-202 | over any history the user rows are the non-empty user messages in order, and the texts of the assistant rows followed by the text still waiting are all that was said, repetitions left out |
| StreamReducer.FinalCopyIsIgnored | apps/sonal-ui/src/lib/agentapi/streamState.ts:108-130 | a complete event that repeats its chunks adds nothing |
| AgentStream.ClientFoldsWhatWasWritten | apps/sonal-ui/src/lib/agentapi/streamState.ts:204-220 | folding what arrives, for any chunking, is folding what was written |
| AgentStream.ClientEndsIdle | apps/sonal-ui/src/lib/agentapi/streamState.ts:132-138 | after a stream the client is not busy, knows its session and shows the error that ended the stream, or a fixed text for an empty one |
| AgentStream.BrowserSeesTheRun | runtime/internal/background_runner.go:92-169 | in every schedule, the stream written for a served caller of Run, cut into any chunks, leaves the client in the fold of the session, every event the run yielded and its outcome |
| AgentStream.BrowserSeesHistoryAndRun | runtime/internal/background_runner.go:174-262 | in every schedule, a client that joins a run under way and stays has folded the counted history, the whole run and its outcome |
| AgentStream.CallsReachTheClient | runtime/internal/agentapi/stream_event_mapper.go:26-140 | every tool call of a run, in order and once each, is in the client state at the end, except those of events that report an error |
| StreamMapping.ErrorsAreMapped | runtime/internal/agentapi/stream_event_mapper.go:26-63 | an event becomes an error if and only if its error code or message is not blank: with the trimmed message, or else the trimmed code, and the trimmed code if there is one |
| StreamMapping.FieldsAreMapped | runtime/internal/agentapi/stream_event_mapper.go:58-140 | any other event keeps its non-empty names, its flags, its parts and its role if the client knows it |
| StreamMapping.PartsAreMapped | runtime/internal/agentapi/stream_event_mapper.go:92-140 | every part but an empty text is mapped, in order: texts, calls and results with their identifiers, names and values |
| StreamMapping.ChunksReachTheClient | apps/sonal-ui/src/lib/agentapi/streamState.ts:108-130 | what the agent says in a run of chunks, in order, is the text the client ends up with, however the run ended |
| StreamMapping.AnswerReachesTheClient | apps/sonal-ui/src/lib/agentapi/streamState.ts:108-130 | an answer that comes in chunks and then as a whole reaches the client once, as the whole has it |
| StreamMapping.ReaderKnowsStatus | runtime/internal/agentapi/sse.go:81-138 | the stream of a session read tells the client its session, whether a run is active, and the error that ended it, and leaves it idle |
| DirectoryTree.Service.BumpTreeUsed | tools/workspacefs/internal/workspacefs/tree.go:79-88 | adds one to the shared counter and fails beyond the budget |
| DirectoryTree.Service.BuildDirectoryTree | tools/workspacefs/internal/workspacefs/tree.go:90-140 | succeeds exactly when every opened directory can be read and the nodes fit; then returns the cut tree and has counted exactly its nodes |
| DirectoryTree.Service.BuildChild | tools/workspacefs/internal/workspacefs/tree.go:142-174 | the same for a child; at the depth limit a directory is only named |
| DirectoryTree.Service.DirectoryTree | tools/workspacefs/internal/workspacefs/tree.go:36-77 | the whole call, with the default depth and the hard cap |
| DirectoryTree.CutListsExactlyShortPaths | tools/workspacefs/internal/workspacefs/tree.go:90-174 | the cut tree lists exactly the paths of the file tree no longer than the depth, each as file or directory |
| DirectoryTree.CutIsInOrder | tools/workspacefs/internal/workspacefs/tree.go:128-130 | children are in order of their lower-cased names at every level |
| DirectoryTree.BeforeIsOrder | tools/workspacefs/internal/workspacefs/tree.go:128-130 | the order of names is a strict order of all strings |
| DirectoryTree.OpensMeans | tools/workspacefs/internal/workspacefs/tree.go:90-174 | the walk gets through every directory it opens if and only if none above the depth limit is unreadable; what lies at the limit is not opened |
| ExecJobs.LimitedBuffer.Write | tools/workspacefs/internal/workspacefs/exec.go:363-378 | keeps exactly the first bytes up to the limit and reports everything as written |
| ExecJobs.OverflowMeans | tools/workspacefs/internal/workspacefs/exec.go:363-378 | the truncated flag is raised if and only if more bytes were written than the limit or an empty write met a full buffer |
| ExecJobs.NonEmptyWritesMeanLoss | tools/workspacefs/internal/workspacefs/exec.go:363-378 | for non-empty writes the flag means exactly that bytes were lost |
| ExecJobs.TruncatedMeansLostIff | tools/workspacefs/internal/workspacefs/exec.go:363-378 | the flag tells whether bytes were lost if and only if some were lost or no empty write met a full buffer |
| ExecJobs.EmptyWriteRaisesFlag | tools/workspacefs/internal/workspacefs/exec.go:363-378 | two writes that fit and would still raise the flag |
| ExecJobs.JobsStayWithinLimits | tools/workspacefs/internal/workspacefs/exec.go:194-270 | in every run, running processes never exceed table entries, entries never exceed the limit, and no done channel is closed twice |
| ExecJobs.OutcomeIsFinal | tools/workspacefs/internal/workspacefs/exec.go:240-264 | once a job has finished its exit code and state never change |
| ExecJobs.RefusalIsForRunningJobsIff | tools/workspacefs/internal/workspacefs/exec.go:194-201 | in a reachable table a refused start means that as many jobs as the limit are running if and only if there is room or no listed job is over |
| ExecJobs.FullOfFinishedJobs | tools/workspacefs/internal/workspacefs/exec.go:194-264 | jobs run one after the other to their ends, as many as the limit, fill the table with no job running |
| ExecJobs.NewJobPossibleIff | tools/workspacefs/internal/workspacefs/exec.go:194-201 | finished jobs keep their place: a new job can ever get in again if and only if there is room or an entry whose process has not started |
| ExecJobs.FullStaysFull | tools/workspacefs/internal/workspacefs/exec.go:194-201 | a table full of started jobs stays so for ever |
| JobServiceObject.JobService.Register | tools/workspacefs/internal/workspacefs/exec.go:194-229 | the locked part of a start refuses exactly when the table is full, and otherwise adds one fresh running job |
| JobServiceObject.JobService.StartBackgroundJob | tools/workspacefs/internal/workspacefs/exec.go:194-270 | a whole start is the named steps of the protocol; refused or failed it leaves the table as it was |
| JobServiceObject.JobService.Abandon | tools/workspacefs/internal/workspacefs/exec.go:231-238 | a process that does not start is dropped and its done channel closed |
| JobServiceObject.JobService.FinishJob | tools/workspacefs/internal/workspacefs/exec.go:242-264 | a finished process sets its state and its exit code: the own code, -1 for another error, zero otherwise |
| JobServiceObject.JobService.ExecJobOutput | tools/workspacefs/internal/workspacefs/exec.go:273-300 | the output of a listed job, and of no other; a finished job is not running |
| JobServiceObject.JobService.ExecKillJob | tools/workspacefs/internal/workspacefs/exec.go:303-327 | a kill reaches exactly a listed job that is not over, and returns when the life of that job has ended and its done channel is closed; otherwise nothing changes |
| JobServiceObject.JobService.Close | tools/workspacefs/internal/workspacefs/service.go:148-163 | empties the table and returns when every job that was in it, started or not, has reached its end; jobs already finished keep their exit code |
| JobServiceObject.RestOfMeans | tools/workspacefs/internal/workspacefs/exec.go:231-264 | a job ends once: with its own exit code, -1 or zero if its process ran, as it was if it was over, and without a code if its process never started |
| AcpClient.AcceptedIffTranscript | runtime/internal/acpstdio/opencode_acp_client.go:222-316 | the exchange succeeds if and only if all requests can be written and the messages begin with notifications and a good answer 1 that is an object, notifications and a good answer 2 with a non-blank session id, and notifications whose session updates are well formed and a good answer 3, with no cancellation or broken line before it |
| AcpClient.TranscriptIsAccepted | runtime/internal/acpstdio/opencode_acp_client.go:222-316 | on such messages the session id, the prompt result, the updates of the third phase in wire order and the three requests written are what they must be |
| AcpContents.ExchangeCarries | runtime/internal/acpstdio/opencode_acp_client.go:222-316 | on such messages the launch has the trimmed session id of the second answer and the result of the third; as many updates as session updates were notified between them, each with the trimmed session id and type and the payload of its notification, in order; and the three requests written have the protocol version, the directory and servers, and the prompt in that session |
| AcpContents.AwaitFailsAt | runtime/internal/acpstdio/opencode_acp_client.go:351-395 | a call ends at the first message that is neither a notification it can take nor its answer, because of that message, and otherwise at the end of input |
| AcpContents.UpdateFault | runtime/internal/acpstdio/opencode_acp_client.go:482-518 | an update that is not well formed is refused for the first thing missing |
| AcpContents.BlankLinesAreSkipped | runtime/internal/acpstdio/opencode_acp_client.go:426-452 | a blank line anywhere makes no difference to the messages read |
| AcpContents.OtherLinesAreMessages | runtime/internal/acpstdio/opencode_acp_client.go:426-452 | lines that are not blank are read each as it is, in order |
| AcpContents.IdsTellRequestsApart | runtime/internal/acpstdio/opencode_acp_client.go:454-466 | no id counts as the number of two different requests |
| AcpContents.DecimalIsItsNumber | runtime/internal/acpstdio/opencode_acp_client.go:454-466 | the text of a number is its decimal digits |
| AcpClient.AwaitTakes | runtime/internal/acpstdio/opencode_acp_client.go:351-395 | a call returns the answer wherever it stands behind notifications, with the updates before it, and leaves what follows |
| AcpClient.AwaitFinds | runtime/internal/acpstdio/opencode_acp_client.go:351-395 | a call that succeeds has found its answer behind notifications it could take |
| AcpClient.WrittenIsAPrefix | runtime/internal/acpstdio/opencode_acp_client.go:222-316 | a prefix of the three requests is written; a failed exchange fails at the last one written, or at the next if that could not be written |
| AcpClient.IdMatchesIff | runtime/internal/acpstdio/opencode_acp_client.go:454-466 | an id counts as the number of a request if and only if it is that integer or its decimal text as a string |
| AcpClient.ParsesIff | runtime/internal/acpstdio/opencode_acp_client.go:482-518 | an update parses if and only if it has a non-blank session id and an object payload with a non-blank type |
| AcpClient.ExtractsIff | runtime/internal/acpstdio/opencode_acp_client.go:468-480 | a session id is extracted if and only if the result is an object with a non-blank one |
| AcpClient.WireClient.ReadEnvelope | runtime/internal/acpstdio/opencode_acp_client.go:426-452 | skips blank lines and takes one message, or reports the end, a cancellation, a broken pipe or an undecodable line |
| AcpClient.WireClient.WriteRequest | runtime/internal/acpstdio/opencode_acp_client.go:397-424 | writes a request unless the context is done or the pipe is broken |
| AcpClient.WireClient.Call | runtime/internal/acpstdio/opencode_acp_client.go:351-395 | writes one request with the next id and reads until it is answered, as the specification of a call says; a request that cannot be written ends the call |
| AcpClient.WireClient.Initialize | runtime/internal/acpstdio/opencode_acp_client.go:250-263 | request 1, whose answer must be an object |
| AcpClient.WireClient.CreateSession | runtime/internal/acpstdio/opencode_acp_client.go:265-284 | request 2, whose answer must carry a session id |
| AcpClient.WireClient.PromptSession | runtime/internal/acpstdio/opencode_acp_client.go:286-316 | request 3 with the session id and the prompt, collecting updates |
| AcpClient.WireClient.Execute | runtime/internal/acpstdio/opencode_acp_client.go:222-248 | the whole exchange, result and requests written, is the one the two transcript lemmas are about |
| AcpCommand.NormalizeLaunchCommand | runtime/internal/acpstdio/opencode_acp_client.go:520-554 | accepts exactly the launchable commands; trims the slice of the caller in place, on an error only up to the argument at fault |
| AcpCommand.HasDuplicates | runtime/internal/acpstdio/opencode_acp_client.go:567-576 | tells whether some value repeats an earlier one |
| AcpCommand.StoredCommandLaunches | runtime/internal/acpstdio/opencode_acp_client.go:520-554 | a command a profile stores passes the launch check and is launched as stored |
| AcpCommand.LaunchCheckIsWeaker | runtime/internal/acpstdio/opencode_acp_client.go:520-554 | the launch check accepts a control character that profiles refuse |
| AgentProfiles.NormalizeToolRefs | runtime/internal/agentprofiles/agent_profiles.go:245-263 | trims, rejects blanks and keeps the first of each reference |
| AgentProfiles.FirstOccurrencesMeaning | runtime/internal/agentprofiles/agent_profiles.go:250-260 | what is kept is the same references, each once, and everything if none repeats |
| AgentProfiles.NormalizeAgentCommand | runtime/internal/agentprofiles/agent_profiles.go:265-299 | trims the command and its arguments or reports the first fault |
| AgentProfiles.ArgsFaultIff | runtime/internal/agentprofiles/agent_profiles.go:276-295 | arguments pass if and only if none is empty or holds a control character and all differ |
| AgentProfiles.NormalizeExecutionSettings | runtime/internal/agentprofiles/agent_profiles.go:206-243 | the settings each mode allows, trimmed, or the first fault |
| AgentProfiles.NormalizeCreateParams | runtime/internal/agentprofiles/agent_profiles.go:132-164 | the whole normaliser with its order of faults |
| AgentProfiles.NormalIffFixed | runtime/internal/agentprofiles/agent_profiles.go:132-164 | normalising leaves a profile alone if and only if it is normal, said without normalising |
| AgentProfiles.NormalizedIsTrimmed | runtime/internal/agentprofiles/agent_profiles.go:132-164 | a profile is accepted if and only if trimming its texts and keeping each tool once makes it normal, and then becomes that |
| AgentProfiles.FaultsInOrder | runtime/internal/agentprofiles/agent_profiles.go:132-243 | a refused profile is refused for its first fault, in the order name, tools, execution, role, instructions |
| AgentProfiles.ArgsFaultIsFirst | runtime/internal/agentprofiles/agent_profiles.go:276-295 | the fault of the arguments is that of the first bad one: empty, or with control characters, or a repetition |
| AgentProfiles.NormalizedIsNormal | runtime/internal/agentprofiles/agent_profiles.go:132-164 | whatever is accepted becomes normal |
| AgentProfiles.NormalizeIsIdempotent | runtime/internal/agentprofiles/agent_profiles.go:132-164 | normalising twice is normalising once |
| AgentProfiles.UpdateIsRecreation | runtime/internal/agentprofiles/agent_profiles.go:166-190 | an update keeps the name and accepts, refuses and yields what creating the profile under that name would |
| ProfileMarkdown.WriteProfileFile | runtime/internal/agentprofiles/file_agent_profiles_service.go:356-411 | the buffer written step by step is front matter, delimiters and instructions |
| ProfileMarkdown.FrontmatterHas | runtime/internal/agentprofiles/file_agent_profiles_service.go:356-411 | the front matter written of a normal profile: in regular mode the model, in a block with the mode only if that is named, and otherwise a block with mode, command and directory |
| ProfileMarkdown.MatchesWhatWasWritten | runtime/internal/agentprofiles/file_agent_profiles_service.go:30-32 | the pattern finds exactly the two parts written, whatever is in the body |
| ProfileMarkdown.ReadAfterWrite | runtime/internal/agentprofiles/file_agent_profiles_service.go:267-354 | reading a written normal profile gives it back but for a blank command in regular mode |
| ProfileMarkdown.MatchIsDelimited | runtime/internal/agentprofiles/file_agent_profiles_service.go:30-32 | whatever the text, the two parts matched are front matter between the delimiter lines, closed at the first place where it can be, and the body |
| ProfileMarkdown.MatchesIff | runtime/internal/agentprofiles/file_agent_profiles_service.go:30-32 | the pattern matches a text if and only if it has an opening delimiter line and after it a closing delimiter at the start of a line; the front matter ends at the first such place |
| ProfileMarkdown.ReadFaults | runtime/internal/agentprofiles/file_agent_profiles_service.go:267-354 | a file is refused for the first of its faults in the order name, role, model, instructions, file name; without one it is read exactly when the profile it describes is normal when trimmed, and as that |
| ProfileMarkdown.RoundTripIff | runtime/internal/agentprofiles/file_agent_profiles_service.go:267-411 | a normal profile survives writing and reading if and only if its command is empty in regular mode |
| ProfileMarkdown.BlankCommandIsLost | runtime/internal/agentprofiles/file_agent_profiles_service.go:267-411 | a profile that can be created and is not what is read back |
| ProviderFiles.StoreIsAMap | runtime/internal/llmproviders/file_providers_config_service.go:50-264 | started with at most one file a name the store keeps that, and over any run answers as a map from names to configurations |
| ProviderFiles.StepIsMapStepIff | runtime/internal/llmproviders/file_providers_config_service.go:134-264 | an operation is the same on the map if and only if it is not the deletion of a name with both files |
| ProviderFiles.StepKeepsOneFileEach | runtime/internal/llmproviders/file_providers_config_service.go:151-264 | no operation makes a second file for a name |
| ProviderFiles.DeleteCanResurface | runtime/internal/llmproviders/file_providers_config_service.go:247-264 | with both files a deleted provider comes back as the older file has it |
| ProviderFiles.CreatedIsRead | runtime/internal/llmproviders/file_providers_config_service.go:151-201 | a created provider is read back with every field it was created with, and both times now |
| ProviderFiles.UpdatedIsRead | runtime/internal/llmproviders/file_providers_config_service.go:203-245 | an update is read back with every field that can change; an empty key keeps the old one, and name, type and creation time stay; the older file goes only if it stood for the name |
| ProviderFiles.FailsIff | runtime/internal/llmproviders/file_providers_config_service.go:134-264 | an operation fails for a bad name, then another type, then a file of either kind that is there or is missing, then a file that cannot be read, and then changes nothing |
| ProviderFiles.IdentityOverRuns | runtime/internal/llmproviders/file_providers_config_service.go:203-245 | over any run that does not delete it, a provider keeps creation time, name, type and the last API key given |
| ProviderFiles.StemMeans | runtime/internal/llmproviders/file_providers_config_service.go:301-310 | a file name has a stem exactly when it is the stem with one of the two extensions |
| ProviderStore.FileProvidersConfigService.GetConfig | runtime/internal/llmproviders/file_providers_config_service.go:134-149 | the configuration of the file that stands for the name, .yaml before .yml |
| ProviderStore.FileProvidersConfigService.CreateConfig | runtime/internal/llmproviders/file_providers_config_service.go:151-201 | refuses a bad name, another type or either file, and otherwise writes the .yaml file |
| ProviderStore.FileProvidersConfigService.UpdateConfig | runtime/internal/llmproviders/file_providers_config_service.go:203-245 | writes the changed configuration to the .yaml file and removes the .yml file it came from |
| ProviderStore.FileProvidersConfigService.DeleteConfig | runtime/internal/llmproviders/file_providers_config_service.go:247-264 | removes the file that stands for the name |
| ProviderStore.FileProvidersConfigService.List | runtime/internal/llmproviders/file_providers_config_service.go:71-132 | every name once, each as a lookup gives it, oldest first; fails exactly when a file that a lookup would read is broken |
| ProviderStore.FileProvidersConfigService.Stems | runtime/internal/llmproviders/file_providers_config_service.go:86-104 | the stems of the directory by extension |
| ProviderStore.FileProvidersConfigService.PathsOf | runtime/internal/llmproviders/file_providers_config_service.go:106-116 | one path a name, .yaml before .yml |

## Left out

- Deadlock freedom of the bus: Publish sends with the lock held, which Unsubscribe needs, so a full channel whose reader leaves blocks both; a send to a full channel is a step that cannot be taken.
- RunnerSafety.SpliceIsExactIffCountWas: speaks of a history read that did not fail; `RunnerHistory.ReadIsCutIffItFails` says what a failed one has, which the source passes over in silence.
- MetadataSync.SyncKeepsInStep: assumes that no metadata call fails, since the wrapper only logs such failures, and leaves application `_user` out.
- MetadataSync.IdentityOverRuns: takes calls one at a time; `MetadataTitles` is about those that overlap.
- MetadataTitles.KeptIfUndisturbed: takes finding a record as one step, so a search over several pages among deletions (`MetadataTitles.DeletionHidesRecord`) is left out.
- JobServiceObject.JobService.Close: does not model a start that comes after it, which would insert into a nil map.
- SseStream.ChunksDoNotMatter: leaves out cuts through a CR LF pair, where it can fail.
- ProviderStore.SortByCreatedAt: providers created at the same time come in one fixed order, where the library's sort may choose any.
- FileSessionService.List and the pruning of empty directories: a directory scan; the index file `_sessions_index` lies beside session files, so a session of that name is assumed not to exist.
- Failing file and network calls other than those named above, the temporary files of atomic writes, and part of a request written before a pipe broke.
- Trimming an event's temporary state changes the caller's event object; events are values here.
- UTF-8 decoding of chunks, and the signal that aborts reading.
- Timestamps of profile files, which come from the file system.
- The database and in-memory session services, language-model calls, and the JSON, YAML and regular-expression engines: library code. The one pattern with structure is modelled by hand.
- The rest of the ACP launch: starting and killing the subprocess, and the checks of prompt and directory.
- Foreground commands, the command deny list and path checks of the workspace tools: only easy claims.
- Authentication, routing, middleware, generated handlers, telemetry, configuration and the user interface.
