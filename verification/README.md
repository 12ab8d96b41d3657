# A verified model of the Flink SQL Gateway client

The Go client talks to a Flink SQL Gateway: it opens sessions, configures them from declarative plans, submits
statements, follows result pages, keeps sessions alive with heartbeats and turns changelog rows into a table. This
project models the parts of it that carry state or a protocol and proves what they promise, for all inputs, all
server behaviours and all interleavings.

## How the parts are modelled

- **Changelog materializer** (`RowKey`, `ChangelogTable`, `Materializer`). `ChangelogTable` is the plain
  insertion-ordered table with half-finished updates. The class `Materializer` has the fields of the Go type (row
  map, order list with tombstones, order index, pending set) and its methods are proved to move the plain table,
  through tombstones and compaction; a refused call changes no field. Two ghost counters carry the account of
  compaction work.
- **Session protocols** (`SetupGate`, `ActivityGroup`, `SessionWrapper`, `VersionCheck`, `Heartbeat`). Each section
  under a mutex and each channel operation is one step of a state machine over any number of threads; a cancelled
  context is a step that may happen at any time. Results hold in every state that any run reaches.
  `SessionWrapper` covers the serialized session (with the one-token gate) and the managed session without a
  serializer (without it) as one machine with a flag; `SerializedManaged` puts one inside the other, which is a
  managed session with a serializer. Objects that only one mutex guards (`Activity`, `SessionBook`) are classes.
- **The client's own Close** (`ClientLifecycle`). Streams opened directly on the client, any number of calls that
  finish one of them, and the client's Close, again as a state machine.
- **Closed sessions** (`ClosedSessions`). The cache of closed handles against a pure first-in first-out list.
- **Result paging** (`ResultPaging`, `PageConversation`, `ResultStream`). The server is a function of all requests made
  so far, and the caller's context may end wherever it is looked at. The collecting loop and the iterator class are
  proved against two recursive functions; what both promise is proved for every server and context, and the two are
  compared. `PageConversation` says which conversations they have at all, request by request.
- **Session setup** (`SetupStatements`, `SetupCompile`, `PlanRules`, `SetupRun`). A printer of statements with an
  independent reader; the compiler from plans to numbered statements; the acceptance of plans in terms of their texts;
  the runner with its result flags, and what those flags say about statements that a server may have executed. `Lists`
  holds lemmas on lists of declarations, `ByteOrder` the proof that sorting by code points is sorting by UTF-8 bytes.
- **Two text automata** (`VersionSuffix`, `ErrorMessage`): the scanner of version suffixes against its language
  (items 9 and 10 of Semantic Versioning 2.0.0, lower-cased and with leading zeros), and the cut of an error message
  that keeps UTF-8 valid (sections 3 and 4 of RFC 3629).

`Text` and `Counting` hold shared helpers. Library functions the client calls are parameters of the model
(`bytes.TrimSpace`, `json.Valid` and canonical JSON in `RowKey.Schema`, trimming and validation of URIs and the field
check in `ResultPaging.World`, upper-casing and the check of sensitive keys in `SetupCompile.Library`), so results hold
whatever they compute.

## Assumptions

- `SetupRun.PersistenceIsRight`, and what follows from it about a server, rest on one assumption about the server: it
  executes nothing of a request of which no byte was written, and nothing it answered with a status from 1 to 199 or
  from 300 to 499 other than 408 and 429.
- The two ways of paging are compared (`StreamEqualsCollect`, `GoodUrisMeanEqual`) on conversations that the caller's
  context outlives; what each promises by itself is proved without that.
- A refusal by `resolveCompatibility` after both its requests succeeded holds no context error
  (`flinksqlgateway/compatibility.go:260-309`, as `VersionCheck.AnswerOf` reads it).
- Guarantees of the session wrappers are about work begun through the wrapper.

## What turned out not to hold

- The iterator and the collecting loop do not always deliver the same rows: a PAYLOAD page with rows and an
  unusable `nextResultUri` gives its rows to the loop and not to the iterator, which looks at the URI first.
  `ResultPaging.SeparatingServer` is such a server; `ResultPaging.StreamEqualsCollect` shows that it is the only way
  for them to differ, in both directions, and `ResultPaging.GoodUrisMeanEqual` gives the condition on the server.
- The release notes promise DEGRADED at the threshold of failures and HEALTHY after a success
  (`docs/releases/v0.1.2.md:37`). A session can stay DEGRADED although it has succeeded since, because publishing an
  event throws an older one out of the one-slot channel. `Heartbeat.RecoveryCanBeMissed` is such a run.
  `Heartbeat.DegradedAsPromised` says when the promise holds: at rest, if and only if it is not so that the latest
  alarm taken was followed by successes and every one of them was thrown out. `Heartbeat.NoSuccessDropped` is the
  case of runs in which no publish throws out a success, and `Heartbeat.HealthIsTheVerdict` what health is in any
  case: DEGRADED exactly when an alarm was taken and no success after it.
- `validateVersionSuffix` on its own also accepts a suffix without a leading sign, `1a` for one
  (`VersionSuffix.SignIsNotRequired`). Its one caller always passes one that starts with `-` or `+`;
  `VersionSuffix.SuffixLanguage` describes both cases.
- On a completed setup run `PersistentChangesMayRemain` is false although CREATE statements were applied, as in
  `SetupRun.CompletedRun`: the flag is only computed on failure. `SetupRun.PersistenceIsRight` states it that way.

## Model

| member | source | states |
|---|---|---|
| RowKey.KeyValues | flinksqlgateway/changelog/materializer.go:273-294 | a row has key values exactly when every primary-key column has a usable one, and then they are those, in order |
| RowKey.RowKeyText | flinksqlgateway/changelog/materializer.go:273-294 | the loop builds the length-prefixed text of all key values, or fails if any column has none |
| RowKey.DigitsRoundTrip | flinksqlgateway/changelog/materializer.go:288-291 | a printed length reads back as the number it was |
| RowKey.PrefixSplits | flinksqlgateway/changelog/materializer.go:288-291 | texts that start with a length prefix and agree have the same length and the same rest |
| RowKey.EncodeInjective | flinksqlgateway/changelog/materializer.go:273-294 | two lists of key values of any lengths have the same key text exactly when they are equal |
| RowKey.KeyIdentifiesRow | flinksqlgateway/changelog/materializer.go:273-294 | two rows have the same key exactly when all canonical key values agree, and a key is never the empty tombstone |
| RowKey.KeyFromFields | flinksqlgateway/changelog/materializer.go:273-294 | a row has a key exactly when every key column's own field is there, not blank, valid JSON, not NULL and has a canonical form |
| RowKey.SameKeyFromFields | flinksqlgateway/changelog/materializer.go:273-294 | two rows with keys share one exactly when the fields of all key columns agree in canonical form |
| ChangelogTable.ApplyUpdateIsBothHalves | flinksqlgateway/changelog/materializer.go:207-237 | ApplyUpdate succeeds exactly when both single events would, and reaches the state they reach |
| ChangelogTable.HalfUpdateInvisible | flinksqlgateway/changelog/materializer.go:166-177 | UPDATE_BEFORE and rollback leave the visible rows alone, and rollback undoes a first half |
| ChangelogTable.ApplyKeepsTableOk | flinksqlgateway/changelog/materializer.go:143-204 | an accepted event keeps keys distinct, rows under their own key, pending keys present and the row limit |
| ChangelogTable.RunKeepsTableOk | flinksqlgateway/changelog/materializer.go:143-245 | the same over any sequence of calls |
| ChangelogTable.EventMovesPhase | flinksqlgateway/changelog/materializer.go:143-204 | an accepted event moves its own key along one edge of absent, present and pending, and no other key |
| ChangelogTable.LifeOfAKey | flinksqlgateway/changelog/materializer.go:143-245 | what a run accepts about one key is a prefix of (INSERT (UPDATE_BEFORE (UPDATE_AFTER or rollback))* DELETE)* |
| ChangelogTable.TableTellsHistory | flinksqlgateway/changelog/materializer.go:143-322 | after any calls the rows are exactly those last inserted or updated and not deleted since, ordered by their inserts |
| ChangelogTable.WhyRefused | flinksqlgateway/changelog/materializer.go:143-204 | an event is accepted, or refused for the reason its key's life gives, and a first half exactly if it does not repeat the stored fields |
| Materializer.CheckPrimaryKey | flinksqlgateway/changelog/materializer.go:47-64 | accepts exactly a non-empty list of distinct names that are not blank |
| Materializer.Configure | flinksqlgateway/changelog/materializer.go:104-112 | fails exactly on a bad option; otherwise a later option of a kind replaces an earlier one |
| Materializer.LastSettingCounts | flinksqlgateway/changelog/materializer.go:104-112 | of the options of one kind the last counts, wherever it stands, and without one the default does |
| Materializer.NewMaterializer | flinksqlgateway/changelog/materializer.go:103-140 | accepted exactly if every option is good and a primary key and columns are given, the key among the columns; then an empty table with the options of last effect |
| Materializer.Materializer.Apply | flinksqlgateway/changelog/materializer.go:143-204 | moves the plain table as specified or answers its error with every field unchanged; one more delete on the account when one is accepted |
| Materializer.Materializer.ApplyInsert | flinksqlgateway/changelog/materializer.go:154-164 | INSERT appends at the end of the order or is refused as duplicate or over the limit |
| Materializer.Materializer.ApplyBefore | flinksqlgateway/changelog/materializer.go:166-177 | UPDATE_BEFORE marks a present row with the same fields as pending |
| Materializer.Materializer.ApplyAfter | flinksqlgateway/changelog/materializer.go:179-188 | UPDATE_AFTER replaces a pending row in its place |
| Materializer.Materializer.ApplyDelete | flinksqlgateway/changelog/materializer.go:190-199 | DELETE removes a present row that is not pending |
| Materializer.Materializer.ApplyUpdate | flinksqlgateway/changelog/materializer.go:207-237 | both halves at once against the plain table, or an error and no change |
| Materializer.Materializer.RollbackPending | flinksqlgateway/changelog/materializer.go:239-245 | drops all pending halves, answers how many there were |
| Materializer.Materializer.Snapshot | flinksqlgateway/changelog/materializer.go:256-270 | exactly the rows of the plain table in its order |
| Materializer.Materializer.SameFields | flinksqlgateway/changelog/materializer.go:346-356 | field-by-field equality after trimming |
| Materializer.Materializer.RemoveOrder | flinksqlgateway/changelog/materializer.go:297-308 | the place becomes a tombstone; tombstones stay at most 1024 or outnumbered by rows; the account of visits is kept |
| Materializer.Materializer.CompactOrder | flinksqlgateway/changelog/materializer.go:311-322 | same listed rows, no tombstones, index rebuilt, one visit for each old place |
| Materializer.OrderIsBounded | flinksqlgateway/changelog/materializer.go:297-308 | the order list is at most max(2 * maxRows, maxRows + 1024) long |
| Materializer.CompactedIsStored | flinksqlgateway/changelog/materializer.go:311-322 | dropping the tombstones keeps map, order and index in agreement and lists the same rows |
| Materializer.StoredDelete | flinksqlgateway/changelog/materializer.go:190-199 | blanking a row's place is removing it from the plain table |
| Materializer.SnapshotAfter | flinksqlgateway/changelog/materializer.go:143-322 | after any sequence of calls the snapshot is the plain table's, the order list is within its bound, and all compactions together visited at most two places for each accepted delete |
| SetupGate.StepKeepsInv | flinksqlgateway/session_setup.go:485-538 | every step keeps references, tokens and the map of gates in account |
| SetupGate.MutualExclusion | flinksqlgateway/session_setup.go:485-538 | in every reachable state at most one thread holds the gate of a handle |
| SetupGate.OneGatePerHandle | flinksqlgateway/session_setup.go:489-504 | contenders share a gate object exactly when they contend for the same handle |
| SetupGate.GateAccounts | flinksqlgateway/session_setup.go:485-538 | references equal the threads using the gate, token plus holders is one, and a gate is in the map exactly while it has references |
| SetupGate.PutNeverBlocks | flinksqlgateway/session_setup.go:515-528 | handing the token back always finds room |
| SetupGate.TokenIsNotLost | flinksqlgateway/session_setup.go:506-528 | a waiter may take the token whenever nobody has it, after any cancellations |
| SetupGate.GatesAreReclaimed | flinksqlgateway/session_setup.go:531-538 | when every thread has left, no gate is kept |
| SetupGate.NobodyEntersAfterClose | flinksqlgateway/session_setup.go:489-493 | once the client has been closed no configuration flow enters a gate |
| SetupGate.NobodyIsStuck | flinksqlgateway/session_setup.go:485-538 | every thread has its next step before it, or waits for the token and the one that has it does |
| ActivityGroup.GroupStaysOk | flinksqlgateway/activity.go:30-84 | the idle channel is closed exactly while nothing is active, after every operation |
| ActivityGroup.EndUndoesBegin | flinksqlgateway/activity.go:30-55 | begin and end restore the group, on a new idle channel if it was idle |
| ActivityGroup.ListedByLastCall | flinksqlgateway/activity.go:57-72 | a stream is listed exactly if the last call about it registered it |
| ActivityGroup.ClosedForGood | flinksqlgateway/activity.go:30-97 | once closed, nothing begins or is added by any calls, and the idle channel a waiter took is closed exactly when nothing is active |
| ActivityGroup.StopBetween | flinksqlgateway/activity.go:57-84 | on the object, whatever is called around it, a stop answers exactly the streams registered by then, and listed later are exactly those of them not unregistered since |
| ActivityGroup.Activity.BeginActivity | flinksqlgateway/activity.go:30-42 | refused once closed; otherwise one more active, a new idle channel when it was the first |
| ActivityGroup.Activity.EndActivity | flinksqlgateway/activity.go:44-55 | one less active, the idle channel closed when it was the last |
| ActivityGroup.Activity.RegisterStream | flinksqlgateway/activity.go:57-66 | refused once closed |
| ActivityGroup.Activity.UnregisterStream | flinksqlgateway/activity.go:68-72 | the stream is no longer listed, and nothing else changes |
| ActivityGroup.Activity.StopActivity | flinksqlgateway/activity.go:75-84 | closes the group and answers exactly the registered streams |
| SessionWrapper.StepKeepsInv | flinksqlgateway/serialized_session.go:54-94 | every step of executions, streams and closers keeps the whole invariant |
| SessionWrapper.DeleteOnlyWhenQuiet | flinksqlgateway/serialized_session.go:54-94 | whoever may send the DELETE finds the wrapper stopped and nothing begun through it active |
| SessionWrapper.QuietIsForGood | flinksqlgateway/managed_session.go:258-283 | from then on no execution or stream begins |
| SessionWrapper.OneCloseInFlight | flinksqlgateway/serialized_session.go:66-94 | at most one close owns the DELETE at a time |
| SessionWrapper.SucceededIsFinal | flinksqlgateway/managed_session.go:285-324 | after a successful DELETE none is sent again and none succeeds again, in any continuation |
| SessionWrapper.NoSendAfterSuccess | flinksqlgateway/managed_session.go:285-319 | in any run, after an event in which a close is answered with success no event sends a DELETE and later closers go home |
| SessionWrapper.WhatACloserIsTold | flinksqlgateway/serialized_session.go:66-82 | a closer past the wait goes home exactly if a close has succeeded in the run, joins exactly if another owns one in flight, and otherwise owns it |
| SessionWrapper.FailedCloseCanBeRetried | flinksqlgateway/serialized_session.go:66-94 | after a failed close the next closer may send again |
| SessionWrapper.GateReleaseNeverBlocks | flinksqlgateway/serialized_session.go:194-213 | giving the gate's token back never blocks and nobody else has it |
| SessionWrapper.EffectsExactlyOnce | flinksqlgateway/serialized_session.go:267-296 | however finishes race, a job's activity end and gate release happen exactly once by the time it is gone |
| SessionWrapper.NoStreamEscapes | flinksqlgateway/serialized_session.go:141-177 | after a stop every created stream is finishing, or in the stopper's snapshot, or refused registration and left to its creator to close |
| SessionWrapper.NoDeadlock | flinksqlgateway/serialized_session.go:54-229 | while a job is not gone or a closer is not back, someone can go on without anyone being cancelled |
| SerializedManaged.StepKeepsInv | flinksqlgateway/managed_session.go:144-199 | every step of either layer keeps both layers' invariants and an inner job within its outer one |
| SerializedManaged.LayersAreWrappers | flinksqlgateway/managed_session.go:144-199 | each layer of a managed session with a serializer runs as a session wrapper, so all results on wrappers hold of both |
| SerializedManaged.InnerIsIdleWithOuter | flinksqlgateway/managed_session.go:276-283 | whenever the managed session is idle its serializer is, with the gate's token in place |
| SerializedManaged.DeleteOnlyWhenAllQuiet | flinksqlgateway/managed_session.go:258-311 | the DELETE is sent only when both layers are closed and nothing begun through either runs, and only by the managed session |
| SerializedManaged.AllQuietIsForGood | flinksqlgateway/managed_session.go:258-283 | from then on nothing begins in either layer |
| SerializedManaged.NoDeleteAfterSuccess | flinksqlgateway/managed_session.go:285-324 | after a successful DELETE neither layer sends one, in any continuation |
| SerializedManaged.NoSendAfterSuccess | flinksqlgateway/managed_session.go:285-319 | in any run, after the managed session's close is answered with success neither layer sends a DELETE and later closers go home |
| SerializedManaged.NoDeadlock | flinksqlgateway/managed_session.go:144-283 | the managed session and its serializer never wait for each other: someone can go on without anyone being cancelled |
| ClientLifecycle.StepKeepsInv | flinksqlgateway/lifecycle.go:39-136 | every step keeps the account of registered streams, finishing calls and closed operations, and after Close registration only shrinks |
| ClientLifecycle.OperationClosedOnce | flinksqlgateway/result_stream.go:276-322 | however readers, creators and Close race, no operation is closed twice, and one whose stream is done with is closed |
| ClientLifecycle.OneCleansUp | flinksqlgateway/result_stream.go:276-322 | of all calls that finish one stream at most one is inside its once |
| ClientLifecycle.FinishersReturnAfterCleanup | flinksqlgateway/result_stream.go:258-273 | every finishing call returns only when the operation is closed and the stream unregistered |
| ClientLifecycle.NoFinisherIsStuck | flinksqlgateway/result_stream.go:258-322 | a waiting call can return, or another one is inside the once with its next step before it |
| ClientLifecycle.SnapshotMissesNothing | flinksqlgateway/lifecycle.go:43-60 | a stream registered when Close began is in its snapshot until its cleanup is over, and Close waits for it |
| ClientLifecycle.CloseLeavesNoStream | flinksqlgateway/lifecycle.go:39-128 | after Close, in any continuation, no stream is registered and every opened operation is closed or left to its creator, whom registration refuses |
| ClientLifecycle.NothingSubmittedAfterClose | flinksqlgateway/lifecycle.go:24-36 | once Close has begun no statement is submitted |
| ClientLifecycle.CloseGoesOn | flinksqlgateway/lifecycle.go:39-100 | a Close that has begun can go on, or the finisher it waits for can |
| VersionCheck.StepKeepsInv | flinksqlgateway/client.go:169-223 | every step keeps the account of the call in flight, the cache and what each thread may return |
| VersionCheck.OneDetection | flinksqlgateway/client.go:181-223 | at most one thread is between starting a detection and publishing it |
| VersionCheck.CacheIsFinal | flinksqlgateway/client.go:169-223 | the cached outcome is written at most once, never changes, and is never a context error or a failed detection, as follows from how detection answers |
| VersionCheck.WhatIsReturned | flinksqlgateway/client.go:181-223 | a caller gets its own cancellation, the cached outcome, what its own detection came to, or what another caller's came to if that is not the end of that other's context |
| VersionCheck.FinalAnswersAgree | flinksqlgateway/client.go:169-223 | all callers who were told something final were told the same |
| VersionCheck.DetectionDecides | flinksqlgateway/client.go:199-223 | a finished detection tells what it found: success exactly of a selection, the reason of a refusal, the failure of a request; and if the server answered that is cached |
| VersionCheck.CacheIsAnAnswer | flinksqlgateway/client.go:199-223 | unless configuration alone decides, only what a server answered is ever cached |
| VersionCheck.LeadersContextIsNotInherited | flinksqlgateway/client.go:181-223 | once a leader finds the end of its own context to be why its detection failed, every waiter of that call starts over |
| VersionCheck.WaitersInheritTheRest | flinksqlgateway/client.go:181-198 | a woken waiter starts over for no other reason, and otherwise returns the leader's answer |
| VersionCheck.NoWaiterIsStuck | flinksqlgateway/client.go:181-223 | a waiter's call is finished, or its leader has its next step before it |
| ClosedSessions.AfterIsBounded | flinksqlgateway/session.go:273-301 | after any history the list has no repeats and at most 1024 handles |
| ClosedSessions.ClosedStaysRemembered | flinksqlgateway/session.go:273-301 | a closed handle stays remembered until it is reissued or 1024 others are closed |
| ClosedSessions.ClosedIsPushedOut | flinksqlgateway/session.go:273-285 | 1024 newly closed handles push out exactly what was there before |
| ClosedSessions.Replay | flinksqlgateway/session.go:227-301 | after any calls on a new book the remembered handles are those of the first-in first-out list, and after one caller was told to send the DELETE for a handle no other is until the first has finished |
| ClosedSessions.SessionBook.RecordOpened | flinksqlgateway/session.go:83-86 | an opened handle is no longer remembered as closed, and no handle is both |
| ClosedSessions.SessionBook.CloseBegin | flinksqlgateway/session.go:231-247 | a remembered handle needs no DELETE, a second caller joins, and only one owns the call |
| ClosedSessions.SessionBook.CloseEnd | flinksqlgateway/session.go:260-268 | a successful close moves the handle from open to remembered, a failed one leaves both as they were |
| ClosedSessions.SessionBook.RememberClosed | flinksqlgateway/session.go:273-285 | map and order list stay in agreement and follow the first-in first-out list |
| ClosedSessions.SessionBook.ForgetClosed | flinksqlgateway/session.go:288-301 | the in-place removal is removal from the list |
| Heartbeat.StepKeepsInv | flinksqlgateway/heartbeat.go:91-161 | every step of runner, channel, monitor and Close keeps the invariant |
| Heartbeat.StepKeepsLog | flinksqlgateway/heartbeat.go:147-161 | every event published is in exactly one place: taken in order, thrown out, in the channel or on its way, and health is the verdict on those taken |
| Heartbeat.NewestIsDelivered | flinksqlgateway/heartbeat.go:147-161 | outside a publish the newest event is in the channel or with the monitor, and a stopped monitor has seen it |
| Heartbeat.PublishNeverDrops | flinksqlgateway/heartbeat.go:147-161 | a publish ends with its own event in the channel |
| Heartbeat.EventsInOrder | flinksqlgateway/heartbeat.go:147-161 | events reach the monitor in the order they happened |
| Heartbeat.HealthMoves | flinksqlgateway/managed_session.go:213-250 | health moves between HEALTHY and DEGRADED until EXPIRED, EXPIRED becomes only CLOSED, CLOSED is final |
| Heartbeat.NoFailureAfterClose | flinksqlgateway/heartbeat.go:91-127 | once Close has begun no failed heartbeat is published |
| Heartbeat.CloseGoesOn | flinksqlgateway/managed_session.go:258-275 | a Close that has begun has ended the runner's context, and runner, monitor or Close itself can go on |
| Heartbeat.DegradedHasCause | flinksqlgateway/managed_session.go:213-232 | DEGRADED is entered only on an event that ends at least the threshold of failures in a row |
| Heartbeat.HealthAtRest | flinksqlgateway/managed_session.go:213-250 | with nothing under way: healthy after a success, expired exactly after an expiry, degraded when the threshold has been reached, and otherwise degraded exactly when an alarm was taken and no success after it |
| Heartbeat.HealthIsTheVerdict | flinksqlgateway/managed_session.go:213-250 | between events, DEGRADED exactly when an alarm was taken and no success after it |
| Heartbeat.DegradedAsPromised | flinksqlgateway/heartbeat.go:147-161 | at rest, DEGRADED agrees with the latest heartbeats having failed threshold times in a row if and only if no recovery was lost |
| Heartbeat.NoSuccessDropped | flinksqlgateway/heartbeat.go:147-161 | if no publish threw out a success, DEGRADED exactly when the latest heartbeats failed threshold times in a row |
| Heartbeat.RecoveryCanBeMissed | flinksqlgateway/heartbeat.go:147-161 | a run that loses a recovery: DEGRADED at rest with one failure since the latest success and a threshold of two |
| ResultPaging.BackoffDoubles | flinksqlgateway/result.go:173-179 | doubling in 64 bits with a cap is min(PollInterval * 2^k, MaxPollInterval) for every k |
| ResultPaging.ValidateResultRows | flinksqlgateway/result.go:134-157 | accepts exactly rows whose width fits the schema and whose fields are all valid |
| ResultPaging.AppendRows | flinksqlgateway/result.go:88-106 | appends rows up to the limit and reports exactly when it was reached |
| ResultPaging.ConsumeResults | flinksqlgateway/result.go:18-131 | terminates, and against any server and context returns what the paging function says, faithful to the conversation, with the cleanup its end calls for |
| ResultPaging.CollectorFaithful | flinksqlgateway/result.go:18-131 | never more polls or rows than allowed, rows a prefix of all page data and all of it on success, and after k NOT_READY pages in a row the wait is the k-fold doubled interval, capped |
| ResultPaging.NextDelivers | flinksqlgateway/result_stream.go:96-193 | one Next hands out the next of the rows the pages carried, or ends with a front of them delivered, with every wait so far the doubled and capped interval |
| ResultPaging.DrainDelivers | flinksqlgateway/result_stream.go:96-193 | whatever the server does and whenever the context ends, the rows handed out are a front of what the pages carried, all of it on success, within both limits, and every wait is the doubled and capped interval |
| ResultPaging.IteratorFaithful | flinksqlgateway/result_stream.go:96-193 | calling Next on a new stream until it ends keeps every promise of the loop: limits, rows a front of the page data, completeness on success and the exact waits, for any server and any context |
| ResultPaging.DrainIsIterate | flinksqlgateway/result_stream.go:96-193 | calling Next until it is false is following the pages with each PAYLOAD page's URI looked at first |
| ResultPaging.IterateFollowsCollect | flinksqlgateway/result_stream.go:137-191 | page by page the iterator makes the fetches and waits of the loop, also when the context ends |
| ResultPaging.StreamEqualsCollect | flinksqlgateway/result_stream.go:96-219 | same requests, same waits, the iterator's rows a prefix of the loop's; same rows and end if and only if the last page was no PAYLOAD page with rows and an unusable URI |
| ResultPaging.GoodUrisMeanEqual | flinksqlgateway/result_stream.go:178-184 | a server whose PAYLOAD pages all name an acceptable next page gives both the same rows, end and cleanup |
| ResultPaging.SeparatingServer | flinksqlgateway/result.go:88-125 | a server for which they differ: one row is collected and not streamed |
| PageConversation.LoopConverses | flinksqlgateway/result.go:18-131 | against any server and context: first the first token, then what each answer names, nothing after the context has ended or a page that does not fit; each end says what is true of the last answer, and cancels before closing exactly when it cut the result short |
| PageConversation.IteratorConverses | flinksqlgateway/result_stream.go:96-219 | the same of a new iterator drained to its end |
| ResultStream.Stream.Next | flinksqlgateway/result_stream.go:96-193 | each call terminates and moves the iterator as the specification does, yielding its row |
| ResultStream.Stream.FetchNextPage | flinksqlgateway/result_stream.go:137-191 | one poll, with the page's meaning |
| ResultStream.Stream.TakeNotReady | flinksqlgateway/result_stream.go:151-161 | the URI is looked at first, then one wait and the next back-off |
| ResultStream.Stream.TakeResult | flinksqlgateway/result_stream.go:163-185 | rows that do not fit end the stream; otherwise they are pending and the URI decides where to go on |
| ResultStream.Stream.SetNextURL | flinksqlgateway/result_stream.go:204-219 | a missing URI is an error only where it is required, a bad one always, and an error leaves the position alone |
| ResultStream.Stream.Finish | flinksqlgateway/result_stream.go:268-322 | the first end counts, and the operation is cancelled where called for and closed exactly once |
| ResultStream.Stream.Close | flinksqlgateway/result_stream.go:251-265 | cleans up once and ends the stream for good |
| SetupStatements.BodyRoundTrip | flinksqlgateway/session_setup_compile.go:264-266 | text with doubled quotes reads back up to the closing quote, for any content |
| SetupStatements.QuotedRoundTrip | flinksqlgateway/metadata.go:51-56 | a quoted identifier or literal reads back with what follows it |
| SetupStatements.QualifiedRoundTrip | flinksqlgateway/session_setup_compile.go:201-221 | a qualified name reads back as its parts |
| SetupStatements.OptionsRoundTrip | flinksqlgateway/session_setup_compile.go:233-261 | an option list reads back as its pairs in order |
| SetupStatements.PrintRoundTrip | flinksqlgateway/session_setup_compile.go:28-131 | every statement the compiler makes reads back as itself: target, IF NOT EXISTS, options or definition |
| SetupStatements.PrintInjective | flinksqlgateway/session_setup_compile.go:28-131 | no two different statements have the same text |
| SetupCompile.SortedSorts | flinksqlgateway/session_setup_compile.go:250-250 | sorting distinct keys gives them in ascending order, none lost or added |
| ByteOrder.TextOrder | flinksqlgateway/session_setup_compile.go:250-250 | comparing texts by code points, as the model sorts, is comparing their UTF-8 bytes, as Go sorts |
| ByteOrder.NamesInBytes | flinksqlgateway/session_setup_compile.go:182-198 | a name is valid exactly if some character is not white space, none is a control character and its UTF-8 takes at most 1024 bytes |
| SetupCompile.AscendingIsUnique | flinksqlgateway/session_setup_compile.go:238-250 | a set of keys has only one ascending list, so the order a map is walked in cannot show |
| SetupCompile.CompileOptions | flinksqlgateway/session_setup_compile.go:233-261 | fails exactly on a blank key; otherwise the text of all pairs by ascending key |
| SetupCompile.QualifiedTarget | flinksqlgateway/session_setup_compile.go:201-221 | fails exactly when a part that is set is not a valid identifier; otherwise the set parts, quoted and joined |
| SetupCompile.DatabaseKeyInjective | flinksqlgateway/session_setup_compile.go:71-75 | databases whose catalog names hold no NUL, as no valid identifier does, have the same NUL-joined key exactly when they are the same |
| SetupCompile.TableKeyInjective | flinksqlgateway/session_setup_compile.go:98-102 | the same for tables |
| SetupCompile.CompileCatalogs | flinksqlgateway/session_setup_compile.go:33-61 | accepts exactly well-formed catalogs with distinct names, and prints each as planned |
| SetupCompile.CompileDatabases | flinksqlgateway/session_setup_compile.go:63-91 | accepts exactly well-formed databases with distinct targets, and adds each as planned |
| SetupCompile.CompileTables | flinksqlgateway/session_setup_compile.go:93-111 | accepts exactly well-formed tables with distinct targets, and adds each as planned |
| SetupCompile.CompileSessionSetupPlan | flinksqlgateway/session_setup_compile.go:28-131 | compiles exactly the acceptable plans, each to steps that say it entry by entry |
| SetupCompile.CompiledReadsBack | flinksqlgateway/session_setup_compile.go:28-142 | steps are numbered by place, each text reads back as its planned statement, definitions trimmed, and kinds come in the order CATALOG, DATABASE, TABLE, USE_CATALOG, USE_DATABASE |
| SetupCompile.CompiledSaysPlan | flinksqlgateway/session_setup_compile.go:28-142 | one step for each catalog, database and table, in the plan's order, whose text reads back with that entry's names, flag and exactly its options or trimmed definition, under its target; then the USE steps for the current catalog and database |
| PlanRules.AcceptedByRules | flinksqlgateway/session_setup_compile.go:28-131 | a plan is accepted exactly if it asks for something, all names, keys and definitions are well formed as texts, no target occurs twice, and a current database comes with a catalog |
| SetupRun.ProgressIsTheFurthest | flinksqlgateway/transport.go:153-160 | whatever the order of trace events, the progress kept is the furthest one |
| SetupRun.PhaseByTrace | flinksqlgateway/transport.go:163-174 | a request without an answer is reported lost in the body, before the header, on its way or not sent, by what its trace contains in any order |
| SetupRun.OutcomeIsClassified | flinksqlgateway/operation.go:108-121 | a POST may have been executed exactly when it is reported as done or as unknown, never as both |
| SetupRun.PersistentChangesMayRemain | flinksqlgateway/session_setup.go:361-371 | true exactly when some CREATE is flagged as applied or unknown |
| SetupRun.FailSessionSetup | flinksqlgateway/session_setup.go:333-357 | records the failed step and the persistence flag, and changes no step result |
| SetupRun.Verify | flinksqlgateway/session_setup.go:419-462 | succeeds exactly when the metadata lists the exact name, and a table not hidden by a view |
| SetupRun.ConfigureSteps | flinksqlgateway/session_setup.go:256-295 | either every step was sent and answered by a success, or the result reports truly where and how it stopped |
| SetupRun.VerifySteps | flinksqlgateway/session_setup.go:297-314 | verification of an applied setup up to the first object not found, truly reported |
| SetupRun.ApplyCompiledSessionSetup | flinksqlgateway/session_setup.go:248-317 | sends a prefix of the steps, and every flag is exactly what happened; PersistentChangesMayRemain is set exactly if the run failed and some CREATE that was sent may have been executed; without the gate nothing is sent and the index is -1 |
| SetupRun.FlaggedExactly | flinksqlgateway/session_setup.go:265-287 | a step is flagged as applied or unknown exactly when it was sent and may have been executed |
| SetupRun.FlagsByAnswers | flinksqlgateway/session_setup.go:256-295 | applied exactly if this step and all before it were answered by 200 to 299; unknown exactly if sent and lost on the way, or answered by 408, 429 or at least 500, or its answer broke off with a status that denies nothing |
| SetupRun.EndByAnswers | flinksqlgateway/session_setup.go:297-371 | complete exactly if every answer was 200 to 299 and the metadata has all that was asked for; on failure changes may remain exactly if some CREATE sent was done or unclear |
| SetupRun.FlagIsExact | flinksqlgateway/session_setup.go:361-371 | in terms of servers, as a corollary: the flag is set on failure exactly when some server the client cannot tell from the real one has executed a CREATE |
| SetupRun.UnflaggedDidNotRun | flinksqlgateway/session_setup.go:265-287 | a step with neither flag was not executed |
| SetupRun.FlagsInOrder | flinksqlgateway/session_setup.go:248-317 | applied steps are a prefix, unknown only where the run failed, verified only if all are applied, complete means all applied and all required ones verified |
| SetupRun.EachIsSentOnce | flinksqlgateway/session_setup.go:256-272 | no request of a run is repeated |
| SetupRun.CompletedRun | flinksqlgateway/session_setup.go:315-316 | a run that completes with an applied CREATE and the persistence flag false |
| SetupRun.ApplySessionSetup | flinksqlgateway/session_setup.go:173-198 | a plan that does not compile costs no request, any other is run as planned |
| VersionSuffix.ValidateVersionSuffix | flinksqlgateway/compatibility.go:456-487 | the one-pass scanner accepts exactly the suffix language |
| VersionSuffix.ScanMeansLanguage | flinksqlgateway/compatibility.go:456-487 | the scan with its two flags is the declarative language of dotted identifiers with at most one build part |
| VersionSuffix.SignIsNotRequired | flinksqlgateway/compatibility.go:456-487 | a suffix without a sign that belongs to the scanner's language |
| VersionSuffix.SplitOfJoined | flinksqlgateway/compatibility.go:418-418 | splitting at dots undoes joining |
| VersionSuffix.VersionShape | flinksqlgateway/compatibility.go:406-439 | where the first sign stands, how a version divides into core and suffix is forced |
| VersionSuffix.ParseFlinkReleaseLine | flinksqlgateway/compatibility.go:406-439 | answers major and minor exactly of texts that are two or three numbers, and after three perhaps a suffix |
| VersionSuffix.PrintedIsVersion | flinksqlgateway/compatibility.go:406-439 | two or three printed numbers, with a suffix after three, are a version of the first two, exactly if all fit in 64 bits |
| VersionSuffix.ParsePrinted | flinksqlgateway/compatibility.go:406-439 | parsing a printed major.minor or major.minor.patch with any accepted suffix, "v" and white space answers major and minor |
| ErrorMessage.ValidMeansEncoded | flinksqlgateway/transport.go:488-502 | the validity check on bytes holds exactly of encodings of text |
| ErrorMessage.BoundaryWithinThree | flinksqlgateway/transport.go:496-500 | going back at most three bytes reaches the end of a character |
| ErrorMessage.CutBeforeAscii | flinksqlgateway/transport.go:491-493 | cutting in front of a line break keeps text valid |
| ErrorMessage.Shorten | flinksqlgateway/transport.go:488-502 | the first line in full if it fits in 512 bytes, otherwise its longest valid prefix that fits, at most three bytes short, and "..." only then |

## Left out

- In-place update inside the concurrent machines: a step of `SetupGate`, `SessionWrapper`, `VersionCheck` or `Heartbeat` is one function on values, so aliasing within a mutex section is not captured there.
- The client's Close of managed sessions and heartbeat runners: only its streams are in `ClientLifecycle`; managed sessions register and are snapshotted the same way.
- ResultPaging.ConsumeResults: page counts, job identifiers, result kinds and the emit form that StreamResults uses are not modelled.
- ResultStream.Stream.Next: the stream's events, page objects and job identifiers are not modelled, nor a Close of the stream while Next is running.
- Failures of cleanup requests, and the status query that refines a failed fetch.
- Heartbeat sharing: a second start on a session that already has a runner, and the runner's separate error channel.
- OpenSessionWithSetup: closing the session after a failed setup does not touch the flags modelled here.
- Redaction of SQL and secrets, error texts, and which error a rejected plan gets.
- UTF-8 validity of identifiers, options and definitions: the model's texts are sequences of code points, which are always encodable.
- ErrorMessage.Shorten: starts where the message is already valid UTF-8 and trimmed; replacing invalid bytes and trimming come before it.
- Time: waits are recorded, not waited for. That someone can go on is proved, not that a scheduler lets them.
- What a close that joins another one returns: joining is only waiting here.
- HTTP, TLS, redirects, JSON decoding, observers, capability tables, scripts and materialized tables.
