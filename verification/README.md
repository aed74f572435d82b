# Jackadi: a verified model of its manager and nodes

Jackadi is a task runner: a manager sends tasks to nodes over streams, the nodes schedule and run them, and the
manager routes the replies back and stores them. This project models the parts of it that have to be right
under concurrency, failures and odd input, and proves what they guarantee.

- **The node's scheduler** (`Scheduler*`): one receive loop, a goroutine per request, three token channels, a
  read/write lock with a preferred writer, one timer and one watcher per request. A machine with a step for
  every statement that can block or be seen by others; all theorems are about every run of it.
- **Sessions and the dispatcher** (`Dispatch`, `Lifecycle*`): any number of concurrent streams, also several for
  one node, registering, fetching, closing and unregistering channels while callers send under the read lock.
  Channels have identities, so closing the wrong one, a nil one or a closed one would show.
- **Requests and replies** (`Routing*`, `Forwarder`): on top of the sessions, the sending and receiving loop of
  each, the table from ids to reply channels with its delayed cleanups, and the forwarder's goroutines and join.
  Nodes may send anything.
- **The result store** (`Text`, `Decimal`, `Store`, `Listing*`, `Expansion`): results and groups as text under text
  keys, the reverse scan behind the listing, the expansion of a group, and finding the request behind a result.
- **Query targeting** (`Query*`): the string-splitting evaluator against a node-by-node meaning.
- **The node registry** (`Registry*`, `Inventory`, `Admission`, `Admin*`): the registry class, the admin calls
  and the handshake, as whole calls and as interleaved steps with failing saves.
- **The whole system** (`System*`): manager with forwarder and spec collector, one scheduler per session's node and the
  store in one machine, with messages lost on the streams and transactions that fail.

State machines consist of a `State`, its `Action`s, `Enabled` and `Next`; `Reachable` means reached by some finite
run. Classes follow the source's objects, and every method is proved against a function of the old state; the
lemmas are about those functions.

## Where the code does not do what one would expect

Each of these is stated as a lemma, usually with the exact condition under which things go right.

- A session whose receiving side closes the channel, or waits to close it, before the main goroutine has fetched it
  gets a nil channel and can never end, and its node can never register again (`LifecycleProofs.EndsIffFetchedInTime`,
  `LifecycleProofs.DoomedBlocksTheNode`); any node gets one from a stream that ends too soon
  (`LifecycleProofs.DoomIsReachable`).
- A reply is handed to its caller if and only if its channel was recorded before and its entry not yet removed, by
  the delayed cleanup or after an earlier reply (`RoutingTables.HandedOverIffInTime`). So a reply that overtakes the
  recording is dropped, and there are runs in which it does (`RoutingExample.RepliesCanOvertake`); and a notice that
  the task overran uses up the entry, so that the result that follows is stored but reaches nobody
  (`RoutingTables.OnlyTheFirstReplyCounts`).
- Replies to the spec collector are stored like any other, but its requests are not
  (internal/manager/server/server.go:330-342), so that no request is found from them
  (`SystemResults.RequestBehindResult`, `SystemExample.ARunStoresACollectedResult`).
- The lock mode that a caller asks for never reaches the node, although the command line offers a flag for it
  (cmd/jack/subcommand/job/task/task.go:136); `SystemResults.NodesNeverSeeLockModes`,
  `SystemResults.OverrideCountsIffIdle`.
- A handshake that registers a waiting candidate succeeds and is reported as failed, because the error of the offer
  is returned (internal/manager/server/handshake.go:78-94); `AdminCalls.WelcomeIffRegistered`,
  `AdminCalls.WaitingCandidateIsTurnedAway`.
- Two overlapping handshakes of one node leave it both accepted and candidate (`Admission.OverlappingHandshakesRace`,
  `Admission.StepKeepsListsExclusive`).
- An id pattern that matches nobody makes the whole query fail, even next to an OR group with matches
  (`QuerySemantics.MissedPatternIsFatal`, `QueryExample.OrFailsOnMissedPattern`).
- The value "/" counts as a regular expression and makes the evaluator slice out of range; the outcome `Crashed`
  stands for that panic. A query panics exactly when the first of its conditions that does not evaluate matches an
  id, or a spec that some node has, with "/" (`QuerySemantics.QueryCrashes`); "id=~/" always does
  (`QueryExample.LoneSlashPanics`).
- The listing seeks and scans in text order. All requests with a given upper date, or none, are answered as expected
  if and only if the ids up to the date sort as text the way they sort as numbers, the seek leaves none of them out,
  and an id beyond the date that it does not leave out is the first one it finds (`ListingProofs.ExpectedIffFits`).
  Ids have 19 digits, and a date with 19 digits always fits (`SystemResults.EqualDigitsAreListed`); but
  internal/proto/api.proto:101-102 calls the dates Unix timestamps, and seconds have 10. A store of results 9 and 10
  lists 9 as the newest (`ListingExamples.NineComesBeforeTen`), and a store of results 11 and 12 answers a request up
  to 9 with 11 (`ListingExamples.BoundIsOverrun`).

The command line's guard against a group that contains itself never fires, and groups that contain each other, which
it does not guard against, do not exist either: no history of writes produces them, not even when ids and groups
collide (`Store.GroupsNeverNest`, `Expansion.ExpansionEnds`).

## Assumptions

- Ids and groups are nanosecond clock readings: 64-bit numbers, taken to be positive and distinct
  (`System.FreshReading`).
- Tasks return. Timers and time-outs may fire at any moment after they were armed. Stopping a timer also drops a
  tick nobody has received yet, as Go does since 1.23.
- A codec decodes what it encoded, and no encoded record starts like a group value (`Store.ValidCodec`).
- Glob, regular expressions and dotted access to specs are arbitrary functions.

## Model

The results come first, then a few facts close to their definitions, then the methods with what they compute.

| member | source | states |
|---|---|---|
| SchedulerSafety.ExclusiveRunsAlone | internal/node/node.go:246-261 | in every reachable state a running EXCLUSIVE task is the only running task |
| SchedulerSafety.ConcurrencyBounds | internal/node/node.go:156-158 | at most one task with a lock runs, at most the configured number without, and waiting and running requests together never exceed the queue size |
| SchedulerSafety.RefusedExactlyWhenFull | internal/node/node.go:211-226 | a request is answered FULL_QUEUE exactly when that many goroutines are alive |
| SchedulerReplies.OneFinalReply | internal/node/node.go:229-306 | over every run at most one final reply and one overrun notice per request; a request that is over has its final reply unless the context closed while it waited |
| SchedulerReplies.RefusalMeansNotRun | internal/node/node.go:285-306 | a request answered TIMEOUT or FULL_QUEUE never entered the task, one answered STARTED_TIMEOUT did |
| SchedulerReplies.RepliesEcho | internal/node/node.go:185-226 | every reply in the outbox carries the id and group of the request it answers |
| SchedulerReplies.RepliesAreTrue | internal/node/node.go:185-306 | every reply in the outbox is in full what the plugin did, the answer to a ping, or the one scheduler error that applies |
| SchedulerReplies.LockModePrecedence | internal/node/node.go:203-209 | a request is served under the lock mode it asks for, else under its plugin's, and without either under none |
| SchedulerReplies.TaskNameMeaning | internal/node/node.go:336-348 | exactly which names resolve, and to which plugin and task |
| SchedulerProgress.NeverDeadlocks | internal/node/node.go:229-307 | in every reachable state with a live goroutine some goroutine can step, writer preference included |
| SchedulerProgress.WaitReturns | internal/node/node.go:170-183 | once receiving has stopped, runs are no longer than a measure of the state, and a run no goroutine can extend has finished them all: the wait group's Wait returns |
| Dispatch.TargetsCarryReadiness | internal/manager/forwarder/dispatcher.go:146-253 | in every mode a successful targeting is not empty and gives every target its readiness at that moment |
| Dispatch.NamedTargets | internal/manager/forwarder/dispatcher.go:150-154 | an exact target or a list targets exactly the ids named; no mode is an error |
| Dispatch.GlobTargets | internal/manager/forwarder/dispatcher.go:185-203 | a glob targets exactly the known nodes it matches, when it is good for all and matches one |
| Dispatch.RegexTargets | internal/manager/forwarder/dispatcher.go:205-223 | a regular expression targets exactly the known nodes it matches as a whole, when it compiles and one does |
| Dispatch.QueryTargets | internal/manager/forwarder/dispatcher.go:226-253 | a query targets exactly the known nodes that satisfy it |
| LifecycleProofs.ChannelsAreSafe | internal/manager/server/server.go:277-303 | over every interleaving no nil or closed channel is closed, a channel is closed by the one session that registered it and before it unregisters, nobody sends on a closed channel, and a node is ready exactly when its channel is open |
| LifecycleProofs.ClosesOwnChannel | internal/manager/forwarder/dispatcher.go:72-82 | a session that closes finds exactly the channel it registered, still open |
| LifecycleProofs.FetchNeverMisses | internal/manager/forwarder/dispatcher.go:126-135 | a registered session's fetch always finds its entry: its own channel before the close, nil after |
| LifecycleProofs.DoomedBlocksTheNode | internal/manager/server/server.go:277-303 | once the channel was closed before it was fetched, the node can never register again |
| LifecycleProofs.EndsIffFetchedInTime | internal/manager/server/server.go:155-189 | some run ends a registered session if and only if its channel was not closed before it was fetched, and the session's closer is not just waiting for the lock, which holds off the fetch |
| LifecycleProofs.NobodySetsSessionBack | internal/manager/server/server.go:155-189 | once a session has fetched its open channel, no step of anybody dooms it or takes it further from its end |
| LifecycleProofs.SessionNeverStuck | internal/manager/server/server.go:277-303 | and until it is gone its own next step is enabled while nobody waits for the lock, and when it is its turn; each brings it closer or announces it as a writer |
| LifecycleProofs.LockIsHandedOn | internal/manager/forwarder/dispatcher.go:106-124 | while a writer waits nobody enters Send, everybody in it can leave, and then the writer takes the lock and gives it back |
| LifecycleProofs.DoomIsReachable | internal/manager/forwarder/dispatcher.go:126-135 | a stream that ends between the registration and the fetch leaves such a session behind |
| RoutingProofs.SessionsBehaveAsLives | internal/manager/server/server.go:257-304 | the sessions that route requests behave as the sessions proved safe above |
| RoutingResults.SessionServesItsNode | internal/manager/server/server.go:155-163 | a session only takes tasks of callers that target its own node |
| RoutingResults.AtMostOwnReply | internal/manager/server/server.go:232-245 | whatever nodes send, a reply channel gets at most one message in its life, with the id its own request was given, from a session of the targeted node |
| RoutingResults.AnswersOneCaller | internal/manager/server/server.go:161-187 | no message answers two callers |
| RoutingResults.DeliveryNeverWaits | internal/manager/forwarder/forwarder.go:103-107 | the send into the reply channel never waits |
| RoutingResults.OvertakingReplyIsDropped | internal/manager/server/server.go:163-178 | a reply looked up before its channel is recorded reaches nobody |
| RoutingTables.HandedOverIffInTime | internal/manager/server/server.go:232-247 | a message is handed to a caller if and only if it has the id of the caller's task on this session, recorded before and not yet removed by the cleanup or after another message |
| RoutingTables.DroppedWithoutTrace | internal/manager/server/server.go:246-248 | a message handed to nobody leaves everything else as it was |
| RoutingTables.OnlyTheFirstReplyCounts | internal/manager/server/server.go:232-245 | once a caller was given a message, also a mere notice, every later one with its id is dropped |
| RoutingTables.RemovedForever | internal/manager/server/server.go:179-186 | a removed id stays removed |
| RoutingExample.RepliesCanOvertake | internal/manager/server/server.go:163-178 | for every node, request and answer, a run in which the answer is looked up before its channel is recorded, and lost |
| RoutingResults.SentIsForwarded | internal/manager/server/server.go:161-171 | every task on any stream has the name, input, timeout and group of some caller's request, that caller's own id and no lock mode, and is sent to the node it targets; no two tasks on any streams share an id |
| RoutingResults.JoinIsComplete | internal/manager/forwarder/forwarder.go:74-146 | the join is complete exactly when there is one result per target; the forwarder says DISCONNECTED for exactly the targets not ready, and otherwise DISCONNECTING or TIMEOUT; any reply came from that node's session for this request |
| RoutingResults.OutcomeSaysWhy | internal/manager/forwarder/forwarder.go:109-143 | a caller reports DISCONNECTING exactly if the node had no open channel when it came to send, TIMEOUT exactly if its time was up, and else the message in its channel |
| RoutingResults.CallerNeverStuck | internal/manager/forwarder/forwarder.go:102-143 | every goroutine that sends a request can always take its next step and so ends, except that it may have to wait for a writer before it reads the dispatcher |
| RoutingResults.WriterNeverStuck | internal/manager/forwarder/dispatcher.go:106-124 | that wait ends: everybody in Send can time out, and then the writer takes its turn |
| RoutingResults.NobodySetsCallerBack | internal/manager/forwarder/forwarder.go:102-143 | and no step of anybody takes it further from its end |
| Text.JoinSplit | internal/manager/forwarder/dispatcher.go:233 | splitting loses nothing |
| Text.SplitJoin | internal/manager/database/keys.go:9-15 | splitting undoes joining when no part swallows or straddles a separator |
| Decimal.ParseFormat | internal/manager/database/keys.go:18-30 | parsing a formatted 64-bit id gives it back |
| Decimal.FormatInjective | internal/manager/database/keys.go:18-30 | different ids have different texts |
| Decimal.FormatIsClean | internal/manager/server/server.go:133-138 | an id never contains a key or list separator |
| Decimal.EqualDigitsSortNumerically | internal/manager/management/result.go:99-121 | ids with equally many digits sort as text the way they sort as numbers |
| Store.KeyRoundTrip | internal/manager/database/keys.go:9-30 | a generated key parses back into its prefix and id |
| Store.KeyMeaning | internal/manager/database/keys.go:9-15 | a text is a key exactly when there is one colon in it, between prefix and id |
| Store.ContentsAre | internal/manager/server/server.go:102-146 | after any history with disjoint ids and groups, what every result key holds |
| Store.StoreAgreesWithHistory | internal/manager/server/server.go:102-146 | every id has its last result and every group lists exactly its ids in order of arrival, if and only if no result id is a group id |
| Store.GroupsNeverNest | internal/manager/server/server.go:102-146 | after any history, colliding ids and groups included, what a group lists are records, never groups and never itself |
| ListingProofs.PageIsSlice | internal/manager/management/result.go:121-169 | a page is the listing without the first offset entries, cut at the limit |
| ListingProofs.StoppingEarlyLosesNothing | internal/manager/management/result.go:147-151 | on a descending list stopping at the first id below the bound equals filtering |
| ListingProofs.StartIsUpperBound | internal/manager/management/result.go:99-119 | from its start the scan sees exactly the results up to the date, if and only if the stored ids fit the date |
| ListingProofs.ListingIsNumeric | internal/manager/management/result.go:78-227 | where the ids fit the date, the call gives the results between the bounds and of the targets, in descending numeric order, without the first offset, one to a hundred of them |
| ListingProofs.ExpectedIffFits | internal/manager/management/result.go:78-227 | for every date, or none, all requests up to it are answered so if and only if the ids fit it |
| ListingOrders.EveryStoreIsListed | internal/manager/management/result.go:78-227 | every store with generated keys has one reverse scan and a numeric listing, so that holds of every store |
| ListingProofs.FitsIffAtMostOneLate | internal/manager/management/result.go:99-119 | where text order is numeric order among the ids, they fit a date exactly when those behind it as text are beyond it, and at most one beyond it is not behind it as text |
| ListingProofs.EqualDigitsFit | internal/manager/management/result.go:99-119 | ids and a date with equally many digits fit |
| ListingProofs.EqualDigitsAgree | internal/manager/management/result.go:78-227 | ids with equally many digits are such ids |
| ListingProofs.NewestFirstIffOrdersAgree | internal/manager/management/result.go:116-119 | without a date all requests are answered as expected if and only if the two orders agree on the stored ids |
| ListingExamples.NineComesBeforeTen | internal/manager/management/result.go:116-121 | after storing results 9 and 10 the newest one listed is 9 |
| ListingExamples.BoundIsOverrun | internal/manager/management/result.go:99-115 | after storing results 11 and 12 a request up to 9 is answered with 11 |
| ListingProofs.HistoryIsWellFormed | internal/manager/database/keys.go:18-30 | whatever is written under 64-bit ids, the store's keys are keys the listing can read |
| ListingProofs.PagesCoverListing | internal/manager/management/result.go:78-169 | for every page size from 1 to 100 the pages one after the other are the whole listing, nothing repeated, nothing missing |
| ListingHistory.HistoryIsListed | internal/manager/management/result.go:78-227 | in terms of what was stored: the call answers with one page of exactly the results and groups asked for by date and node, newest first, and each entry has the node, error and status of the reply, or the ids of the group |
| ListingHistory.FilteredByNode | internal/manager/management/result.go:157-164 | with targets, a result passes if and only if it was stored for one of them, and no group passes |
| ListingHistory.EntryDescribes | internal/manager/management/result.go:171-224 | success if and only if OK without error, error if and only if there is an error, internal error otherwise |
| Expansion.ExpansionEnds | cmd/jack/subcommand/job/result/get.go:57-83 | after any history, for any id typed in, one level of recursion is enough |
| Expansion.ExpansionIsShallow | cmd/jack/subcommand/job/result/get.go:57-83 | with disjoint ids and groups a group prints its results in order of arrival, a result prints itself |
| Expansion.RequestIsFound | cmd/jack/subcommand/job/result/get.go:113-131 | from any stored result or group one is led to the request record of its group, else its own |
| Expansion.ForwarderRequestIsFound | internal/manager/database/results.go:23-43 | for a result of a forwarded request that is the very record the forwarder wrote |
| QuerySemantics.ConditionMeaning | internal/manager/forwarder/dispatcher.go:286-412 | a condition evaluates exactly when it is neither malformed nor an id pattern without match, and then selects exactly the nodes it is true of |
| QuerySemantics.ConditionCrashes | internal/manager/forwarder/dispatcher.go:333-338 | a condition panics exactly when it matches an id, or a spec that some node has, with the value / |
| QuerySemantics.QueryMeaning | internal/manager/forwarder/dispatcher.go:226-412 | a query succeeds exactly when it is not blank, all its conditions evaluate and some known node satisfies all conditions of some group; its result is exactly these nodes with their readiness |
| QuerySemantics.OrderIsIrrelevant | internal/manager/forwarder/dispatcher.go:226-283 | the order and repetition of groups and conditions do not matter |
| QuerySemantics.NoEmptyGroup | internal/manager/forwarder/dispatcher.go:233-268 | no group is left without a condition, so none matches everything by accident |
| QuerySemantics.MissedPatternIsFatal | internal/manager/forwarder/dispatcher.go:198-200 | a well-formed query gives its satisfying nodes if and only if every id pattern in it matches somebody, or nobody satisfies it |
| QuerySemantics.QueryCrashes | internal/manager/forwarder/dispatcher.go:226-412 | a query panics exactly when the first of its conditions that does not evaluate is such a condition |
| QueryExample.OrFailsOnMissedPattern | internal/manager/forwarder/dispatcher.go:198-200 | "id==a or id=~b" fails on a manager whose only node is a |
| QueryExample.LoneSlashPanics | internal/manager/forwarder/dispatcher.go:333-338 | the query id=~/ panics on every manager |
| QueryPrint.PrintRoundTrip | internal/manager/forwarder/dispatcher.go:233-268 | printing any groups of printable conditions and parsing them gives the same groups |
| QueryPrint.GroupIgnoresBlanks | internal/manager/forwarder/dispatcher.go:257-268 | white space around conditions and blank conditions do not matter |
| QueryPrint.QueryIgnoresBlanks | internal/manager/forwarder/dispatcher.go:233-237 | nor around and between groups |
| QueryPrint.EqualsIsRead | internal/manager/forwarder/dispatcher.go:290-296 | field == value is read as these two, whatever white space is around them |
| QueryPrint.MatchesIsRead | internal/manager/forwarder/dispatcher.go:297-302 | likewise field =~ value |
| RegistryProofs.ListsStayConsistent | internal/manager/inventory/inventory.go:129-295 | from an empty registry no operations list a candidate twice, make a node both candidate and rejected, or file an identity under another id |
| RegistryProofs.BothListsUnreachable | internal/manager/inventory/inventory.go:182-185 | the "both candidate and rejected" error never happens |
| RegistryProofs.RejectedStaysOut | internal/manager/inventory/inventory.go:247-269 | after a successful reject the node stays out until it is accepted or removed, whatever saves fail |
| RegistryProofs.RogueIsDetected | internal/manager/inventory/inventory.go:166-173 | from its registration until the node itself is given up, its id is bound to exactly that identity, and any other claiming it is rogue with a non-empty difference |
| RegistryProofs.AddCandidateKeepsExclusive | internal/manager/inventory/inventory.go:129-142 | offering keeps every identity in at most one list if and only if it is not accepted |
| RegistryProofs.RegisterKeepsExclusive | internal/manager/inventory/inventory.go:161-204 | registering always does |
| RegistryProofs.RejectKeepsExclusive | internal/manager/inventory/inventory.go:247-269 | rejecting does if and only if the node is not rejected already |
| RegistryProofs.RemoveKeepsExclusive | internal/manager/inventory/inventory.go:271-295 | removing always does |
| RegistryEffects.RegisterEffect | internal/manager/inventory/inventory.go:161-204 | exactly when registering gives which answer, what it binds and takes off, and that else nothing changes |
| RegistryEffects.RejectEffect | internal/manager/inventory/inventory.go:247-269 | what rejecting changes on every list and binding, also when saving fails |
| RegistryEffects.RemoveEffect | internal/manager/inventory/inventory.go:271-295 | what removing changes on every list and binding, also when saving fails |
| Admission.RunIsItsOps | internal/manager/server/handshake.go:67-95 | a run of interleaved calls changes the registry by its locked operations, in order, and by nothing else |
| Admission.NoHandshakeUndoesAReject | internal/manager/server/handshake.go:74-92 | over every interleaving, also with auto-accept and failing saves, a rejected node is not accepted before an accept or removal of that node |
| Admission.StepKeepsListsExclusive | internal/manager/inventory/inventory.go:262 | exactly which interleaved steps put an identity into two lists |
| Admission.OverlappingHandshakesRace | internal/manager/server/handshake.go:74-92 | two overlapping handshakes do |
| AdminCalls.WelcomeIffRegistered | internal/manager/server/handshake.go:74-94 | a handshake succeeds if and only if the node is accepted at its end and was not waiting as a candidate |
| AdminCalls.WaitingCandidateIsTurnedAway | internal/manager/server/handshake.go:78-94 | with auto-accept on throughout: an identity refused as rogue waits as a candidate; once the other one is removed, its next handshake registers it and tells it that it is already a candidate |
| AdminCalls.AtMostOneList | internal/manager/management/node.go:73-167 | when calls do not overlap, every identity is in at most one of the three lists |
| AdminCalls.AcceptAdmitsTheOne | internal/manager/management/node.go:73-98 | accepting moves the only selected node or changes nothing |
| AdminEffects.HandshakeOffers | internal/manager/server/handshake.go:78-87 | without auto-accept a new node becomes a candidate, is denied, and nothing else changes |
| AdminEffects.HandshakeOfKnown | internal/manager/server/handshake.go:74-92 | an accepted node is let in, a rejected one is not, and nothing changes |
| AdminEffects.HandshakeAdmits | internal/manager/server/handshake.go:78-94 | with auto-accept a new node is bound to its id at once; if the id is taken it is rogue and stays a candidate |
| AdminEffects.AcceptMeaning | internal/manager/management/node.go:73-98 | accepting succeeds exactly when just one candidate or rejected node is meant and its id is free; what then changes, and which answer is given otherwise |
| AdminEffects.RejectMeaning | internal/manager/management/node.go:138-167 | a reject call leaves every node alone that it does not mean, whatever fails; if nothing fails, exactly those it means are rejected |
| AdminEffects.RemoveMeaning | internal/manager/management/node.go:101-131 | likewise a remove call, after which those it means are on no list |
| AdminEffects.RejectOneEffect | internal/manager/management/node.go:150-164 | an accepted node whose connection cannot be shut down stays accepted, and is reported |
| AdminEffects.RemoveOneEffect | internal/manager/management/node.go:113-126 | a node whose connection cannot be shut down is removed all the same, and reported |
| AdminEffects.HandshakeIsItsSteps | internal/manager/server/handshake.go:67-95 | the interleaved steps of a handshake, undisturbed, end in what the call gives |
| AdminEffects.AcceptIsItsSteps | internal/manager/management/node.go:73-98 | so do those of an accept call |
| AdminEffects.RejectIsItsSteps | internal/manager/management/node.go:138-167 | of a reject call, whatever fails |
| AdminEffects.RemoveIsItsSteps | internal/manager/management/node.go:101-131 | and of a remove call |
| SystemResults.FinalRepliesAreUnique | internal/node/node.go:263-306 | in all nodes' outboxes together no two final replies carry the same id |
| SystemResults.OneRecordPerTask | internal/manager/server/server.go:222-226 | at most one record per dispatched task, also after an overrun notice, and its id at most once in its group's list |
| SystemResults.RecordHasCaller | internal/manager/server/server.go:91-146 | every record answers a request, forwarded or the collector's, that was sent to that very node, under that request's group or without one |
| SystemResults.OneRecordPerTarget | internal/manager/server/server.go:120-146 | a group holds at most one record per node |
| SystemResults.StoreIsFaithful | internal/manager/server/server.go:91-146 | in every reachable state of the system the store says exactly what was stored, and every id expands to it |
| SystemResults.RequestBehindResult | internal/manager/forwarder/forwarder.go:49-57 | a stored result has a request of its group if and only if it has a group, as replies to the spec collector have not; the request is unique and was given to the store before, and one is led to its record if and only if that was committed; without a group one is led to none |
| SystemResults.RecordsTellTheTruth | internal/node/node.go:285-306 | a record says TIMEOUT or FULL_QUEUE exactly when the node refused the task, which then never ran; any other is the answer to a ping or says in full what the plugin did |
| SystemResults.RepliesTellTheTruth | internal/manager/forwarder/forwarder.go:127-134 | a reply returned for a target is about a job on that node with the name, input, timeout and group of this very request, and says what the node knows of it |
| SystemResults.StoreIsListable | internal/manager/database/keys.go:18-30 | everything a reachable system writes, the listing can read |
| SystemResults.SystemIsListed | internal/manager/management/result.go:78-227 | in every reachable state the iterator's scan and the numeric listing exist, and all listings up to a date are as expected if and only if the stored ids fit it |
| SystemResults.EqualDigitsAreListed | internal/manager/management/result.go:78-227 | they are as long as clock readings and dates have equally many digits |
| SystemResults.SystemHistoryIsListed | internal/manager/management/result.go:78-227 | the same in terms of what was stored |
| SystemExample.ARunStoresAResult | internal/manager/server/server.go:91-146 | for any node, request and plugin answer a run from the start to a stored record, which its group expands to, which is listed first, and which leads back to the stored request |
| SystemExample.ARunStoresACollectedResult | internal/manager/server/server.go:330-342 | likewise for the spec collector, from whose record no request is found |
| SystemResults.NodesNeverSeeLockModes | internal/manager/server/server.go:163-171 | no job on any node carries a lock mode |
| SystemResults.PartsAreReachable | internal/manager/server/server.go:257-304 | manager and nodes only reach states they can reach on their own, so all theorems about them hold in the system |
| SchedulerReplies.PingIsAnsweredAtOnce | internal/node/node.go:185-198 | a ping is answered true at once, and takes no place in the queue |
| Dispatch.ForgottenIsUnknown | internal/manager/forwarder/dispatcher.go:87-97 | a forgotten node is no longer known, everybody else is as before; a node with an entry cannot be forgotten |
| QueryPrint.OperatorIsNeeded | internal/manager/forwarder/dispatcher.go:303-305 | exactly a text with neither operator is no condition |
| RegistryEffects.AddCandidateEffect | internal/manager/inventory/inventory.go:129-142 | whom offering adds and when it fails, with all lists and bindings |
| RegistryEffects.UnregisterEffect | internal/manager/inventory/inventory.go:206-245 | which binding and state are dropped and with which answer |
| RegistryEffects.StateEffects | internal/manager/inventory/inventory.go:297-366 | each update of a state touches one id and in it only what it is about |
| RegistryEffects.DiffsSayWhat | internal/manager/inventory/compare.go:9-22 | a comparison names exactly the fields that differ, the expected value first, and hides certificates |
| SchedulerReplies.DoTaskReports | internal/node/node.go:367-420 | a task's reply carries the request's id and group and the plugin's output, error and code; OK if and only if the call did not fail, MODULE_ERROR with the message if it did, and UNKNOWN_TASK if and only if the name does not resolve or nothing is registered under it |
| SchedulerReplies.UnresolvableTask | internal/node/node.go:336-348 | a name with more than one dot takes no lock by default and is answered UNKNOWN_TASK |
| SchedulerReplies.DefaultLimits | internal/node/node.go:147-154 | two tasks at a time and a hundred waiting, unless the configuration says otherwise |
| Decimal.TenSortsBeforeNine | internal/manager/management/result.go:99-121 | other ids need not |
| RegistryProofs.NoDiffsIffEqual | internal/manager/inventory/compare.go:9-22 | no differences exactly for equal identities |
| SystemResults.OverrideCountsIffIdle | internal/node/node.go:328-364 | a requested mode counts if and only if it says what the node would have done anyway |
| Dispatch.Dispatcher.constructor | internal/manager/forwarder/dispatcher.go:41-48 | a new dispatcher has no channels and no ready nodes |
| Dispatch.Dispatcher.RegisterNode | internal/manager/forwarder/dispatcher.go:51-61 | fails exactly when the node has an entry, else makes a new open channel and marks the node ready |
| Dispatch.Dispatcher.UnregisterNode | internal/manager/forwarder/dispatcher.go:64-70 | drops the entry and the readiness |
| Dispatch.Dispatcher.CloseNode | internal/manager/forwarder/dispatcher.go:75-82 | closes the entry's channel and leaves nil behind |
| Dispatch.Dispatcher.ForgetNode | internal/manager/forwarder/dispatcher.go:87-97 | forgets a node only when it has no entry |
| Dispatch.Dispatcher.BeginSend | internal/manager/forwarder/dispatcher.go:106-124 | which of the three ways a send goes: no entry, nil channel, or an open channel |
| Dispatch.Dispatcher.GetTasksChannel | internal/manager/forwarder/dispatcher.go:126-135 | the entry, which may be nil without an error |
| Dispatch.Dispatcher.TargetedNodes | internal/manager/forwarder/dispatcher.go:146-170 | the targets by mode |
| Forwarder.SplitTargets | internal/manager/forwarder/forwarder.go:33-41 | each target is recorded once, on the side of its readiness |
| Forwarder.StartCallers | internal/manager/forwarder/forwarder.go:90-102 | unconnected targets are answered at once, each other one gets one goroutine |
| Store.Database.constructor | internal/manager/server/server.go:50-60 | a new store is empty |
| Store.Database.StoreResult | internal/manager/server/server.go:91-152 | the entries after storing a result: its own record and its group's list, or nothing when the transaction fails or the id is zero |
| Store.Database.StoreRequest | internal/manager/forwarder/forwarder.go:33-68 | the entries after storing a request under its group or id |
| Listing.FindStart | internal/manager/management/result.go:99-119 | where the scan starts |
| Listing.JudgeItem | internal/manager/management/result.go:128-164 | whether the scan passes over an item, ends, or shows it |
| Listing.ScanItems | internal/manager/management/result.go:121-227 | the loop shows the page cut out of what passes the filters |
| Listing.ListResults | internal/manager/management/result.go:75-239 | the whole call |
| Expansion.GetResult | cmd/jack/subcommand/job/result/get.go:57-83 | what the recursive expansion prints, or that it failed or went deeper than allowed |
| Query.ListMatching | internal/manager/forwarder/dispatcher.go:172-183 | the listed ids with their readiness |
| Query.GlobMatching | internal/manager/forwarder/dispatcher.go:185-203 | the known nodes matching, or a failure on a bad pattern or no match |
| Query.RegexMatching | internal/manager/forwarder/dispatcher.go:205-223 | likewise, for an anchored regular expression |
| Query.MatchLeaf | internal/manager/forwarder/dispatcher.go:361-408 | whether one node's spec matches or stops the evaluation |
| Query.EvaluateSpecsCondition | internal/manager/forwarder/dispatcher.go:350-412 | the nodes whose spec matches, in any order of the map |
| Query.EvaluateCondition | internal/manager/forwarder/dispatcher.go:286-347 | one condition, by field and operator |
| Query.Retain | internal/manager/forwarder/dispatcher.go:275-279 | deleting in any order leaves exactly the common nodes |
| Query.EvaluateAndGroup | internal/manager/forwarder/dispatcher.go:256-283 | the loop over conditions agrees with evaluating the split conditions |
| Query.MergeGroups | internal/manager/forwarder/dispatcher.go:231-246 | so does the loop over groups |
| Query.QueryMatching | internal/manager/forwarder/dispatcher.go:226-253 | the whole evaluator |
| Inventory.Nodes.constructor | internal/manager/inventory/inventory.go:68-78 | a new registry is empty |
| Inventory.Compare | internal/manager/inventory/compare.go:9-22 | the differing fields in order; none exactly for equal identities |
| Inventory.Find | internal/manager/inventory/check.go:3-19 | found exactly when listed, at its first occurrence |
| Inventory.Nodes.IsRegistered | internal/manager/inventory/check.go:21-31 | accepted under this very identity |
| Inventory.Nodes.AddCandidate | internal/manager/inventory/inventory.go:129-142 | the new registry and the error, if listed or rejected |
| Inventory.Nodes.RemoveCandidate | internal/manager/inventory/inventory.go:144-159 | the new registry and the error |
| Inventory.Nodes.Register | internal/manager/inventory/inventory.go:161-204 | the new registry and which of the errors |
| Inventory.Nodes.DropState | internal/manager/inventory/inventory.go:206-215 | the state of exactly that id is gone |
| Inventory.Nodes.DropAccepted | internal/manager/inventory/inventory.go:217-226 | the binding of exactly that identity is gone |
| Inventory.Nodes.Unregister | internal/manager/inventory/inventory.go:206-245 | the new registry and the error, also when saving fails |
| Inventory.Nodes.Reject | internal/manager/inventory/inventory.go:247-269 | the new registry and the error, also when either save fails |
| Inventory.Nodes.Remove | internal/manager/inventory/inventory.go:271-295 | the new registry and the error, also when either save fails |
| Inventory.Nodes.MarkNodeActive | internal/manager/inventory/inventory.go:297-309 | the state of one id |
| Inventory.Nodes.MarkNodeStateChange | internal/manager/inventory/inventory.go:311-324 | the state of one id |
| Inventory.Nodes.SetSpec | internal/manager/inventory/inventory.go:349-366 | the specs of one id, or the error |
| Inventory.Nodes.GetMatching | internal/manager/inventory/filter.go:26-66 | the selected identities of a list, in order |
| Inventory.Nodes.GetMatchingAccepted | internal/manager/inventory/filter.go:5-24 | the selected accepted identity, at most one |
| AdminCalls.Handshake | internal/manager/server/handshake.go:67-95 | the new registry and the answer of an undisturbed handshake |
| AdminCalls.AcceptNode | internal/manager/management/node.go:73-98 | the new registry and the answer |
| AdminCalls.RejectNode | internal/manager/management/node.go:138-167 | the new registry, the rejected nodes and the errors, in order |
| AdminCalls.RemoveNode | internal/manager/management/node.go:101-131 | the new registry, the removed nodes and the errors, in order |

## Left out

- Goroutine code as code: the scheduler, the sessions and the forwarder's goroutines are machines over their blocking and shared steps, not methods; update in place of their local variables is not modelled.
- gRPC, TLS, sockets and protobuf encoding: a stream is a sequence of messages, a send is an atomic append.
- A failing send on the node's side: the model counts the reply attempt; the manager may still never see it.
- BadgerDB: the store is a sorted map with atomic transactions. Expiry, retries and garbage collection are not modelled, and nothing is said about the time-to-live that rewriting a group drops.
- The order of two transactions of different sessions relative to their receives: storing is part of receiving.
- Real time: durations do not exist; only the order of steps does.
- Shutdown requests and their channels (internal/manager/server/server.go:62-80, 263-270): a session may stop receiving at any moment, which covers every effect they have on a session, but which session a request reaches is not modelled.
- What the spec collector does with the replies it gets (internal/manager/server/server.go:348-369) and when it runs; its requests are part of the system, with the callers' outcomes kept as for a forwarded one.
- The registry file: a save succeeds or fails; reading the file back at start-up is not modelled.
- signatureFromContext (internal/manager/server/handshake.go:24-62): identities are given.
- JSON and dotted access: codecs and spec leaves are parameters; specs are maps from dotted path to printed leaf.
- Text is a sequence of characters; invalid UTF-8 in node ids or queries is not modelled.
- Expansion.GetResult: takes the allowed depth of recursion as a parameter, as a bound for any store; `Expansion.ExpansionEnds` shows which depth is enough. The text of the results is printed by a parameter, and what is printed on errors is not modelled.
- RoutingTables.HandedOverIffInTime: ends with the message on its way into the reply channel; that channel is never full (`RoutingResults.DeliveryNeverWaits`), but the model lets the receiving loop give up all the same.
- Plugins and their loader, the SDK, configuration, permissions, command-line rendering and completion.
