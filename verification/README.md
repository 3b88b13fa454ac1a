# Verified models of xgql's stateful components

xgql answers GraphQL queries about Crossplane resources from caches of the
Kubernetes API. This project models the parts of it that carry state or rewrite
data, in Dafny, and proves what those parts promise:

- **The expiry scheduler** (`ExpiryQueue`, `Cleaners`, `ExpiryRuns`,
  `CleanerLoop`, `LostSignals`, `OneInterval`): a deadline-sorted queue with
  lazy deletion by generation number stands for a plain map from key to pending
  object. Collecting is exact in every state; scheduling agrees with the map
  exactly when no leftover entry is in the way, which deadlines that never
  decrease per key guarantee. The loop hands out every object at most one tick
  and one turn after its deadline unless a signal finds nobody listening; which
  runs suffer from that is given exactly, and so is what wakes the loop again.
- **Live queries** (`Debounce`, `Pipeline`, `Trackers`): the debounce loop loses
  no change and keeps deliveries a throttle apart; event threads, debounce
  loops, response loops, resolvers and the cache lock never deadlock, and left
  alone settle within a computed number of steps; a query is triggered exactly
  by the changes its own reads asked for.
- **Patches and the revision stream** (`JsonDocuments`, `JsonPointers`,
  `PatchCoalescing`, `RevisionStream`, `PatchWire`): JSON documents, JSON pointers (RFC 6901) and
  patch operations (section 4 of RFC 6902). Coalescing a remove and an add into
  a replace preserves the meaning of every patch on every document, failures
  included, and a client that folds the stream follows the server.
- **The spill-to-disk cache** (`BoltCache`, `BoltAgreement`, `BoltTx`): reading
  through zeroed objects gives the object last stored, exactly while the
  transaction read from is current; which runs lose an object and which objects
  a cleanup empties is given exactly; the shared read transaction is counted
  and rolled back correctly.
- **Sessions and resources** (`Sessions`, `Resources`, `ResourceTree`):
  concurrent session creation and removal, the order of concurrently fetched
  resources, and the flat list of the resource tree.

Code that updates fields is a class whose methods are tied to functions on its
state, or a state machine whose steps are those functions; the theorems are
about these functions and hold for every run. Where the code and its comments
disagree the model follows the code: `setZero` keeps only the UID, not the
namespace and name its comment mentions (internal/cache/bbolt_cache.go:472-477);
a session expires after its interval whether it is used or not, although the
comment on the option says that use resets it (internal/clients/clients.go:166-173).

## Results where the code falls short

Each of these is a property one might expect that the code has only under a
condition, which is proved to be the exact one.

- Rescheduling a key earlier and then again can lose or hasten its cleanup:
  `ExpiryRuns.ScheduleAgreesIff`, `RunAgreesIff`, with `LostSchedule` and
  `EarlyCleanup` as instances. One interval for all callers, as the cache has,
  does not rule this out: Schedule reads the clock before it takes the lock
  (internal/cache/cleaner.go:142, 194), so callers side by side can add a key in
  the other order: `OneInterval.InterleavedEarly`. Where reading and adding are
  not interleaved with other calls it does: `SameIntervalNondecreasing`.
- A signal sent while the cleanup loop is busy is lost. Every run is on time
  exactly if no such loss was harmful: `LostSignals.OnTimeIff`,
  `CleanerLoop.DroppedSignalHarmlessIff`. If the turn had emptied the queue the
  loop sleeps, until a call reaches it with a deadline before the head of the
  queue: `OneInterval.LossSleeps`, `RousedIff`. Callers of one interval that are
  not interleaved never make such a call, and then each loss is final:
  `OneLossIsFinal`, with `LostWakeup` as an instance.
- An operation whose value is null, or whose source is the whole document, is
  written without that member and rejected by a reader that follows section 4 of
  RFC 6902: `PatchWire.PatchRoundTripIff`, `WrittenDeliveryIff`, `NullIsLost`.
- A shared read transaction opened before a cleanup does not see it. The read
  fails (`BoltAgreement.ReadAgreesIff`), and if the cleaner took its result the
  next cleanup writes that over the stored object: `ReadKeepsIff`,
  `NothingLostIff`, with `StaleReadCorrupts` as an instance. It cannot happen if
  no reader of a request is in flight across a cleanup: `NoReaderNoSnapshot`.
- A cleanup empties what the cleaner was last handed, which after a read is the
  caller's result: the stored object leaves memory only if it was handed over
  when it was put and nobody read it since: `BoltAgreement.CleanupEmptiesIff`.
- A request that asks for the bucket again after it found none leaves a
  transaction open: `BoltTx.NothingLeftOpenIff`, `AbsentBucketLeaks`. A read
  asks only for a zeroed object, and with atomic cleanups the bucket is there by
  then (`BoltAgreement.BucketIsThere`); it can be absent between the zeroing and
  the first commit (internal/cache/bbolt_cache.go:224-241), a moment that is
  left out below.
- The order of fetched resources depends on timing if two of them share a sort
  key: `Resources.OrderIndependentIff`, `KeysCanCollide`.
- The context and the ticker that a call of `Get` made before it lost the race
  are left behind: the context is never cancelled and the ticker never stopped.
  (The cache made with them was not started.) No other session is left so:
  `Sessions.OrphanIffLostClaim`, `OrphanIsNeverStopped`, with `RaceLeavesOrphan`
  as an instance.

## Model

| member | source | states |
|---|---|---|
| ExpiryQueue.InsertSorted | internal/cache/cleaner.go:213-225 | inserting keeps the queue strictly sorted by (deadline, key) and adds exactly the one entry |
| ExpiryQueue.InsertAtIndex | internal/cache/cleaner.go:197-225 | inserting at the index the search finds is inserting in order |
| ExpiryQueue.AddedView | internal/cache/cleaner.go:188-227 | in every valid state an add changes only its key, to the new object under the effective deadline, or nothing if (deadline, key) repeats; it reports a change exactly if the queue was empty or its least deadline strictly decreased |
| ExpiryQueue.DrainExact | internal/cache/cleaner.go:232-251 | in every valid state collect hands out exactly the objects due, each once and in (deadline, key) order, keeps the rest, and its next wakeup is after now and not after any pending object; an empty queue means no references |
| ExpiryQueue.BatchUnique | internal/cache/cleaner.go:229-231 | the batch due at a time is determined by the pending objects alone |
| Cleaners.Cleaner.Search | internal/cache/cleaner.go:197-202 | the binary search splits the queue into entries before (deadline, key) and the rest |
| Cleaners.Cleaner.Add | internal/cache/cleaner.go:188-227 | search, skip, generation and in-place insertion together do the specified add, and the result tells whether the least deadline strictly decreased |
| Cleaners.Cleaner.Collect | internal/cache/cleaner.go:232-251 | the popping loop drains the queue as specified and reports the next deadline |
| Cleaners.Cleaner.Turn | internal/cache/cleaner.go:165-179 | one turn of the loop collects and sets a wakeup at the next deadline, no sooner than a tick from now, or none |
| ExpiryQueue.RewakeLeast | internal/cache/cleaner.go:173-179 | the wakeup is the least time that is not before the next deadline nor within a tick of parking |
| ExpiryRuns.ScheduleAgreesIff | internal/cache/cleaner.go:81-86 | scheduling acts on the queue as on a plain map exactly if no leftover entry has the deadline without being current or the coming generation with an earlier deadline |
| ExpiryRuns.RunAgreesIff | internal/cache/cleaner.go:81-86 | a run agrees with the plain map throughout exactly if none of its schedules meets such a leftover |
| ExpiryRuns.RunRefines | internal/cache/cleaner.go:74-80 | every run whose deadlines do not decrease per key is the plain map in which the last schedule counts and an equal deadline keeps the entry |
| ExpiryRuns.CollectAfterRun | internal/cache/cleaner.go:229-251 | after such a run collect hands out exactly what the plain map has due, and no other list would do |
| ExpiryRuns.NeverLaterThanRecorded | internal/cache/cleaner.go:188-251 | after any run, decreasing deadlines included, every reference has an entry with its generation at the deadline last recorded, so it is due no later than that |
| ExpiryRuns.LostSchedule | internal/cache/cleaner.go:203-206 | an instance where a schedule is skipped and its object never handed out |
| ExpiryRuns.EarlyCleanup | internal/cache/cleaner.go:209-212 | an instance where a restarted generation makes a leftover entry current and the object is due early |
| CleanerLoop.StepKeepsInvIff | internal/cache/cleaner.go:138-181 | a step keeps a timer due by the first deadline plus a tick and a turn exactly if its signal is delivered or not needed, and hands out objects within that window of their deadlines |
| CleanerLoop.SignalKeepsTimer | internal/cache/cleaner.go:155-179 | a signal leaves the pending timer in place if the turn finds nothing to wait for, and otherwise sets one no sooner than a tick |
| CleanerLoop.EveryObjectInTime | internal/cache/cleaner.go:138-181 | in every run whose deadlines do not decrease per key and without a harmful loss the pending objects are the plain map's, none is overdue by more than a tick and a turn, and wakeups hand out exactly what is due |
| CleanerLoop.EveryObjectIsHanded | internal/cache/cleaner.go:150-181 | once the clock is past its window, an object not scheduled again has been handed to the clean function inside the window |
| CleanerLoop.DroppedSignalHarmlessIff | internal/cache/cleaner.go:143-146 | when a signal meets a busy loop, whatever was lost before, the wakeup bound holds afterwards exactly if the timer about to be set is early enough for the new deadline |
| LostSignals.OnTimeIff | internal/cache/cleaner.go:138-181 | in every run, for any intervals: after each event and however the loop goes on nothing is late, if and only if no signal was lost to harm |
| OneInterval.UninterleavedInTime | internal/cache/cleaner.go:84-86 | the same for callers of one interval whose clock reading and add are not interleaved with other calls |
| OneInterval.RousedIff | internal/cache/cleaner.go:154-164 | a loop without a timer beside pending entries hands out nothing and stays so, unless and until a call reaches it parked with a deadline before the head |
| OneInterval.LossSleeps | internal/cache/cleaner.go:138-181 | callers within one interval, read in any order: a lost signal is harmless exactly if a timer early enough is about to be set, and if none is the loop sleeps beside the new object |
| OneInterval.OneLossIsFinal | internal/cache/cleaner.go:138-181 | callers of one interval that are not interleaved: a signal is lost exactly if it meets a turn that emptied the queue, each loss is harmful, and nothing is handed out ever after although the key stays pending |
| OneInterval.NotWokenUntilRoused | internal/cache/cleaner.go:154-164 | over every run without a call before the head, whatever the intervals, a loop without a timer hands out nothing and keeps what is pending |
| OneInterval.LostWakeup | internal/cache/cleaner.go:143-146 | for every positive interval a run of two calls at that interval whose second signal is lost |
| OneInterval.InterleavedEarly | internal/cache/cleaner.go:138-148 | two callers of one interval reach the queue out of the order of their clock readings; no signal is lost, and a third object is due at the leftover deadline |
| JsonDocuments.RemoveThenAdd | internal/live_query/json_patch.go:62-70 | on every JSON value and pointer, removing and then adding at one place equals replacing there, and they fail together |
| JsonDocuments.ReplaceChangesOnlyTarget | internal/live_query/json_patch.go:32-33 | replace succeeds exactly where something exists, puts the value there, and changes nothing apart from it |
| JsonDocuments.AddAtLookup | internal/live_query/json_patch.go:28-29 | what was added at a pointer is found there, exactly unless it was appended to an array |
| JsonDocuments.RemoveAtExists | internal/live_query/json_patch.go:30-31 | remove succeeds exactly where something exists |
| JsonPointers.ParsedIffRendered | internal/live_query/json_patch.go:40 | a path is parsed to a pointer exactly if it is what RFC 6901 writes for it, escapes included |
| JsonPointers.IndexIffDecimal | internal/live_query/json_patch.go:40 | a token is an array index exactly if it is a number in decimal without leading zeros |
| JsonPointers.LookupMeaning | internal/live_query/json_patch.go:40 | a pointer leads through members by name and elements by decimal index, and nowhere else |
| JsonPointers.PlaceMeaning | internal/live_query/json_patch.go:28-29 | an addition sets a member, inserts before an index, or appends at "-", and fails elsewhere |
| JsonPointers.DropMeaning | internal/live_query/json_patch.go:30-31 | a removal takes out exactly what is there, and later elements move up |
| JsonPointers.ChangesParentOnly | internal/live_query/json_patch.go:28-31 | at any depth an addition or removal replaces the parent by what it becomes, and fails if there is none |
| JsonPointers.BasicOperations | internal/live_query/json_patch.go:27-33 | add, remove and replace on whole documents, root and missing document included |
| JsonPointers.MoveMeaning | internal/live_query/json_patch.go:34-35 | moving is removing and then adding what was there, not to a place below it |
| PatchCoalescing.Coalesce | internal/live_query/json_patch.go:56-72 | the in-place loop ends with a patch of the same meaning on every document, without adjacent remove and add of one path, shorter by the pairs merged, empty exactly if the input is |
| PatchCoalescing.CoalescedSameMeaning | internal/live_query/json_patch.go:56-71 | the coalesced patch does to every document what the patch does, failures included |
| PatchCoalescing.CoalescedNormal | internal/live_query/json_patch.go:56-71 | no adjacent pair is left, although the loop steps past the merged slot |
| PatchCoalescing.CoalescedComesFrom | internal/live_query/json_patch.go:63-68 | each operation of the result is one of the patch or the replace of a removal and an addition at one path |
| PatchCoalescing.CoalescedLength | internal/live_query/json_patch.go:69 | each merge shortens the patch by one and merges do not overlap |
| PatchCoalescing.CoalescedIdempotent | internal/live_query/json_patch.go:56-71 | a second pass changes nothing |
| RevisionStream.LiveQueryStats.Respond | internal/live_query/extension.go:149-173 | a response is sent whole, as a patch, or not at all, and the statistics change exactly when it is sent |
| RevisionStream.LiveQueryStats.Serve | internal/live_query/extension.go:129-175 | one call passes over unchanged responses and ended handlers, rearming once for each of the latter, up to the first response to send |
| RevisionStream.OneResponse | internal/live_query/extension.go:153-173 | a client that agrees with the previous data agrees with the response after what is sent, and a skipped response changes nothing |
| RevisionStream.DeliveredIff | internal/live_query/extension.go:153-173 | given that equal values have an empty diff: a response is skipped exactly if it says nothing new and has no errors, is a patch exactly if its path has other data, and is sent whole otherwise |
| RevisionStream.EveryResponse | internal/live_query/extension.go:153-173 | the same over every run, in terms of the responses alone, so every response with errors is delivered |
| RevisionStream.ClientFollows | internal/live_query/extension.go:129-174 | over every run every patch applies, the client holds the server's previous data, which is the last response of each path, and revisions count deliveries |
| RevisionStream.RevisionCounts | internal/live_query/extension.go:161-170 | the revision of a patch is the positive number of deliveries its path had before |
| PatchWire.WireForm | internal/live_query/json_patch.go:38-43 | an operation is written as its op, path, and nonempty from and value, and nothing else |
| PatchWire.ReadIff | internal/live_query/json_patch.go:27-36 | what is read has an op and a path, and a value or source where section 4 of RFC 6902 asks for one |
| PatchWire.OperationRoundTripIff | internal/live_query/json_patch.go:38-43 | an operation written with empty members omitted is read back unless an omitted member is required, and then it is rejected |
| PatchWire.PatchRoundTripIff | internal/live_query/json_patch.go:38-43 | the same for patches of any length |
| PatchWire.WrittenDeliveryIff | internal/live_query/extension.go:158-164 | a written delivery brings the client to the new data exactly if it is whole or every operation of the diff survives being written |
| PatchWire.CoalescedSurvives | internal/live_query/json_patch.go:56-71 | coalescing changes nothing about whether a patch survives being written |
| PatchWire.NullIsLost | internal/live_query/json_patch.go:42 | a correct patch that sets a field to null is rejected once written |
| Debounce.LiveQuery.Receive | internal/live_query/runtime.go:66-86 | the branches for fire and rearm do the specified steps |
| Debounce.LiveQuery.TimerExpired | internal/live_query/runtime.go:87-94 | an expired timer clears armed, fired and timer before the send |
| Debounce.RunRemembers | internal/live_query/runtime.go:47-100 | in every run: fired or a timer exactly if a fire was accepted since the last expiry, armed or a timer exactly if a rearm was, never armed and fired, and the timer due one throttle after the later of the first of each |
| Debounce.SinceMeaning | internal/live_query/runtime.go:68-86 | what is counted from is the first fire and the first rearm accepted since the last expiry |
| Debounce.ThrottleHolds | internal/live_query/runtime.go:47-48 | any two deliveries of a run are at least a throttle apart |
| Debounce.NoLostChange | internal/live_query/runtime.go:54-60 | every accepted fire is followed by a delivery, or one is about to be made, or the loop still remembers it |
| Debounce.RememberedIsDelivered | internal/live_query/runtime.go:77-99 | in every run that is not done, with prompt timer and receiver, a delivery follows exactly one throttle after the later of the first fire and the first rearm |
| Debounce.DeliveryIsPossible | internal/live_query/runtime.go:77-99 | from every run that remembers a fire, also without a rearm, a rearm and one throttle lead to a delivery and the start state |
| Pipeline.StepInv | internal/live_query/runtime.go:49-127 | every step of the pipeline keeps that a query's response loop waits exactly while the query is rearmed and undelivered, and who holds the lock |
| Pipeline.TriggerNotStuck | internal/cache/live_query.go:200-223 | a trigger issued under the cache lock can proceed after at most one delivery, without the lock |
| Pipeline.HandshakesNotStuck | internal/live_query/runtime.go:94-98 | a rearm is never held up, and a delivery always has a receiver |
| Pipeline.NoDeadlock | internal/live_query/extension.go:129-147 | whoever is blocked, some step of the pipeline itself is possible; a thread that can take the lock can take it for any broadcast |
| Pipeline.RankDecreases | internal/live_query/extension.go:129-147 | each step of the pipeline itself uses up some of a computed bound |
| Pipeline.EveryWaitEnds | internal/cache/live_query.go:213-223 | left alone the pipeline stops within the bound, however its steps interleave, with nobody blocked |
| Pipeline.ReachableNeverDeadlocks | internal/live_query/runtime.go:49-127 | no state reachable by any run of any number of queries and event threads is a deadlock |
| Pipeline.ChangeKept | internal/live_query/runtime.go:54-60 | a trigger makes a change pending, and only a new run of the handler or the end of the query settles it |
| Pipeline.ChangeKeptOverRun | internal/live_query/runtime.go:54-60 | a pending change stays pending over any run without a new run of its handler or its cancellation |
| Pipeline.EventReachesAll | internal/cache/live_query.go:200-223 | when a broadcast releases the lock each live query on its list has a change pending, or was run again or cancelled since |
| Pipeline.EventIsBroadcast | internal/cache/live_query.go:200-223 | an event is broadcast before the pipeline settles |
| Pipeline.EndRearms | internal/live_query/extension.go:141-147 | after the end of a handler the pipeline settles with its query rearmed, and with the throttle timer running if a change is pending |
| Pipeline.ExpiryDelivers | internal/live_query/runtime.go:87-98 | an expired timer can be delivered at once, and then the handler runs again |
| Pipeline.CancelIsFinal | internal/live_query/runtime.go:88-98 | nothing is delivered for a cancelled query, its loop has ended, and its response loop does not go on waiting |
| Pipeline.ResolversCounted | internal/cache/live_query.go:111-112 | in every run a handler sends or ends only when each of its resolvers has had the lock once |
| Pipeline.LockExcludes | internal/cache/live_query.go:111-112 | the lock is held by at most one at a time over every run |
| Trackers.OidsMeaning | internal/cache/live_query.go:278-318 | a tracker's sets are the lists ever asked for, and otherwise the objects tracked and not deleted since |
| Trackers.DecisionMeaning | internal/cache/live_query.go:247-292 | the decision to notify is the one the history of calls justifies |
| Trackers.LiveQueryTracker.Track | internal/cache/live_query.go:295-310 | tracking adds the object unless the list is tracked |
| Trackers.LiveQueryTracker.Observe | internal/cache/live_query.go:248-292 | create, update and delete decide and update the sets as specified |
| Trackers.LiveQueryCache.TrackObject | internal/cache/live_query.go:90-131 | a read by a live query registers the kind's handler exactly once, undoes a failed registration, and changes only its own query's tracker |
| Trackers.LiveQueryCache.Broadcast | internal/cache/live_query.go:200-223 | a broadcast drops exactly the dead queries, tells every live one, triggers each it concerns once and no other, and leaves what the step of the run theorem says |
| Trackers.BroadcastAfterRun | internal/cache/live_query.go:86-131 | after any run of reads and events a broadcast concerns a query exactly if it listed the kind or got the object, since it was last dropped and, for an object, since that was last deleted |
| BoltCache.BBoltCache.Cleanup | internal/cache/bbolt_cache.go:216-243 | the loop writes each object of the batch under its UID and zeroes it, and nothing else |
| BoltCache.BBoltCache.RehydrateObject | internal/cache/bbolt_cache.go:366-399 | the object is scheduled, and filled in from the request's transaction if it is zeroed, which begins the transaction |
| BoltCache.ZeroedKeepsUid | internal/cache/bbolt_cache.go:472-477 | zeroing keeps the UID and nothing else |
| BoltCache.BBoltCache.Get | internal/cache/bbolt_cache.go:260-268 | the result is copied out and rehydrated; an object the wrapped cache lacks changes nothing |
| BoltCache.BBoltCache.List | internal/cache/bbolt_cache.go:402-439 | items are rehydrated in order up to the first that cannot be, with the effects of the reads up to it and no others |
| BoltAgreement.ReadAgreesIff | internal/cache/bbolt_cache.go:366-399 | a read gives the object last put exactly if it is whole in memory or the transaction read from has what was last written |
| BoltAgreement.CleanedKeeps | internal/cache/bbolt_cache.go:216-243 | a cleanup keeps that every stored object is whole or zeroed with its contents in the database, and that no reference is to a zeroed or outdated object that matters |
| BoltAgreement.CacheAgrees | internal/cache/bbolt_cache.go:257-268 | after every run in which no cleanup commits under an open shared transaction, whatever is read is the object last put for its UID |
| BoltAgreement.ListAgreesAfterRun | internal/cache/bbolt_cache.go:402-439 | after every run in which no cleanup commits under an open shared transaction, a list gives the objects last put, in the wrapped cache's order |
| BoltAgreement.ListMeaning | internal/cache/bbolt_cache.go:402-439 | a list succeeds exactly if each of its items can be read, and gives what each read gives, in order |
| BoltAgreement.ListStops | internal/cache/bbolt_cache.go:402-439 | exactly the items up to the first that cannot be read are copied out |
| BoltAgreement.NoReaderNoSnapshot | internal/cache/bbolt_cache.go:294-299 | no cleanup commits under an open transaction if none commits while a reader of a request is between txOnce and done |
| BoltAgreement.TransactionLife | internal/cache/bbolt_cache.go:300-346 | a shared transaction begins with the first read of a zeroed object for its request, keeps its view, and ends when the last reader leaves |
| BoltAgreement.ReferenceIsLastHanded | internal/cache/bbolt_cache.go:366-368 | after every run the cleaner refers to what it was last handed, by a put or a read, unless that was cleaned |
| BoltAgreement.ReadKeepsIff | internal/cache/bbolt_cache.go:366-399 | a read keeps that nothing is lost exactly if the cleaner skips its result or the transaction read from is current for it |
| BoltAgreement.UnsoundReadLoses | internal/cache/bbolt_cache.go:366-399 | after any other read the next cleanup writes its result over the object, and no reader gets the object last put |
| BoltAgreement.NothingLostIff | internal/cache/bbolt_cache.go:216-243 | in every run, with whatever transactions open: whatever the next cleanup takes after any step, a new reader gets the object last put, if and only if every read whose result was scheduled was fresh |
| BoltAgreement.StaleReadCorrupts | internal/cache/bbolt_cache.go:366-399 | a run of two readers of one request: the first reads a spilled object, a second object is spilled meanwhile, the second reader fails to read that, and the next cleanup loses it |
| BoltAgreement.CleanupEmptiesIff | internal/cache/bbolt_cache.go:366-368 | after every run a cleanup empties a stored object exactly if it was handed over when put and not read since; otherwise it empties what else it was handed, the result of a read or an object put earlier |
| BoltAgreement.BucketIsThere | internal/cache/bbolt_cache.go:383-390 | a read that needs the database finds its object there |
| BoltTx.BoltTxCtx.GetBucket | internal/cache/bbolt_cache.go:314-330 | the result is a bucket exactly if one is shared or there, the shared one first; one that is there is begun once and shared, and without one each call begins again |
| BoltTx.BoltTxCtx.Done | internal/cache/bbolt_cache.go:331-344 | the last reader rolls the transaction back and clears the shared variables |
| BoltTx.EveryInterleaving | internal/cache/bbolt_cache.go:300-346 | in every interleaving the counter is the number of readers, no reader holds a bucket rolled back, no transaction is rolled back twice, and the last reader resets the round |
| BoltTx.BucketIsGiven | internal/cache/bbolt_cache.go:314-330 | in every interleaving a reader that asks for a bucket that is there holds one of an open transaction, the shared one or one begun for it and shared from then on |
| BoltTx.OpenCount | internal/cache/bbolt_cache.go:318-328 | the open transactions are the shared one and those begun over |
| BoltTx.NothingLeftOpenIff | internal/cache/bbolt_cache.go:318-328 | after the last reader every transaction has been rolled back exactly once, if and only if no call asked for the bucket again after it was absent |
| BoltTx.BucketPresent | internal/cache/bbolt_cache.go:295-299 | with the bucket there at most one transaction is open, and none after the last reader |
| BoltTx.AbsentBucketLeaks | internal/cache/bbolt_cache.go:314-330 | two readers that both find no bucket leave a transaction open for good |
| Sessions.GetReturnsActive | internal/clients/clients.go:232-337 | in every interleaving a successful Get returns a session that was active under its id during the call |
| Sessions.LookupFinds | internal/clients/clients.go:237-244 | the first lookup returns the active session and makes no other, or goes on to make one |
| Sessions.CallOutcomes | internal/clients/clients.go:246-337 | in every interleaving a call whose cache synced returns the session it made, and one whose cache did not, or that could not make one, fails |
| Sessions.RemovalForgets | internal/clients/clients.go:339-349 | in every interleaving a removal, by a session's goroutine or after a failed sync, cancels, stops and forgets whatever session is active under the id, and touches nothing else |
| Sessions.OnlyRemovalEnds | internal/clients/clients.go:339-349 | nothing else ends an active session |
| Sessions.ActiveSessionsRun | internal/clients/clients.go:339-349 | active sessions run, and those that stopped being active were cancelled and stopped |
| Sessions.EntriesAreNotOverwritten | internal/clients/clients.go:290-301 | an entry stays, or is removed and its session stopped |
| Sessions.ClaimOrphansIff | internal/clients/clients.go:285-299 | the second lookup leaves the session just made running without an owner exactly if the id is taken, and the call returns the session that has it |
| Sessions.OrphanIffLostClaim | internal/clients/clients.go:285-299 | in every interleaving the sessions left behind are exactly those whose claim was lost |
| Sessions.EverySession | internal/clients/clients.go:285-349 | in every interleaving each session is stopped, which is exactly if it was active and no longer is, or runs and is held by a call, active, or left behind, only one of these |
| Sessions.RaceLeavesOrphan | internal/clients/clients.go:232-299 | a run of two calls in which the second session is left behind |
| Sessions.OrphanIsNeverStopped | internal/clients/clients.go:285-299 | nothing that happens later cancels that session or stops its ticker |
| Sessions.Cache.Claim | internal/clients/clients.go:290-301 | insertion happens exactly if the id is free, and the session active afterwards is returned |
| Sessions.Cache.Remove | internal/clients/clients.go:339-349 | whatever session is active under the id is cancelled, stopped and forgotten |
| Ordering.LessMeaning | internal/graph/model/sort.go:41-43 | strings are ordered by the first character that differs, a prefix before what it begins |
| Resources.JoinParts | internal/graph/model/sort.go:17-19 | a key is API version, kind, namespace and name, in this order |
| Resources.KubernetesResourceConnection.Stable | internal/graph/model/sort.go:40-46 | adjacent swaps under Less give the stable sort |
| Resources.SortStableCorrect | internal/graph/model/sort.go:40-46 | the result is sorted by key, has the same nodes, and keeps nodes of one key in order |
| Resources.StableUnique | internal/graph/resolvers/composite.go:247 | there is only one such result |
| Resources.CollectResources | internal/graph/resolvers/composite.go:203-248 | the nodes appended under the mutex, sorted; each resource as often as it was fetched, and the count is the number of fetches that succeeded |
| Resources.ResultCounts | internal/graph/resolvers/composite.go:207-248 | for every order in which the fetches finish: sorted, each resource as often as it was fetched, and nothing else |
| Resources.OrderIndependentIff | internal/graph/resolvers/composite.go:207-248 | the list is the same for all orders exactly if fetched resources that share a sort key are equal |
| Resources.KeysCanCollide | internal/graph/model/sort.go:17-19 | different identities can share a sort key |
| ResourceTree.EveryRun | internal/graph/resolvers/query.go:54-129 | every run of the concurrent walk is all or nothing: the preorder list of the whole tree with its size as the count, or empty, if and only if an error was recorded in the walk or elsewhere in the request |
| ResourceTree.ResultRebuilds | internal/graph/resolvers/query.go:54-112 | the tree can be rebuilt from every nonempty result: subtrees are contiguous and parents unambiguous, repeated resources included |
| ResourceTree.ResultParents | internal/graph/resolvers/query.go:54-112 | the root comes first without a parent and every other entry after its parent |
| ResourceTree.ResultFollows | internal/graph/resolvers/query.go:54-112 | in the tree rebuilt from a nonempty result each composite has its composed resources below it in order, each claim its composite, and nothing else has any |

## Left out

- Generation numbers are unbounded; the source's wrap after 2^64 schedules of one key.
- Failed cleanups, database errors other than an absent bucket or key and a failed begin: the cleaner loop ends and with it the cache.
- A cleanup is one atomic step; the moment between zeroing in memory and the commit is not modelled.
- The clean function's time is bounded by a parameter, and a parked loop takes a signal at once. Debounce: promptness of timer and receiver is a hypothesis where stated.
- A call of Schedule reaches the queue before or at its deadline, not a whole interval after it read the clock; `OneInterval` assumes before. Its clock reading is part of the call, as the time left, so `UninterleavedInTime`, `OneLossIsFinal` and `LostWakeup` are about callers whose reading and add no other call comes between.
- A negative interval, on which Schedule panics, and a second Start, which is refused, are not modelled.
- Keys of the cleaner are strings ordered as the cache uses them, one instance of the source's ordered type parameter.
- BoltCache: reusing one result object for several reads, or changing a result, is excluded; each read gets memory of its own. The wrapped cache copies the object it has into the caller's, as `Get` of the source relies on. Deep copies equal what they copy, and the GVK set on them is not modelled.
- A read of the spill-to-disk cache is one atomic step, from the wrapped cache's answer to rehydration.
- BoltTx: the private transaction of a request without a shared context, which begins and rolls back once.
- Trackers: kinds and informers that cannot be determined end a read before it has an effect; `added` stands for the informer's answer.
- Pipeline: cancelling a query ends its debounce loop in the same step, where the loop of the source may take further actions first; the order of a broadcast is chosen at its start; a tracker's own lock, never held across a channel operation, is part of the step that uses it.
- Events between the wrapped cache's answer and the tracker's registration: the code promises nothing for them.
- RevisionStream: the differ is any function whose patch leads from the one value to the other and, where stated, is empty between equal values; malformed response data, which panics, is not modelled.
- JsonDocuments: strings are sequences of characters and numbers are reals; duplicate object members cannot occur.
- Sessions: building the HTTP client, cache and client are one step that succeeds or fails; tickers and contexts are flags.
- ResourceTree: references have no cycles, as the code assumes; request timeouts are outside the walk, and errors recorded elsewhere in the request, the fetch of the root included, are one flag.
- Resources: the standard library's block merging beyond small lists, which by `Resources.StableUnique` cannot change the result.
- Authentication, HTTP and GraphQL plumbing, model conversions, reference identifiers, event limits and version picking.
