# logbk-android analytics core, modelled in Dafny

This project models the core of the logbk-android analytics library. Applications call
`LogbookAPI.track` with an event name and properties. The library adds the time and the
distinct id, and hands the event to `AnalyticsMessages`. That worker stores each event in a
SQLite table (`LBDbAdapter`). It sends the table in batches of at most 50 rows to the
tracker endpoint, then deletes what was delivered or schedules a retry. `LBConfig` reads the
settings from the application's metadata. `PersistentIdentity` keeps the super properties,
the distinct id and the referrer properties in shared preferences. The in-app update side
is modelled too:
- `DecideUpdates` queues notifications not seen before;
- `DecideChecker` drops destroyed update holders;
- `UpdateDisplayState` is a global lock that lets one proposal be displayed at a time and
  times out after twelve hours. Its `AnswerMap` is written to and read from a parcel.

Modules and files:

| file | module | models |
|---|---|---|
| `common.dfy` | `Common` | option values, Android contexts, Java's truncating division |
| `props.dfy` | `Props` | JSON objects as maps, `put` and the property-copy loops |
| `event_store.dfy` | `EventStore` | the events table and the `LBDbAdapter` class |
| `config.dfy` | `Configuration` | `LBConfig` |
| `dispatch.dfy` | `Dispatch` | the worker's handler, one message at a time, as functions on a `Worker` value |
| `analytics_messages.dfy` | `AnalyticsWorker` | `AnalyticsMessages` as a class tied to those functions, the url loop, `getInstance` |
| `identity.dfy` | `Identity` | `PersistentIdentity` as functions on its state |
| `persistent_identity.dfy` | `IdentityStore` | `PersistentIdentity` as a class tied to those functions |
| `logbook_api.dfy` | `LogbookApi` | `LogbookAPI.track`, `flush`, `getInstance` |
| `decide.dfy` | `Decide` | `DecideUpdates` and `DecideChecker` |
| `display_state.dfy` | `UpdateDisplay` | the display lock and `AnswerMap` |

Wherever the source changes state in place, the model has a class. Its methods are proved
to move from `State()` to a function of the old state. The properties are proved as lemmas
about those functions. Loops are kept as loops, with invariants:
- the cursor loop of `generateDataString`;
- the url loop of `sendData`;
- the put loops;
- the report loop of `reportResults`;
- the removal loop of `runDecideChecks`;
- the parcel loops.

The environment enters as parameters:
- the clock `now`;
- whether SQLite and shared-preference operations complete;
- the outcome of each HTTP request;
- the device's default event properties;
- whether the device is online;
- a runtime exception while a message is handled;
- the id that `UUID.randomUUID` would generate.

Two places where the code differs from what a reader might expect are modelled as the code
behaves:
- A failed request that is retried is rescheduled even when the flush interval is negative
  (`Dispatch.RetryIgnoresInterval`).
- A malformed url deletes the batch only when it is the first url tried
  (`Dispatch.MalformedAfterIOFailureKeeps`).

## Model

| member | source | states |
|---|---|---|
| Common.TruncDiv | src/main/java/net/p_lucky/logbk/android/lbmetrics/AnalyticsMessages.java:395 | Java's truncating `/`: for a non-negative dividend the quotient times the divisor lies within one divisor below it, for a negative one within one divisor above it |
| Props.Put | src/main/java/net/p_lucky/logbk/android/lbmetrics/LogbookAPI.java:152-153 | `JSONObject.put`: the key takes the value, a null value removes the key, every other key is unchanged |
| Props.PutEachOverrides | src/main/java/net/p_lucky/logbk/android/lbmetrics/AnalyticsMessages.java:374-379 | a put loop over keys taken in any order yields the destination overridden by exactly the visited keys of the source |
| Props.PutEachOfAllKeys | src/main/java/net/p_lucky/logbk/android/lbmetrics/AnalyticsMessages.java:374-379 | visiting every key of the source yields `dest + src`, whatever the iteration order |
| Props.PutAll | src/main/java/net/p_lucky/logbk/android/lbmetrics/LogbookAPI.java:155-161 | the copy loop ends with `dest + src`: every source key carries its source value, every other key keeps its value |
| Props.PutAbsent | src/main/java/net/p_lucky/logbk/android/lbmetrics/PersistentIdentity.java:127-136 | the `has`-guarded copy loop ends with `src + dest`: a value already present is never replaced |
| EventStore.Insert | src/main/java/net/p_lucky/logbk/android/lbmetrics/LBDbAdapter.java:106-142 | a completed insert appends one row at the end with a larger id than every row, stamped `now`, and returns the new row count; a SQLite failure deletes the file and returns -1; well-formedness is kept |
| EventStore.Surviving | src/main/java/net/p_lucky/logbk/android/lbmetrics/LBDbAdapter.java:154 | the rows the DELETE leaves are exactly the rows its WHERE clause does not match, in their order, with ids still ascending |
| EventStore.Cleanup | src/main/java/net/p_lucky/logbk/android/lbmetrics/LBDbAdapter.java:149-190 | both `cleanupEvents` forms remove exactly the matching rows and keep the id counter; a SQLite failure deletes the file; well-formedness is kept |
| EventStore.InsertByTime | src/main/java/net/p_lucky/logbk/android/lbmetrics/LBDbAdapter.java:213-214 | inserting one row into the query order adds exactly that row (as a multiset) |
| EventStore.InsertByTimeSorted | src/main/java/net/p_lucky/logbk/android/lbmetrics/LBDbAdapter.java:213-214 | inserting into a list in query order keeps it in query order |
| EventStore.SortByTime | src/main/java/net/p_lucky/logbk/android/lbmetrics/LBDbAdapter.java:213-214 | `ORDER BY created_at ASC`: a permutation of the rows sorted by creation time, ties by id |
| EventStore.Cursor | src/main/java/net/p_lucky/logbk/android/lbmetrics/LBDbAdapter.java:213-214 | `LIMIT 50`: the cursor visits min(50, n) rows of the table, in query order |
| EventStore.CursorReadsOldest | src/main/java/net/p_lucky/logbk/android/lbmetrics/LBDbAdapter.java:213-214 | the visited rows are a sub-multiset of the table (no row repeated more often than stored), and every row not visited comes after all of them in query order: the oldest rows are read first |
| EventStore.Parsed | src/main/java/net/p_lucky/logbk/android/lbmetrics/LBDbAdapter.java:217-227 | rows whose data does not parse are skipped; the result is empty exactly when no visited row parses |
| EventStore.SortedPrefixIsOldest | src/main/java/net/p_lucky/logbk/android/lbmetrics/LBDbAdapter.java:213-214 | a prefix of the rows in query order is a sub-multiset of the table, and every row after it is read after every row in it |
| EventStore.ParsableAt | src/main/java/net/p_lucky/logbk/android/lbmetrics/LBDbAdapter.java:217-227 | the positions of the visited rows whose data parses, strictly increasing, and no parsable position left out |
| EventStore.ParsedInOrder | src/main/java/net/p_lucky/logbk/android/lbmetrics/LBDbAdapter.java:217-227 | the parsed objects are one per parsable row, each the object of that row, in the order the rows are visited |
| EventStore.ParsedMembers | src/main/java/net/p_lucky/logbk/android/lbmetrics/LBDbAdapter.java:217-227 | an object is in the result exactly when some visited row holds it |
| EventStore.ReadBatchShape | src/main/java/net/p_lucky/logbk/android/lbmetrics/LBDbAdapter.java:205-253 | a batch holds between 1 and 50 objects, exactly the objects of the parsable rows the cursor visits (the 50 oldest, by `CursorReadsOldest`), and its watermark is the id of the last row visited, a row of the table; nothing is returned exactly when the read fails or no visited row parses |
| EventStore.SortedIsFixed | src/main/java/net/p_lucky/logbk/android/lbmetrics/LBDbAdapter.java:213-214 | rows already in query order are read in table order |
| EventStore.SurvivingSuffix | src/main/java/net/p_lucky/logbk/android/lbmetrics/LBDbAdapter.java:154 | when the cut matches exactly a prefix of the rows, the rows left are the suffix |
| EventStore.BatchIsIdPrefix | src/main/java/net/p_lucky/logbk/android/lbmetrics/LBDbAdapter.java:205-219 | with a clock that never runs backwards the batch is the first min(50, n) rows by id, and deleting up to its watermark removes exactly those rows |
| EventStore.SkewedClockResends | src/main/java/net/p_lucky/logbk/android/lbmetrics/LBDbAdapter.java:213-219 | with a clock that ran backwards, the later row is read first, the watermark is the earlier row's id, and the later row survives the delete: it is sent again |
| EventStore.DeleteThenAddReadsOne | src/main/java/net/p_lucky/logbk/android/lbmetrics/LBDbAdapter.java:134 | after the file is deleted nothing is read, and one completed insert is read back alone with id 1 |
| EventStore.EventDb.constructor | src/main/java/net/p_lucky/logbk/android/lbmetrics/LBDbAdapter.java:94-96 | the adapter opens over the stored table |
| EventStore.EventDb.DeleteDatabase | src/main/java/net/p_lucky/logbk/android/lbmetrics/LBDbAdapter.java:66-69 | deleting the file leaves no row and a reset id counter |
| EventStore.EventDb.AddJson | src/main/java/net/p_lucky/logbk/android/lbmetrics/LBDbAdapter.java:106-142 | the table and the count become those of `Insert`; well-formedness is kept |
| EventStore.EventDb.CleanupEventsById | src/main/java/net/p_lucky/logbk/android/lbmetrics/LBDbAdapter.java:149-166 | the table becomes that of `Cleanup` by id watermark |
| EventStore.EventDb.CleanupEventsByTime | src/main/java/net/p_lucky/logbk/android/lbmetrics/LBDbAdapter.java:173-190 | the table becomes that of `Cleanup` by creation time |
| EventStore.EventDb.DeleteDb | src/main/java/net/p_lucky/logbk/android/lbmetrics/LBDbAdapter.java:192-194 | the table becomes empty with a reset counter |
| EventStore.EventDb.GenerateDataString | src/main/java/net/p_lucky/logbk/android/lbmetrics/LBDbAdapter.java:205-253 | the cursor loop returns the batch `ReadBatch` describes and leaves the table unchanged |
| Configuration.ReadConfig | src/main/java/net/p_lucky/logbk/android/lbmetrics/LBConfig.java:78-90 | an unknown package is the only error; a null bundle reads as an empty one |
| Configuration.MissingKeysGiveDefaults | src/main/java/net/p_lucky/logbk/android/lbmetrics/LBConfig.java:33-40 | with no key present every setting is its default: 40 rows, 60000 ms, 432000000 ms, the tracker url, no debug |
| Configuration.NullBundleGivesDefaults | src/main/java/net/p_lucky/logbk/android/lbmetrics/LBConfig.java:82-86 | a null metadata bundle yields the default configuration |
| Configuration.PresentKeysKept | src/main/java/net/p_lucky/logbk/android/lbmetrics/LBConfig.java:30-41 | for every metadata bundle, each setting is the value under its key when that value has the setting's type, and its default when the key is absent or holds another type |
| Configuration.MetaDataRoundTrip | src/main/java/net/p_lucky/logbk/android/lbmetrics/LBConfig.java:30-41 | every configuration is reached from the manifest: reading the metadata that sets each of its keys gives it back |
| Configuration.ConfigHolder.GetInstance | src/main/java/net/p_lucky/logbk/android/lbmetrics/LBConfig.java:19-28 | the first successful call builds the configuration and every later call returns that same one; a throwing call caches nothing |
| Dispatch.PrepareEventObject | src/main/java/net/p_lucky/logbk/android/lbmetrics/AnalyticsMessages.java:370-382 | the event object: `event` is the name (absent for a null name) over everything; caller properties override `token`, which overrides the device defaults |
| Dispatch.PrepareEventLoop | src/main/java/net/p_lucky/logbk/android/lbmetrics/AnalyticsMessages.java:374-379 | the key-by-key put loop, in any order, builds the same object |
| Dispatch.UpdateFlushFrequency | src/main/java/net/p_lucky/logbk/android/lbmetrics/AnalyticsMessages.java:388-403 | the flush is counted and its time recorded; from the second flush on, the new average times the count brackets the total flush time as truncating division does |
| Dispatch.AverageStaysBetween | src/main/java/net/p_lucky/logbk/android/lbmetrics/AnalyticsMessages.java:392-395 | with a clock that never runs backwards the new average stays between the bounds of the old average and the new interval |
| Dispatch.SecondFlushHalvesInterval | src/main/java/net/p_lucky/logbk/android/lbmetrics/AnalyticsMessages.java:388-403 | because the first flush is counted with average 0, two flushes `d` apart give average `d / 2` |
| Dispatch.Delivery | src/main/java/net/p_lucky/logbk/android/lbmetrics/AnalyticsMessages.java:272-305 | the url loop stops at the first request that does not end in an I/O error; events are deleted exactly when that last request returned, or when the first url was malformed or ran out of memory |
| Dispatch.PostsTo | src/main/java/net/p_lucky/logbk/android/lbmetrics/AnalyticsMessages.java:274-276 | one request per url attempted, each carrying the same batch |
| Dispatch.RunMessage | src/main/java/net/p_lucky/logbk/android/lbmetrics/AnalyticsMessages.java:156-165 | a dead worker drops the message; a live one appends it to its queue |
| Dispatch.FaultKills | src/main/java/net/p_lucky/logbk/android/lbmetrics/AnalyticsMessages.java:231-242 | a runtime exception while handling kills the worker, empties its queue and delayed flushes, and keeps only the store opening |
| Dispatch.StepKeepsHalted | src/main/java/net/p_lucky/logbk/android/lbmetrics/AnalyticsMessages.java:156-165 | no input gives a dead worker a message to handle |
| Dispatch.DeadIsPermanent | src/main/java/net/p_lucky/logbk/android/lbmetrics/AnalyticsMessages.java:150-165 | once dead, the worker stays dead and no sequence of inputs changes it |
| Dispatch.KillWorkerIgnored | src/main/java/net/p_lucky/logbk/android/lbmetrics/AnalyticsMessages.java:209-211 | KILL_WORKER reaches the unexpected-message branch: the worker only opens its store and stays alive |
| Dispatch.BulkLimitFlushesOnce | src/main/java/net/p_lucky/logbk/android/lbmetrics/AnalyticsMessages.java:215-218 | an enqueue reaching the bulk limit flushes once in the same step: one count, at most one request |
| Dispatch.FlushShape | src/main/java/net/p_lucky/logbk/android/lbmetrics/AnalyticsMessages.java:246-255 | a flush counts once, sends at most one request, adds at most one delayed flush and leaves the queue and liveness alone |
| Dispatch.BelowLimitSchedules | src/main/java/net/p_lucky/logbk/android/lbmetrics/AnalyticsMessages.java:219-230 | below the bulk limit a stored event adds a delayed flush exactly when none is pending and the interval is not negative, and sends nothing |
| Dispatch.FailedAppendSchedulesNothing | src/main/java/net/p_lucky/logbk/android/lbmetrics/AnalyticsMessages.java:192-219 | a failed insert wipes the store and reports -1, so nothing is scheduled or sent |
| Dispatch.FlushMessageFlushesOnce | src/main/java/net/p_lucky/logbk/android/lbmetrics/AnalyticsMessages.java:205-208 | FLUSH_QUEUE runs exactly one flush and nothing after it |
| Dispatch.NoBatchNoEffect | src/main/java/net/p_lucky/logbk/android/lbmetrics/AnalyticsMessages.java:246-261 | offline or with no batch, sending changes nothing |
| Dispatch.DeleteOrRetry | src/main/java/net/p_lucky/logbk/android/lbmetrics/AnalyticsMessages.java:272-315 | with a batch, one request is sent; any outcome but an I/O error deletes the rows up to the watermark; an I/O error keeps the store and schedules a retry unless a flush is pending |
| Dispatch.RetryIgnoresInterval | src/main/java/net/p_lucky/logbk/android/lbmetrics/AnalyticsMessages.java:312-314 | the retry is scheduled even with a negative flush interval, which stops the enqueue path from scheduling |
| Dispatch.MalformedAfterIOFailureKeeps | src/main/java/net/p_lucky/logbk/android/lbmetrics/AnalyticsMessages.java:272-305 | with two urls, an I/O error then a malformed url keeps the batch; a malformed single url deletes it |
| AnalyticsWorker.AnalyticsMessages.constructor | src/main/java/net/p_lucky/logbk/android/lbmetrics/AnalyticsMessages.java:40-44 | a new live worker over the stored table, with nothing queued and the initial flush statistics |
| AnalyticsWorker.AnalyticsMessages.IsDead | src/main/java/net/p_lucky/logbk/android/lbmetrics/AnalyticsMessages.java:92-94 | whether the handler is gone |
| AnalyticsWorker.AnalyticsMessages.RunMessage | src/main/java/net/p_lucky/logbk/android/lbmetrics/AnalyticsMessages.java:156-165 | the fields change as `Dispatch.RunMessage` says |
| AnalyticsWorker.AnalyticsMessages.EventsMessage | src/main/java/net/p_lucky/logbk/android/lbmetrics/AnalyticsMessages.java:68-73 | posts exactly one ENQUEUE_EVENTS message |
| AnalyticsWorker.AnalyticsMessages.PostToServer | src/main/java/net/p_lucky/logbk/android/lbmetrics/AnalyticsMessages.java:75-80 | posts exactly one FLUSH_QUEUE message |
| AnalyticsWorker.AnalyticsMessages.HardKill | src/main/java/net/p_lucky/logbk/android/lbmetrics/AnalyticsMessages.java:82-87 | posts exactly one KILL_WORKER message |
| AnalyticsWorker.AnalyticsMessages.UpdateFlushFrequency | src/main/java/net/p_lucky/logbk/android/lbmetrics/AnalyticsMessages.java:388-403 | the statistics change as `Dispatch.UpdateFlushFrequency` says |
| AnalyticsWorker.AnalyticsMessages.SendData | src/main/java/net/p_lucky/logbk/android/lbmetrics/AnalyticsMessages.java:257-317 | store, requests and delayed flushes change as `Dispatch.SendData` says |
| AnalyticsWorker.AnalyticsMessages.SendAllData | src/main/java/net/p_lucky/logbk/android/lbmetrics/AnalyticsMessages.java:246-255 | as `Dispatch.SendAllData`: nothing offline, else a send to the events endpoint |
| AnalyticsWorker.AnalyticsMessages.OpenAdapter | src/main/java/net/p_lucky/logbk/android/lbmetrics/AnalyticsMessages.java:186-189 | the first message opens the store and drops rows older than the expiration period |
| AnalyticsWorker.AnalyticsMessages.Flush | src/main/java/net/p_lucky/logbk/android/lbmetrics/AnalyticsMessages.java:205-208 | as `Dispatch.Flush`: update the statistics, then send |
| AnalyticsWorker.AnalyticsMessages.DispatchMessage | src/main/java/net/p_lucky/logbk/android/lbmetrics/AnalyticsMessages.java:192-211 | the branch on `what` and the queue depth it reports, as `Dispatch.Dispatch` |
| AnalyticsWorker.AnalyticsMessages.ScheduleAfter | src/main/java/net/p_lucky/logbk/android/lbmetrics/AnalyticsMessages.java:215-230 | the bulk-limit flush or delayed flush, as `Dispatch.AfterDispatch` |
| AnalyticsWorker.AnalyticsMessages.HandleNext | src/main/java/net/p_lucky/logbk/android/lbmetrics/AnalyticsMessages.java:185-243 | handling the head message changes the fields as `Dispatch.HandleNext`, keeping a dead worker halted |
| AnalyticsWorker.AnalyticsMessages.HandleMessage | src/main/java/net/p_lucky/logbk/android/lbmetrics/AnalyticsMessages.java:186-242 | once the message has left the queue: opens the store, then dies on a runtime exception, or dispatches and schedules, as `Dispatch.HandleMessage` |
| AnalyticsWorker.AnalyticsMessages.Process | src/main/java/net/p_lucky/logbk/android/lbmetrics/AnalyticsMessages.java:192-230 | the try block when nothing throws: the dispatch, then the bulk-limit flush or delayed flush, as `Dispatch.Process` |
| AnalyticsWorker.AnalyticsMessages.FireDelayedFlush | src/main/java/net/p_lucky/logbk/android/lbmetrics/AnalyticsMessages.java:227-229 | a delayed flush comes due and joins the queue |
| AnalyticsWorker.PostBatch | src/main/java/net/p_lucky/logbk/android/lbmetrics/AnalyticsMessages.java:272-305 | the url loop returns the delete decision of `Delivery` and one request per url attempted |
| AnalyticsWorker.AnalyticsRegistry.GetInstance | src/main/java/net/p_lucky/logbk/android/lbmetrics/AnalyticsMessages.java:53-66 | one worker per application context: the registered one, or a new one registered under it |
| Identity.StoreSuperProperties | src/main/java/net/p_lucky/logbk/android/lbmetrics/PersistentIdentity.java:192-211 | the cache is written to the file unless it is unset or the file cannot be had; nothing else changes |
| Identity.ReadSuperProperties | src/main/java/net/p_lucky/logbk/android/lbmetrics/PersistentIdentity.java:149-167 | the cache becomes the stored object, or empty when nothing is stored; stored text that does not parse leaves an already set cache (an unset one becomes empty) and rewrites the file from it; an unavailable file leaves a set cache and empties an unset one; the identities are untouched |
| Identity.SuperProperties | src/main/java/net/p_lucky/logbk/android/lbmetrics/PersistentIdentity.java:51-56 | the result is the cache; an already set cache is returned without reading |
| Identity.RegisterSuperProperties | src/main/java/net/p_lucky/logbk/android/lbmetrics/PersistentIdentity.java:102-115 | the cache becomes the old properties overridden by the given ones and, when the file can be had, is what the file stores; the distinct id, its stored copy and the loaded flag stay |
| Identity.RegisterSuperPropertiesOnce | src/main/java/net/p_lucky/logbk/android/lbmetrics/PersistentIdentity.java:124-139 | the cache becomes the given properties under the old ones (existing keys win) and, when the file can be had, is what the file stores; the distinct id, its stored copy and the loaded flag stay |
| Identity.UnregisterSuperProperty | src/main/java/net/p_lucky/logbk/android/lbmetrics/PersistentIdentity.java:117-122 | the cache loses exactly the named key and, when the file can be had, is what the file stores; the distinct id, its stored copy and the loaded flag stay |
| Identity.ClearSuperProperties | src/main/java/net/p_lucky/logbk/android/lbmetrics/PersistentIdentity.java:141-144 | the cache becomes empty and, when the file can be had, the stored properties too; the distinct id, its stored copy and the loaded flag stay |
| Identity.WriteIdentities | src/main/java/net/p_lucky/logbk/android/lbmetrics/PersistentIdentity.java:239-251 | the stored id becomes the cached id when the file can be had |
| Identity.ReadIdentities | src/main/java/net/p_lucky/logbk/android/lbmetrics/PersistentIdentity.java:214-236 | the stored id is taken, or a new id is generated and stored; nothing loads when the file cannot be had |
| Identity.GetEventsDistinctId | src/main/java/net/p_lucky/logbk/android/lbmetrics/PersistentIdentity.java:68-73 | answers the cached id, reading the identities only the first time |
| Identity.SetEventsDistinctId | src/main/java/net/p_lucky/logbk/android/lbmetrics/PersistentIdentity.java:75-81 | the cached and the stored id become the given one |
| Identity.WriteReferrerPrefs | src/main/java/net/p_lucky/logbk/android/lbmetrics/PersistentIdentity.java:21-32 | the referrer file becomes exactly the given map and every cache is marked stale |
| Identity.GetReferrerProperties | src/main/java/net/p_lucky/logbk/android/lbmetrics/PersistentIdentity.java:58-66 | when stale or unset, re-reads: the result is the file's contents, or empty when the file cannot be had, and the dirty flag clears; otherwise the cache is returned |
| Identity.DistinctIdIsStable | src/main/java/net/p_lucky/logbk/android/lbmetrics/PersistentIdentity.java:68-73 | the id is generated at most once: a second call returns the same id and changes nothing |
| Identity.SetThenGet | src/main/java/net/p_lucky/logbk/android/lbmetrics/PersistentIdentity.java:75-81 | after setting an id, the getter and the file both give it |
| Identity.RegisterOnceIsIdempotent | src/main/java/net/p_lucky/logbk/android/lbmetrics/PersistentIdentity.java:124-139 | registering the same properties once again changes nothing |
| Identity.RegisterOnceKeepsExisting | src/main/java/net/p_lucky/logbk/android/lbmetrics/PersistentIdentity.java:124-139 | no existing value changes and exactly the missing keys are added |
| Identity.UnregisterRemovesOnlyName | src/main/java/net/p_lucky/logbk/android/lbmetrics/PersistentIdentity.java:117-122 | only the named key is removed |
| Identity.GarbledLoadsEmpty | src/main/java/net/p_lucky/logbk/android/lbmetrics/PersistentIdentity.java:149-167 | stored properties that do not parse load as an empty map and the stored text is left as it is |
| Identity.ClearPreferencesResets | src/main/java/net/p_lucky/logbk/android/lbmetrics/PersistentIdentity.java:83-100 | fails exactly when the file cannot be had; otherwise no super property remains and a new id is the only thing stored |
| Identity.ReferrerWriteThenRead | src/main/java/net/p_lucky/logbk/android/lbmetrics/PersistentIdentity.java:21-66 | after writing the referrer file, the next read returns exactly the written map |
| IdentityStore.PrefsFile.constructor | src/main/java/net/p_lucky/logbk/android/lbmetrics/PersistentIdentity.java:262 | a preferences file with the contents and load outcome given |
| IdentityStore.ReferrerPrefs.constructor | src/main/java/net/p_lucky/logbk/android/lbmetrics/PersistentIdentity.java:270 | a referrer file, initially marked dirty |
| IdentityStore.ReferrerPrefs.WriteReferrerPrefs | src/main/java/net/p_lucky/logbk/android/lbmetrics/PersistentIdentity.java:21-32 | clears the file, puts every entry and marks the caches stale |
| IdentityStore.PersistentIdentity.constructor | src/main/java/net/p_lucky/logbk/android/lbmetrics/PersistentIdentity.java:34-49 | nothing cached, identities not loaded |
| IdentityStore.PersistentIdentity.StoreSuperProperties | src/main/java/net/p_lucky/logbk/android/lbmetrics/PersistentIdentity.java:192-211 | state changes as `Identity.StoreSuperProperties` |
| IdentityStore.PersistentIdentity.ReadSuperProperties | src/main/java/net/p_lucky/logbk/android/lbmetrics/PersistentIdentity.java:149-167 | state changes as `Identity.ReadSuperProperties`; the referrer cache stays |
| IdentityStore.PersistentIdentity.GetSuperProperties | src/main/java/net/p_lucky/logbk/android/lbmetrics/PersistentIdentity.java:51-56 | result and state as `Identity.SuperProperties`; the referrer cache stays |
| IdentityStore.PersistentIdentity.RegisterSuperProperties | src/main/java/net/p_lucky/logbk/android/lbmetrics/PersistentIdentity.java:102-115 | state changes as `Identity.RegisterSuperProperties`; the referrer cache stays |
| IdentityStore.PersistentIdentity.UnregisterSuperProperty | src/main/java/net/p_lucky/logbk/android/lbmetrics/PersistentIdentity.java:117-122 | state changes as `Identity.UnregisterSuperProperty`; the referrer cache stays |
| IdentityStore.PersistentIdentity.RegisterSuperPropertiesOnce | src/main/java/net/p_lucky/logbk/android/lbmetrics/PersistentIdentity.java:124-139 | state changes as `Identity.RegisterSuperPropertiesOnce`; the referrer cache stays |
| IdentityStore.PersistentIdentity.ClearSuperProperties | src/main/java/net/p_lucky/logbk/android/lbmetrics/PersistentIdentity.java:141-144 | state changes as `Identity.ClearSuperProperties`; the referrer cache stays |
| IdentityStore.PersistentIdentity.WriteIdentities | src/main/java/net/p_lucky/logbk/android/lbmetrics/PersistentIdentity.java:239-251 | state changes as `Identity.WriteIdentities` |
| IdentityStore.PersistentIdentity.ReadIdentities | src/main/java/net/p_lucky/logbk/android/lbmetrics/PersistentIdentity.java:214-236 | state changes as `Identity.ReadIdentities`; the referrer cache stays |
| IdentityStore.PersistentIdentity.GetEventsDistinctId | src/main/java/net/p_lucky/logbk/android/lbmetrics/PersistentIdentity.java:68-73 | result and state as `Identity.GetEventsDistinctId`; the referrer cache stays |
| IdentityStore.PersistentIdentity.SetEventsDistinctId | src/main/java/net/p_lucky/logbk/android/lbmetrics/PersistentIdentity.java:75-81 | state changes as `Identity.SetEventsDistinctId`; the referrer cache stays |
| IdentityStore.PersistentIdentity.ClearPreferences | src/main/java/net/p_lucky/logbk/android/lbmetrics/PersistentIdentity.java:83-100 | fails, changing nothing, exactly when the file cannot be had; otherwise the state of `Identity.ClearPreferences`; the referrer cache stays |
| IdentityStore.PersistentIdentity.GetReferrerProperties | src/main/java/net/p_lucky/logbk/android/lbmetrics/PersistentIdentity.java:58-66 | result and referrer state as `Identity.GetReferrerProperties`; the super-property cache, the identities and their file stay |
| LogbookApi.TrackProperties | src/main/java/net/p_lucky/logbk/android/lbmetrics/LogbookAPI.java:145-161 | `time` in seconds and `distinct_id` (absent when null), then every caller property, which overrides both |
| LogbookApi.CallerPropertiesWin | src/main/java/net/p_lucky/logbk/android/lbmetrics/LogbookAPI.java:149-161 | caller values for `time` and `distinct_id` are the ones sent |
| LogbookApi.StoredEventPrecedence | src/main/java/net/p_lucky/logbk/android/lbmetrics/LogbookAPI.java:145-165 | the stored event: its name under `event`, caller properties over `time`, `distinct_id` and `token`, device defaults under all |
| LogbookApi.LogbookAPI.constructor | src/main/java/net/p_lucky/logbk/android/lbmetrics/LogbookAPI.java:74-79 | an instance bound to its context, token, worker and identity |
| LogbookApi.LogbookAPI.Track | src/main/java/net/p_lucky/logbk/android/lbmetrics/LogbookAPI.java:145-169 | loads the distinct id once and posts exactly one enqueue message with the built properties and the token; the identity's referrer cache stays |
| LogbookApi.LogbookAPI.Flush | src/main/java/net/p_lucky/logbk/android/lbmetrics/LogbookAPI.java:182-184 | posts exactly one flush message |
| LogbookApi.LogbookRegistry.GetInstance | src/main/java/net/p_lucky/logbk/android/lbmetrics/LogbookAPI.java:107-127 | null for a null token or context; else the instance registered for the token and application, or a new one registered under both, whose identity is new, bound to the given preferences and starts with nothing cached; the worker registry gains the application's new worker only when it had none and is otherwise unchanged |
| Decide.NewOnesFromList | src/main/java/net/p_lucky/logbk/android/lbmetrics/DecideUpdates.java:46-53 | every queued notification comes from the list and has an id not seen before |
| Decide.NewOnesIds | src/main/java/net/p_lucky/logbk/android/lbmetrics/DecideUpdates.java:46-53 | the queued ids are exactly the list's ids not seen before |
| Decide.NewOnesDistinct | src/main/java/net/p_lucky/logbk/android/lbmetrics/DecideUpdates.java:46-53 | no id is queued twice, even when the list repeats it |
| Decide.NewOnesAppend | src/main/java/net/p_lucky/logbk/android/lbmetrics/DecideUpdates.java:46-53 | reporting a list in two parts queues what reporting it at once does |
| Decide.ReportStep | src/main/java/net/p_lucky/logbk/android/lbmetrics/DecideUpdates.java:47-52 | one more notification is queued exactly when its id is new |
| Decide.AllNewAreQueued | src/main/java/net/p_lucky/logbk/android/lbmetrics/DecideUpdates.java:46-53 | notifications with new, distinct ids are queued exactly as given, in order |
| Decide.ReportKeepsInvariant | src/main/java/net/p_lucky/logbk/android/lbmetrics/DecideUpdates.java:43-58 | reporting keeps the queued ids distinct and among the seen ids |
| Decide.TakeHead | src/main/java/net/p_lucky/logbk/android/lbmetrics/DecideUpdates.java:60-69 | null on an empty queue; otherwise the head, removed, or moved to the tail when `replace` |
| Decide.FirstIndex | src/main/java/net/p_lucky/logbk/android/lbmetrics/DecideUpdates.java:76-84 | the first index holding the id, or none when no entry has it |
| Decide.TakeById | src/main/java/net/p_lucky/logbk/android/lbmetrics/DecideUpdates.java:71-86 | the result is a queued notification with that id, present exactly when the id is queued; the queue is unchanged when nothing is found or `replace` holds |
| Decide.TakeByIdKeepsInvariant | src/main/java/net/p_lucky/logbk/android/lbmetrics/DecideUpdates.java:71-86 | keeps the queue invariant; without `replace` exactly that entry is removed and the others keep their order |
| Decide.DeletionKeepsInvariant | src/main/java/net/p_lucky/logbk/android/lbmetrics/DecideUpdates.java:79-81 | deleting one entry keeps the ids distinct and among the seen ids, and no remaining entry has the deleted id |
| Decide.RemoveIdIsDeletion | src/main/java/net/p_lucky/logbk/android/lbmetrics/DecideUpdates.java:79-81 | in a queue with distinct ids, removing an id deletes exactly its one position |
| Decide.TakeHeadKeepsInvariant | src/main/java/net/p_lucky/logbk/android/lbmetrics/DecideUpdates.java:60-69 | keeps the queue invariant; a taken head leaves the queue |
| Decide.DecideUpdates.constructor | src/main/java/net/p_lucky/logbk/android/lbmetrics/DecideUpdates.java:16-24 | an empty queue, no seen id, not destroyed |
| Decide.DecideUpdates.Destroy | src/main/java/net/p_lucky/logbk/android/lbmetrics/DecideUpdates.java:34-36 | sets the flag and changes nothing else |
| Decide.DecideUpdates.IsDestroyed | src/main/java/net/p_lucky/logbk/android/lbmetrics/DecideUpdates.java:38-40 | the flag |
| Decide.DecideUpdates.ReportResults | src/main/java/net/p_lucky/logbk/android/lbmetrics/DecideUpdates.java:43-58 | queues the new notifications in list order, records every id, and calls the listener exactly once when something new was queued and a listener exists |
| Decide.DecideUpdates.GetNotification | src/main/java/net/p_lucky/logbk/android/lbmetrics/DecideUpdates.java:60-69 | result and queue as `TakeHead`; keeps the invariant |
| Decide.DecideUpdates.GetNotificationById | src/main/java/net/p_lucky/logbk/android/lbmetrics/DecideUpdates.java:71-86 | result and queue as `TakeById`; keeps the invariant |
| Decide.DecideUpdates.HasUpdatesAvailable | src/main/java/net/p_lucky/logbk/android/lbmetrics/DecideUpdates.java:88-90 | true exactly when the queue is not empty |
| Decide.IndexOfId | src/main/java/net/p_lucky/logbk/android/lbmetrics/DecideUpdates.java:76-84 | the index loop stops at the first entry with the id, or finds none |
| Decide.LiveMembers | src/main/java/net/p_lucky/logbk/android/lbmetrics/DecideChecker.java:24-34 | the checks kept are exactly the listed checks that are not destroyed |
| Decide.LiveKeepsOrder | src/main/java/net/p_lucky/logbk/android/lbmetrics/DecideChecker.java:24-34 | checks kept keep their relative order |
| Decide.DecideChecker.constructor | src/main/java/net/p_lucky/logbk/android/lbmetrics/DecideChecker.java:16-18 | no checks |
| Decide.DecideChecker.AddDecideCheck | src/main/java/net/p_lucky/logbk/android/lbmetrics/DecideChecker.java:20-22 | appends the check at the end |
| Decide.DecideChecker.RunDecideChecks | src/main/java/net/p_lucky/logbk/android/lbmetrics/DecideChecker.java:24-34 | removes every destroyed check in place and asks each remaining one to report once, in list order |
| UpdateDisplay.Inc32 | src/main/java/net/p_lucky/logbk/android/lbmetrics/UpdateDisplayState.java:143 | `sNextIntentId++` adds one, wrapping from the largest int to the smallest |
| UpdateDisplay.ExpiryRule | src/main/java/net/p_lucky/logbk/android/lbmetrics/UpdateDisplayState.java:120-133 | a proposal is current exactly when one is set and it is not older than twelve hours once some id was issued; only the proposal is dropped |
| UpdateDisplay.ProposeOutcome | src/main/java/net/p_lucky/logbk/android/lbmetrics/UpdateDisplayState.java:136-150 | a proposal fails with -1, changing nothing, when one is current; otherwise it is stored with a fresh lock time and takes the next id, positive while the counter has room |
| UpdateDisplay.ClaimOutcome | src/main/java/net/p_lucky/logbk/android/lbmetrics/UpdateDisplayState.java:170-188 | a claim fails, changing nothing, when another positive intent is showing or nothing is proposed; otherwise the claimant shows, the lock is stamped and the proposal returned |
| UpdateDisplay.ReclaimSucceeds | src/main/java/net/p_lucky/logbk/android/lbmetrics/UpdateDisplayState.java:173-184 | the showing intent can claim again and gets the same proposal |
| UpdateDisplay.ClaimIsExclusive | src/main/java/net/p_lucky/logbk/android/lbmetrics/UpdateDisplayState.java:173-175 | while a positive intent is showing no other intent can claim |
| UpdateDisplay.ReleaseOutcome | src/main/java/net/p_lucky/logbk/android/lbmetrics/UpdateDisplayState.java:155-165 | a release by the showing id clears the proposal and the showing id; any other id changes nothing |
| UpdateDisplay.ReleaseFreesTheLock | src/main/java/net/p_lucky/logbk/android/lbmetrics/UpdateDisplayState.java:155-165 | after the showing intent releases, a proposal succeeds |
| UpdateDisplay.IdsIncrease | src/main/java/net/p_lucky/logbk/android/lbmetrics/UpdateDisplayState.java:135-150 | over any sequence of calls, successful proposals return positive, strictly increasing ids |
| UpdateDisplay.DisplayLock.constructor | src/main/java/net/p_lucky/logbk/android/lbmetrics/UpdateDisplayState.java:249-252 | the statics' initial values |
| UpdateDisplay.DisplayLock.HasCurrentProposal | src/main/java/net/p_lucky/logbk/android/lbmetrics/UpdateDisplayState.java:120-133 | drops a stale proposal and answers whether one is current |
| UpdateDisplay.DisplayLock.ProposeDisplay | src/main/java/net/p_lucky/logbk/android/lbmetrics/UpdateDisplayState.java:136-150 | result and statics as `Propose` |
| UpdateDisplay.DisplayLock.ReleaseDisplayState | src/main/java/net/p_lucky/logbk/android/lbmetrics/UpdateDisplayState.java:155-165 | statics as `Release` |
| UpdateDisplay.DisplayLock.ClaimDisplayState | src/main/java/net/p_lucky/logbk/android/lbmetrics/UpdateDisplayState.java:170-188 | result and statics as `Claim` |
| UpdateDisplay.Digits | src/main/java/net/p_lucky/logbk/android/lbmetrics/UpdateDisplayState.java:86 | a non-empty string of decimal digits with no leading zero |
| UpdateDisplay.DigitsRoundTrip | src/main/java/net/p_lucky/logbk/android/lbmetrics/UpdateDisplayState.java:86-100 | the digits of a number read back as that number |
| UpdateDisplay.IntRoundTrip | src/main/java/net/p_lucky/logbk/android/lbmetrics/UpdateDisplayState.java:86-100 | `Integer.valueOf(Integer.toString(i))` is `i` for every int |
| UpdateDisplay.IntToStringInjective | src/main/java/net/p_lucky/logbk/android/lbmetrics/UpdateDisplayState.java:85-87 | distinct keys are written as distinct strings |
| UpdateDisplay.Written | src/main/java/net/p_lucky/logbk/android/lbmetrics/UpdateDisplayState.java:83-90 | each map entry becomes a bundle entry under the key's decimal string, and there are no others |
| UpdateDisplay.WrittenKeysParse | src/main/java/net/p_lucky/logbk/android/lbmetrics/UpdateDisplayState.java:99-102 | every written key parses back to its number and carries its value |
| UpdateDisplay.WrittenReadsAsOriginal | src/main/java/net/p_lucky/logbk/android/lbmetrics/UpdateDisplayState.java:95-104 | the original map is a reading of the written bundle |
| UpdateDisplay.ReadingIsUnique | src/main/java/net/p_lucky/logbk/android/lbmetrics/UpdateDisplayState.java:95-104 | any reading of a written bundle is the original map |
| UpdateDisplay.ParcelRoundTrip | src/main/java/net/p_lucky/logbk/android/lbmetrics/UpdateDisplayState.java:73-104 | writing an answer map and reading it back throws nothing and gives a map equal in content to the original |
| UpdateDisplay.AnswerMap.constructor | src/main/java/net/p_lucky/logbk/android/lbmetrics/UpdateDisplayState.java:61-63 | an empty map |
| UpdateDisplay.AnswerMap.Put | src/main/java/net/p_lucky/logbk/android/lbmetrics/UpdateDisplayState.java:65-67 | the key takes the value |
| UpdateDisplay.AnswerMap.Get | src/main/java/net/p_lucky/logbk/android/lbmetrics/UpdateDisplayState.java:69-71 | the value under the key, or null when absent |
| UpdateDisplay.AnswerMap.ContentEquals | src/main/java/net/p_lucky/logbk/android/lbmetrics/UpdateDisplayState.java:73-75 | true exactly when both maps have the same entries |
| UpdateDisplay.AnswerMap.WriteToParcel | src/main/java/net/p_lucky/logbk/android/lbmetrics/UpdateDisplayState.java:83-90 | the entry loop writes exactly `Written` of the map |
| UpdateDisplay.CreateFromParcel | src/main/java/net/p_lucky/logbk/android/lbmetrics/UpdateDisplayState.java:95-104 | null exactly when some key is not an ASCII decimal number in the int range; otherwise a new map that is a reading of the bundle |

## Left out

- Threads and locks: the `HandlerThread`, `ReentrantLock`, `synchronized` blocks and futures. Every operation is modelled as atomic, and a message is handled as one step.
- The JSON text format, Base64 encoding and the HTTP client. A JSON object is a map. Stored data either parses or does not. A request ends in a response, a malformed url, an out-of-memory error or an I/O error.
- `getDefaultEventProperties` (device model, OS version, screen and so on): modelled as an opaque map of default properties supplied by the environment.
- `JSONException` handling: putting a key into a JSON object is modelled as always succeeding.
- The `UnsupportedEncodingException` raised for UTF-8: it cannot occur on Android.
- A runtime exception part-way through handling a message: it is modelled only at the start of the try block. The store opening is kept, and the worker dies.
- Each step reads the clock once: every `System.currentTimeMillis` call within one handled message sees the same `now`.
- 64-bit `long` overflow of times, counts and averages: integers are unbounded.
- `UpdateDisplayState.CREATOR` and the parcel of a whole `UpdateDisplayState`: the creator always throws, so only the `AnswerMap` parcel is modelled. The parcel is modelled as the `Bundle` it carries.
- The change listener registered on the referrer preferences: modelled as the write itself marking the caches stale.
- `LogbookAPI.getPersistentIdentity` calls a one-argument `PersistentIdentity` constructor that does not exist; the model builds the identity with the two-argument constructor.
- The global `DEBUG` flag is the `debug` field of the configuration; logging is not modelled.
- How a preferences file is looked up by name: each identity is given its files.
- `MPConfig`, `MixpanelActivityLifecycleCallbacks`, `SurveyCallbacks`, the update listener interface and the decide network client are not part of this model. `reportResults` without arguments, as `DecideChecker` calls it, is modelled as a recorded call.
- Null keys in maps and bundles are not modelled.
- Dispatch.KillWorkerIgnored, Dispatch.FailedAppendSchedulesNothing and Dispatch.FlushMessageFlushesOnce: state their property only for a non-negative bulk upload limit.
- UpdateDisplay.IdsIncrease: assumes the intent-id counter has room for every call without wrapping past `Integer.MAX_VALUE`.
- UpdateDisplay.ProposeOutcome: its statement that a successful id is positive holds only while the counter is below `Integer.MAX_VALUE`.
- UpdateDisplay.ReleaseFreesTheLock: assumes the same headroom for the counter.
- Dispatch.DeadIsPermanent: stated for workers whose inbox and delayed flushes are empty once dead, the only dead workers that handling can produce.
- Decide.DecideChecker.RunDecideChecks and Decide.DecideUpdates.ReportResults: both loops work on local copies of the list (and of the id set) and store them back into the fields when the loop ends, instead of updating the fields element by element. Nothing else observes the fields while the loop runs, so the final state is the same.
- UpdateDisplay.CreateFromParcel: `Integer.valueOf` reads digits through `Character.digit`, which accepts every Unicode decimal digit; the model's `ParseInt` accepts only ASCII `0`-`9`. A key written in other digits (Arabic-Indic "١٢", say) makes the model return null where the source reads the number. Keys written by `writeToParcel` are always ASCII, so the round trip is unaffected.
