# remelonDB: a verified model of sync, multi-tab arbitration, queries and cache

remelonDB is an offline-first database: every device keeps its rows in SQLite,
works on them without a network, and reconciles with a server by pulling and
pushing. In a browser many tabs share one database through a SharedWorker.
This project models the logic of that system in Dafny and proves what it
promises. `dafny verify dfyconfig.toml` checks all of it.

## What is modelled

**Sync, end to end.** The server is `MemoryStores.MemoryStore` (rows,
tombstones, one revision counter, a gc floor) under `Engines.SyncEngine`
(pull and push, stage by stage, with a gc possible at every await of a push).
What a pull and a push promise is said in `SyncContracts` about the store's
contents before and after and about the reply; the engine's methods are proved
to meet it, and `ServerRuns` proves what follows over runs. The device is
`LocalDatabases.LocalDatabase` with `RemoteApply` (a change set becomes one
atomic batch), `PushLocal` (the snapshot that goes out and the mark that
follows) and `Synchronize.SyncRun` (the orchestrating loop). `Convergence` puts
any number of devices and the server together: local writes, incremental,
migration and replacement pulls, accepted, degraded, conflicting and lost
pushes, crashes between commits, gc, and other scopes' traffic interleave
freely. Its main theorems are `EveryRunConverges`, `CleanPullShowsSnapshot`,
`NothingLost` and `RepliesAlwaysApply`. They are proved from the contracts, not
from the bodies, and `Synchronize.SyncRun` is proved to take only the machine's
client steps. `RawRecords` holds the trust boundary, the dirty tracking and
the per-column merge, and `Cursors` the cursor strings.

**The broker.** `Brokers.Broker` is the SharedWorker's routing state with its
handlers; `BrokerRuns` runs it against tabs and a compute that may die at any
point. Proved over every run: requests are conserved and answered once
(`BrokerRequests`), what is open on the compute follows what tabs hold
(`BrokerOpens`) under the storage they asked for (`BrokerStorage`). `SlotArbiters`
is the slot queue; `TabFreshness` joins it with the tabs' caches, work queues
and ports and proves that a write block always sees storage. `BrokerRelay`
derives its relay step from the broker's publish handler, `BatchCommits` its
commit step from a database batch, and `TabSlots` proves that no slot is lost
and the tabs never deadlock.

**Inside a tab.** `QueryTrees`, `SqlEncoding`, `QueryCompiler` and
`QueryMeaning`: compiled SQL means what the query tree says, joins, order and
page included. `RecordCaches`: the
identity map of record objects equals storage at every batch boundary.
`CloseDrain`: the two-phase close.

## What is assumed

- A gc floor never exceeds the store's revision. The memory store accepts any
  number (packages/server/src/memoryStore.ts:128-132); a floor above the
  revision would let later stamps fall under issued cursors.
- Revisions stay within 2^53-1 and cursors are strings, as the code prints them.
- A pull reads one snapshot and pushes serialize per scope, as the store seam
  demands (packages/server/src/store.ts:72-83).
- All devices of a scope share one schema, which holds the server's tables.
- One synchronize run per database at a time, as the in-flight registry and
  the sync lease arrange.
- For the broker: the compute is hosted by tabs, some tab eventually adopts, an
  open of a closed name succeeds, and a version query of an open name succeeds.
- For freshness: ports deliver in order, and tabs and the compute do not die.
- "Same content" means equal after sanitizing.

Validation and the two push hooks are arbitrary functions the engine is
configured with; hooks only read, and each is a function of the store's
contents, the scope and what it is shown. Which rows storage refuses is a parameter of
the store (`refuses`), as the seam allows (packages/server/src/store.ts:50-54);
the memory store itself refuses none. Random ids and the clock are parameters.

## Where the code falls short

Three promises hold only under a condition. Each failure has a concrete
run, and the condition is proved to be exact.

- **A first pull that is applied but whose cursor is not stored**
  (packages/core/src/sync/synchronize.ts:327-341 commits the two separately).
  If a row it brought is deleted and collected before the pull is repeated, the
  device keeps the row for good: `CrashWindow.UnadoptedFirstPullStrandsARow`,
  exact condition `CrashWindow.FromScratchConvergesIff`. The convergence machine
  allows a crash between the two commits for every device that already has a
  cursor, where it is harmless.
- **A pull over the memory store while gc runs.** The seam's documentation asks
  for one consistent snapshot; the memory store runs a pull without any
  isolation (packages/server/src/memoryStore.ts:117-118) and the pull reads the
  floor first. `PullRaces.RacedPullStrandsARow` loses a deletion;
  `PullRaces.CompleteIff` and `PullRaces.RacedPullConvergesIff` say exactly when
  nothing is lost. Everything else takes a pull as the seam has it.
- **A tab that opens a name again before its earlier open of it is answered.** A
  compute death can then make the earlier open fail and its undo take the later
  open's holder away (packages/driver-web/src/shared-worker.ts:686-693):
  `BrokerReopen.ImpoliteRunStrandsAnOpen`, exact condition
  `BrokerOpens.FailedOpenKeepsBooksIff`. The results about opens are about runs
  in which tabs wait (`BrokerOpens.Polite`); the one about requests needs no
  such assumption.

Two more conditions come from what callers are asked for: the cache equals
storage exactly when every update names a stored row
(`RecordCaches.CoherentAfterOneIff`), and a join of a table already joined is
left to SQL to refuse (`QueryCompiler.WellJoined`).

## Model

| member | source | states |
|---|---|---|
| `RawRecords.SanitizedRaw` | packages/core/src/rawRecord/index.ts:97-114 | The column loop builds the record the boundary promises (proved by the next two rows) and throws exactly when some numeric column holds an unsafe integer. |
| `RawRecords.SanitizedLookup` | packages/core/src/rawRecord/index.ts:51-114 | A sanitized record has every schema column and no other, each holding what its type admits of the input. |
| `RawRecords.SanitizeIdempotent` | packages/core/src/rawRecord/index.ts:51-114 | A record that came out of the boundary passes it again unchanged, so two replicas that sanitize the same row agree. |
| `RawRecords.SanitizeShows` | packages/core/src/rawRecord/index.ts:51-114 | The converse: a record with exactly the schema's columns, each showing the sanitized input, is the sanitized record. |
| `RawRecords.SanitizesIff` | packages/core/src/rawRecord/index.ts:97-114 | Sanitizing a row throws exactly when one of its columns does. |
| `RawRecords.SanitizeThrowsIff` | packages/core/src/rawRecord/index.ts:58-67 | A value throws exactly when its column is numeric and it is an integer beyond 9007199254740991 either way. |
| `RawRecords.SanitizeFallsBack` | packages/core/src/rawRecord/index.ts:34-86 | A value of the column's type passes, 1 and 0 are booleans, and anything else is null where optional, else the empty value of the type. |
| `RawRecords.SanitizedFields` | packages/core/src/rawRecord/index.ts:102-109 | A stated non-empty id, a known status and a string list survive; otherwise a fresh id, created and the empty list. |
| `RawRecords.SplitJoin` | packages/core/src/rawRecord/index.ts:138-141 | Column names without commas survive the comma-joined list. |
| `RawRecords.AddChangedParses` | packages/core/src/rawRecord/index.ts:131-143 | After a column is marked, the stored list parses back to the columns it listed before plus that column once. |
| `RawRecords.MarkAsChangedAdds` | packages/core/src/rawRecord/index.ts:131-143 | On a live record the set of listed columns grows by exactly the marked one. |
| `RawRecords.PrepareUpdate` | packages/core/src/database/Collection.ts:205-228 | Throws exactly when a stated key is no column or a stated value is an unsafe integer; otherwise each stated column shows its sanitized value, every other column is unchanged, updated_at is now unless stated, and exactly the columns whose value changed are newly listed. |
| `RawRecords.EditPrepared` | packages/core/src/database/Collection.ts:205-228 | The same of the field-by-field specification, for every record and every object of fields. |
| `RawRecords.TouchStates` | packages/core/src/database/Collection.ts:206-212 | Stamping states now for updated_at where it is absent or undefined, and leaves every other statement alone. |
| `RawRecords.SetFieldsShow` | packages/core/src/database/Collection.ts:213-226 | Setting stamped fields one by one leaves each column as stated or as it was, and dirt only where a value changed. |
| `RawRecords.SetFieldKeepsBase` | packages/core/src/database/Collection.ts:214-226 | Setting a field keeps every unlisted column at its base, lists the field exactly when a value changed, and turns a synced record to updated only then. |
| `RawRecords.SetFieldsKeepBase` | packages/core/src/database/Collection.ts:213-227 | A whole update keeps the record well typed, its unlisted columns at the base, a created record created, and changes nothing if the record stays synced. |
| `RawRecords.ResolveConflict` | packages/core/src/sync/applyRemote.ts:59-77 | The overlay loop yields the per-column merge, or throws exactly when the remote row cannot be sanitized. |
| `RawRecords.MergeKeepsLocalEdits` | packages/core/src/sync/applyRemote.ts:59-77 | Remote values on exactly the unlisted columns, local values on exactly the listed ones; id, status and list untouched. |
| `RawRecords.MergeIdempotent` | packages/core/src/sync/applyRemote.ts:183-199 | Merging the same remote row twice is merging it once. |
| `RawRecords.RemoteRowKeepsBase` | packages/core/src/sync/applyRemote.ts:183-199 | Applying a remote row makes that row the base every unlisted column shows. |
| `RawRecords.UnlistedColumnsShowBase` | packages/core/src/database/Collection.ts:205-235 | Over any run of edits, remote rows and marks, every column not listed as changed equals the base: the last server row, or the row as created. |
| `Cursors.DecodeEncode` | packages/server/src/engine.ts:78-87 | Every revision from 0 to 2^53-1 is read back from its printed form. |
| `Cursors.DecodesOnlyPrinted` | packages/server/src/engine.ts:78-87 | A string decodes to a revision if and only if it is that revision's printed form: no respelling, no rounding. |
| `MemoryStores.MemoryStore.ChangedSince` | packages/server/src/memoryStore.ts:42-53 | Lists exactly the scope's entries of the table stamped after the revision, each id once, a tombstone without its row. |
| `MemoryStores.MemoryStore.MaxRev` | packages/server/src/memoryStore.ts:54-63 | The highest revision of the scope, zero when it has no entry. |
| `MemoryStores.MemoryStore.CurrentRevs` | packages/server/src/memoryStore.ts:64-72 | Maps exactly the asked ids that are stored, tombstones included, to their revisions. |
| `MemoryStores.MemoryStore.TombstonedIds` | packages/server/src/memoryStore.ts:73-76 | Exactly the asked ids stored as tombstones. |
| `MemoryStores.MemoryStore.ForeignIds` | packages/server/src/memoryStore.ts:77-88 | Exactly the asked ids that some other scope stores, tombstones included. |
| `MemoryStores.MemoryStore.Upsert` | packages/server/src/memoryStore.ts:89-97 | One new revision for the whole batch; which rows land is the next row's subject, and the reported refusals are exactly the rows storage refuses. |
| `MemoryStores.PutRowsAt` | packages/server/src/memoryStore.ts:89-97 | An upsert leaves its row, live under the batch's stamp, except on a tombstone or a refused row, whose entry stays. |
| `MemoryStores.PutRowsElsewhere` | packages/server/src/memoryStore.ts:89-97 | An upsert touches no other key, of this scope or another. |
| `MemoryStores.MemoryStore.Tombstone` | packages/server/src/memoryStore.ts:98-106 | One new revision for the whole batch; the next row says what it leaves. |
| `MemoryStores.KillRowsLookup` | packages/server/src/memoryStore.ts:98-106 | Exactly the named live entries become tombstones under the new stamp, keeping their row; unknown and dead ids are no-ops. |
| `MemoryStores.MemoryStore.Gc` | packages/server/src/memoryStore.ts:128-140 | A floor outside the safe naturals throws and changes nothing; otherwise the floor only rises and exactly the tombstones at or below it go. |
| `MemoryStores.PutKeepsValid` | packages/server/src/memoryStore.ts:89-97 | After an upsert no stamp exceeds the store's revision and no tombstone lies at or below the floor. |
| `MemoryStores.KillKeepsValid` | packages/server/src/memoryStore.ts:98-106 | The same after a tombstone batch. |
| `MemoryStores.PruneKeepsValid` | packages/server/src/memoryStore.ts:128-140 | The same after a gc whose floor does not exceed the revision. |
| `SyncTypes.NamedIsStated` | packages/server/src/engine.ts:184-218 | An id is named by a table's change set exactly when the set says something about it, and a stated row carries that id. |
| `Rowsets.LastById` | packages/server/src/engine.ts:189-203 | Each id once with the last row stating it; fails exactly when some row has no usable id. |
| `PushParts.ParseTable` | packages/server/src/engine.ts:184-218 | Splits a table's change set into rows and deletions that say exactly what it says, a deletion superseding a row; allIds is everything it names. |
| `PushParts.ToTableChanges` | packages/server/src/engine.ts:98-109 | The delivery names each listed change outside the exclusion exactly once and says of every id what the listing says. |
| `PushParts.ToChanges` | packages/server/src/engine.ts:89-112 | The same for every table, each under its own exclusion. |
| `Engines.SyncEngine.Pull` | packages/server/src/engine.ts:147-175 | Refused exactly when the cursor does not decode or lies outside floor and effective maximum; otherwise the reply says of every id of every configured table exactly what the window after the cursor holds, and its cursor is the effective maximum. |
| `Engines.SyncEngine.CollectSince` | packages/server/src/engine.ts:134-144 | With a gc possible between any two tables, the listings are still the windows of the final contents whenever the floor has not passed the cursor. |
| `Engines.SyncEngine.ParseRequest` | packages/server/src/engine.ts:184-218 | Throws exactly when a configured table has a row without a usable id; otherwise partitions the whole request. |
| `Engines.SyncEngine.CheckHorizon` | packages/server/src/engine.ts:221-225 | A cursor refused here is above the floor and above every surviving revision of the scope; one let through is reached by an entry or the floor. |
| `Engines.SyncEngine.RejectForeign` | packages/server/src/engine.ts:227-241 | Afterwards no id in play is another scope's, every id taken out is, and rows and deletions are all that is stated of the ids in play. |
| `Engines.SyncEngine.ScanForNewer` | packages/server/src/engine.ts:243-257 | Answers conflict only if an id the push names was stamped after the cursor; otherwise no id in play, not even one rejected later, has a newer entry. |
| `Engines.SyncEngine.RejectInvalid` | packages/server/src/engine.ts:259-267 | Exactly the rows in play that pass their table's validation stay, with every deletion in play; every id taken out is rejected. |
| `Engines.SyncEngine.ApplyExtraRejections` | packages/server/src/engine.ts:273-302 | Succeeds exactly when every id the hook names is in play under a configured table; then exactly the named ids are dropped from rows and deletions and added to the rejected. |
| `Engines.SyncEngine.RunHooks` | packages/server/src/engine.ts:303-321 | The first hook is shown exactly the valid rows in play, the second exactly what the first left of them with the deletions; what they answer is rejected, and the run fails exactly when one names what is not in play. |
| `Engines.SyncEngine.RejectDead` | packages/server/src/engine.ts:327-347 | No row left aims at a tombstone, nor at anything stored in an append-only table, whatever gc pruned meanwhile. |
| `Engines.SyncEngine.ApplyRows` | packages/server/src/engine.ts:349-358 | After the upserts exactly the accepted rows are written; rows storage refuses are listed as rejected and leave no trace. |
| `Engines.SyncEngine.ApplyDeletes` | packages/server/src/engine.ts:359-363 | After the tombstones exactly the accepted statements, rows and deletions, have been written. |
| `PushParts.WroteThenGc` | packages/server/src/memoryStore.ts:128-140 | A gc after some of the writes changes only what a gc may change of any entry. |
| `PushParts.WroteThenPut` | packages/server/src/engine.ts:349-358 | An upsert of untouched, undead ids leaves at every key what has then been said of it. |
| `PushParts.WroteThenKill` | packages/server/src/engine.ts:359-363 | The same for a tombstone batch. |
| `PushParts.SaidIsAccepted` | packages/server/src/engine.ts:349-363 | In the end what was written is exactly what the push states outside its rejections. |
| `Engines.SyncEngine.CollectThenFloor` | packages/server/src/engine.ts:368-375 | If the floor read after the collect has not passed the cursor, nothing of the collected windows was lost to a racing gc. |
| `Engines.SyncEngine.RequestedIds` | packages/server/src/engine.ts:379-388 | The exclusion is, table by table, exactly what the push named, rejected ids included. |
| `Engines.SyncEngine.InterleaveIsForeign` | packages/server/src/engine.ts:389-393 | The window collected after the writes, without the requested ids, is the window as it stood before them. |
| `Engines.SyncEngine.Reply` | packages/server/src/engine.ts:365-393 | Degraded exactly when the floor read passed the cursor; otherwise every change after the cursor that the push did not name, nothing else, and the cursor of the high-water mark. |
| `Engines.SyncEngine.NotStale` | packages/server/src/engine.ts:243-257 | An accepted push named no entry stamped after its cursor, save one gc collected. |
| `Engines.SyncEngine.AcceptedIsAdmissible` | packages/server/src/engine.ts:227-347 | Every row that landed is valid, not refused by storage, held by no other scope, on no tombstone gc has left, and in an append-only table on nothing stored. |
| `Engines.SyncEngine.Push` | packages/server/src/engine.ts:177-395 | With a gc possible at every await: what it throws leaves at most gc behind, and it throws for a hook exactly when one named what is not in play; a conflict has a stated cause; otherwise the hooks were asked and obeyed, every named id of a configured table is applied as last stated or rejected for a cause with its entry untouched, no entry newer than the cursor was overwritten, other scopes and unnamed ids saw only gc, and the reply is complete or degraded. |
| `ServerRuns.LaterWritesStampedAbove` | packages/server/src/memoryStore.ts:89-106 | Whatever a pull, push or gc leaves new is stamped above every revision handed out before. |
| `ServerRuns.EntryPersists` | packages/server/src/memoryStore.ts:89-140 | An entry stays, restamped only upward, unless the floor has passed its stamp. |
| `ServerRuns.HighWaterNeverDecreases` | packages/server/src/engine.ts:156-156 | The scope's highest revision or the floor, whichever is larger, never decreases over any step. |
| `ServerRuns.IssuedCursorsStayGood` | packages/server/src/engine.ts:147-175 | Over any run of pulls, pushes and gcs every cursor ever issued stays at or below the scope's served history. |
| `ServerRuns.IssuedAtOrAboveFloor` | packages/server/src/engine.ts:374-390 | A cursor at issue is at or above the floor its issuer read. |
| `ServerRuns.IssuedCursorRefusedIff` | packages/server/src/engine.ts:157-164 | A pull with an issued cursor is refused exactly when the floor has since passed it. |
| `ServerRuns.ConflictsExactly` | packages/server/src/engine.ts:178-257 | With no gc meanwhile, a push conflicts exactly when its cursor does not decode, is ahead of everything served, or an id it names has a newer entry. |
| `ServerRuns.LaterPushConflicts` | packages/server/src/engine.ts:243-257 | Once a push has written an id, another naming it from the same cursor conflicts, and none changes the entry, until gc prunes it. |
| `ServerRuns.OtherScopesKeep` | packages/server/src/engine.ts:227-241 | An accepted push leaves every other scope to gc alone. |
| `ServerRuns.NamedByHookStaysOut` | packages/server/src/engine.ts:273-321 | An id a hook named is rejected, and its entry changes by gc alone. |
| `ServerRuns.BlamelessRejectedIffNamed` | packages/server/src/engine.ts:269-321 | A statement nothing else forbids is rejected if and only if a hook named it. |
| `ServerRuns.RacingGcDegrades` | packages/server/src/engine.ts:368-378 | If gc pruned a deletion from the window the reply is the degraded one; a reply that carries a cursor carries that deletion. |
| `ServerRuns.PullAfterPushIsEmpty` | packages/server/src/engine.ts:349-393 | The reply never echoes: a pull from its cursor with nothing written in between is served and says nothing of any id. |
| `LocalDatabases.LocalDatabase.Batch` | packages/core/src/database/Database.ts:432-442 | All operations in order, or, when one hits the primary key, none. |
| `LocalDatabases.BatchOutcome` | packages/core/src/database/encodeBatch.ts:27-65 | A batch touching each id once and inserting only absent ids cannot fail, and each row ends as its one operation says. |
| `LocalDatabases.NewRawOk` | packages/core/src/database/Collection.ts:171-190 | A created record is well typed, created, with an empty list and a usable id; what it holds is the next row. |
| `LocalDatabases.CreatePrepared` | packages/core/src/database/Collection.ts:171-190 | A create throws exactly on an unsafe integer; otherwise every column holds the sanitized value stated for it, now where a timestamp is not stated, under the stated id or a fresh one. |
| `LocalDatabases.EditKeepsRawOk` | packages/core/src/database/Collection.ts:205-228 | An update leaves the record as it was or dirty; a dirty record stays dirty. |
| `LocalDatabases.LocalDatabase.Write` | packages/core/src/database/Collection.ts:193-252 | Succeeds exactly when the create fits and its id is free, the edit fits a live row, or the deleted row is live; then that one row alone changes, column by column as stated, and a failed write changes nothing. |
| `LocalDatabases.WriteMeans` | packages/core/src/database/Collection.ts:171-270 | The same of the specification of the three writes: a delete leaves a tombstone with the row's values, or nothing in a local-only table. |
| `LocalDatabases.LocalWriteDirties` | packages/core/src/database/Collection.ts:171-270 | A local write touches one row of a synced table, leaves it dirty unless it changed nothing, and never revives or overwrites a tombstone. |
| `RemoteApply.QueryRowsByIds` | packages/core/src/sync/helpers.ts:98-116 | The chunked queries together return exactly the stored rows among the ids. |
| `RemoteApply.ReadTable` | packages/core/src/sync/applyRemote.ts:128-157 | Local state and live records agree with storage on everything the changes refer to, and on the whole table when replacing. |
| `RemoteApply.PlanRows` | packages/core/src/sync/applyRemote.ts:201-243 | Fails exactly when a row is sparse or unsafe; otherwise each row's id gets at most one operation, and that one leaves the merge, a new synced row, or the tombstone standing. |
| `RemoteApply.PlanDeletes` | packages/core/src/sync/applyRemote.ts:245-254 | Every deleted id ends absent, with an operation only where a row was stored. |
| `RemoteApply.PlanReplacement` | packages/core/src/sync/applyRemote.ts:256-269 | Exactly the synced rows outside the snapshot go; dirty rows and tombstones stay. |
| `RemoteApply.PlanTable` | packages/core/src/sync/applyRemote.ts:87-270 | Throws exactly on a row without an id, with an undecodable blob, sparse, or unsafe; otherwise one operation per id at most, inserts only of absent ids, and every id ends as the change set resolves it. |
| `RemoteApply.PlanRemoteChanges` | packages/core/src/sync/applyRemote.ts:84-270 | The same over all tables in one batch: unknown tables ignored, a local-only table refused. |
| `RemoteApply.BatchApplies` | packages/core/src/sync/applyRemote.ts:272-272 | The planned batch cannot hit the primary key, whatever ids repeat within and across buckets, and is the whole apply. |
| `RemoteApply.ApplyRemoteChanges` | packages/core/src/sync/applyRemote.ts:79-273 | Every stored row becomes what the change set makes of it, or the apply throws for a stated cause and no row changes. |
| `RemoteApply.SparseRowThrows` | packages/core/src/sync/applyRemote.ts:159-171 | A stated row that misses a column of its table makes the apply throw. |
| `RemoteApply.UnsafeRowThrows` | packages/core/src/sync/applyRemote.ts:173-199 | So does a stated unsafe integer, unless the row lies under a local tombstone. |
| `RemoteApply.BadBlobThrows` | packages/core/src/sync/helpers.ts:52-71 | So does a blob that is neither absent, null nor decodable, wherever it stands. |
| `RemoteApply.WholeRowsApply` | packages/core/src/sync/applyRemote.ts:79-273 | Whole, safe and decodable rows under usable ids of syncing tables never throw. |
| `RemoteApply.ApplyIdempotent` | packages/core/src/sync/applyRemote.ts:102-272 | Applying the same change set twice is applying it once, in normal and replacement mode, and the second apply cannot throw. |
| `RemoteApply.ApplyKeepsLocalWork` | packages/core/src/sync/applyRemote.ts:183-269 | A dirty row or tombstone goes if and only if the change set deletes its id; otherwise it keeps its status, its list and every listed column. |
| `RemoteApply.AppliedRowsOk` | packages/core/src/sync/applyRemote.ts:173-199 | Rows stay well typed under an apply. |
| `PushLocal.StripInternal` | packages/core/src/sync/helpers.ts:40-50 | The column loop yields the user columns and the id, and nothing else. |
| `PushLocal.StripRoundTrip` | packages/core/src/sync/helpers.ts:39-71 | What a device sends holds the columns and the id alone, is full, decodes, and sanitizes on another device to exactly the values it was taken from. |
| `PushLocal.FetchTable` | packages/core/src/sync/fetchLocal.ts:40-57 | A table's snapshot says of every id exactly what the local row has to say; each dirty row is in its own bucket once, beside its frozen copy. |
| `PushLocal.FetchLocalChanges` | packages/core/src/sync/fetchLocal.ts:31-67 | The same for every table that syncs and no other; empty exactly when no row of those tables is dirty. |
| `PushLocal.MarkFrozen` | packages/core/src/sync/markAsSynced.ts:29-41 | Plans the accepted records still as they were pushed, and only those. |
| `PushLocal.MarkDeleted` | packages/core/src/sync/markAsSynced.ts:43-64 | Plans the accepted deletions still tombstoned, and only those. |
| `PushLocal.MarkLocalChangesAsSynced` | packages/core/src/sync/markAsSynced.ts:22-67 | In one batch, records still as pushed become synced and tombstones pushed go; rejected, since-edited and re-created rows stay exactly as they are. |
| `PushLocal.AcceptedRowsAreClean` | packages/core/src/sync/markAsSynced.ts:22-67 | Where the app has not touched a row since the snapshot, an accepted record ends synced with its values, an accepted deletion ends gone, and a rejected row stays. |
| `Knowledge.StepEvolves` | packages/server/src/engine.ts:146-396 | Every server step, of any scope, only moves each entry forward: the same, restamped later, or collected. |
| `Knowledge.KnowsEvolves` | packages/server/src/engine.ts:157-164 | What a device knows of a snapshot stays true of the store until the floor passes its cursor. |
| `Knowledge.KnowsAfterWrite` | packages/core/src/database/Collection.ts:171-270 | Local writes never make a device disagree with the server up to its cursor. |
| `Knowledge.DeliveryApplies` | packages/core/src/sync/applyRemote.ts:162-171 | A delivery of rows devices pushed never makes an apply throw. |
| `Knowledge.PullConverges` | packages/core/src/sync/synchronize.ts:301-341 | Applying a pull's reply leaves every row of the scope's tables dirty or exactly as the snapshot has it, after an incremental, a migration and a replacement pull alike. |
| `Knowledge.MarkSettles` | packages/core/src/sync/markAsSynced.ts:22-67 | After an accepted push every id it named is dirty or exactly as the server now has it; every other row is untouched. |
| `Knowledge.MarkKnows` | packages/core/src/sync/synchronize.ts:413-418 | A mark without a cursor to adopt keeps what the device knew at its old cursor. |
| `Knowledge.PushConverges` | packages/core/src/sync/synchronize.ts:413-437 | A replica correct at the old cursor is, with its accepted writes marked and the interleave applied, correct at the new one. |
| `Knowledge.PushKeepsDeliverable` | packages/core/src/sync/fetchLocal.ts:38-58 | A push leaves the server holding only rows every device can take in. |
| `Convergence.NextKeepsSound` | packages/core/src/sync/synchronize.ts:285-437 | Every step of every device and of the server keeps the system invariant, whatever is in flight. |
| `Convergence.RunsAreSound` | packages/core/src/sync/synchronize.ts:285-437 | So it holds at every point of every run of any number of devices. |
| `Convergence.EveryRunConverges` | packages/core/src/sync/synchronize.ts:285-437 | At every point of every run, a device whose cursor the floor has not passed holds each entry up to its cursor exactly as the server has it, nothing for a tombstone or an unknown id, or has the row dirty. |
| `Convergence.CleanPullShowsSnapshot` | packages/core/src/sync/synchronize.ts:327-341 | A device with nothing dirty after a pull shows exactly the live rows the pull's snapshot saw. |
| `Convergence.RepliesAlwaysApply` | packages/core/src/sync/applyRemote.ts:79-273 | No reply in flight can make a device throw: sync never wedges. |
| `Convergence.MarkAcknowledges` | packages/core/src/sync/markAsSynced.ts:22-67 | A mark takes a row's dirt only when the server holds exactly that record, or nothing live where it was deleted. |
| `Convergence.NothingLost` | packages/core/src/sync/synchronize.ts:285-437 | No step loses local work: a dirty row stays dirty with every edited column, unless the server acknowledged exactly that record or had itself deleted it. |
| `CrashWindow.UnadoptedFirstPullStrandsARow` | packages/core/src/sync/synchronize.ts:327-341 | The one crash excluded above: first pull applied, its cursor never stored, the row deleted and collected, the pull repeated. The device then holds for good a row the server does not have. |
| `CrashWindow.FromScratchConvergesIff` | packages/core/src/sync/synchronize.ts:301-341 | Exactly when: a pull without a cursor converges if and only if the device held no synced row the server has no entry for. |
| `CrashWindow.DeliveryConvergesIff` | packages/core/src/sync/applyRemote.ts:201-254 | Exactly when any delivery converges in normal mode: if and only if the device, right about every entry the server still holds, held no synced row without an entry. |
| `PullRaces.CompleteIff` | packages/server/src/memoryStore.ts:117-118 | The memory store's pull is no snapshot against gc: a reply collected after a gc is the window from before it if and only if the gc pruned no deletion of the window. |
| `PullRaces.RacedPullConvergesIff` | packages/server/src/memoryStore.ts:117-118 | A device served by such a pull converges if and only if it held no synced row whose entry is gone by then. |
| `PullRaces.RacedPullStrandsARow` | packages/server/src/engine.ts:150-174 | A concrete race: floor and revision read, then gc, then empty windows. A device right at cursor 1 ends at cursor 2 holding for good a row the server does not have. |
| `Synchronize.ClientStepsAreDeviceSteps` | packages/core/src/sync/synchronize.ts:251-462 | Each step the orchestrator takes, answered as the server's contracts have it, is a step of the convergence machine. |
| `Synchronize.SyncRun.PullOrResync` | packages/core/src/sync/synchronize.ts:286-321 | One pull from the stored cursor, and a second from scratch exactly when the first reply demanded it; the reply used is the transport's, and a failure has its cause. |
| `Synchronize.SyncRun.Resync` | packages/core/src/sync/synchronize.ts:307-321 | Exactly one pull without a cursor; a second resync demand or a lost reply is an error with nothing in flight. |
| `Synchronize.SyncRun.ApplyPulled` | packages/core/src/sync/synchronize.ts:325-348 | Fails for a moved cursor exactly when the cursor is not the one the pull started from, for an apply only when the apply fails; on success the reply's cursor is stored and the apply is the last step. |
| `Synchronize.SyncRun.PullPhase` | packages/core/src/sync/synchronize.ts:286-348 | What is asked of the server, how often, and that success leaves the reply's cursor stored. |
| `Synchronize.SyncRun.PushPhase` | packages/core/src/sync/synchronize.ts:360-437 | Nothing is pushed exactly when no row of a syncing table is dirty; otherwise one push of a traced snapshot under the pulled cursor, and its reply decides how the phase ends. |
| `Synchronize.SyncRun.AfterPush` | packages/core/src/sync/synchronize.ts:380-437 | Conflict is reported exactly for a conflict reply; a lost turn leaves the push given up; done means the reply was marked last. |
| `Synchronize.SyncRun.MarkPhase` | packages/core/src/sync/synchronize.ts:413-437 | Marks, and adopts interleave and cursor exactly when both came and the cursor has not moved. |
| `Synchronize.SyncRun.TakeInterleave` | packages/core/src/sync/synchronize.ts:424-436 | The interleave and its cursor together, or a throw that leaves the mark alone committed. |
| `Synchronize.SyncRun.Attempt` | packages/core/src/sync/synchronize.ts:285-437 | One attempt: pulls once or twice, pushes only if asked to, and ends with a cause for every way it can. |
| `Synchronize.Attempts` | packages/core/src/sync/synchronize.ts:255-257 | Five attempts unless told otherwise, and no retries still means one. |
| `Synchronize.SyncRun.Synchronize` | packages/core/src/sync/synchronize.ts:251-462 | Whatever the transport answers and the app writes meanwhile, the run is a run of client protocol steps. Without a push transport nothing is pushed; with one, done without a push means no syncing row is dirty; done with a push means the first reply that did not conflict was marked last; resynced exactly if an attempt pulled twice; the lease decides unavailable and lost; a throw has its cause in the trace. |
| `Brokers.Broker.Forward` | packages/driver-web/src/shared-worker.ts:514-532 | Waits in the backlog exactly while there is no compute or the re-open gate is shut; otherwise it is sent. |
| `Brokers.Broker.FlushBacklog` | packages/driver-web/src/shared-worker.ts:487-496 | The whole backlog goes out in its order, undo and all, and is empty. |
| `Brokers.Broker.OpenDatabase` | packages/driver-web/src/shared-worker.ts:670-728 | Refuses a join across storage kinds, joins a held name with a version query, and opens a name nobody holds. |
| `Brokers.Broker.CloseDatabase` | packages/driver-web/src/shared-worker.ts:729-740 | The last holder's close reaches the compute; any other is answered at once. |
| `Brokers.Broker.DestroyDatabase` | packages/driver-web/src/shared-worker.ts:741-756 | Tells every other holder exactly once and nobody else, forgets the name, and leaves the answer to the compute. |
| `Brokers.Broker.PublishChanges` | packages/driver-web/src/shared-worker.ts:645-669 | Posts the change set to every other holder exactly once and to nobody else, and answers the sender last. |
| `Brokers.Broker.Handle` | packages/driver-web/src/shared-worker.ts:605-760 | The routing half of the dispatcher, branch by branch. |
| `Brokers.Broker.OnResponse` | packages/driver-web/src/shared-worker.ts:412-435 | Takes the route off, undoes a failed open, delivers to the route's own port and id; an unknown id changes nothing. |
| `Brokers.Broker.FinishEpochReset` | packages/driver-web/src/shared-worker.ts:311-371 | In-flight requests go back in front of the backlog; held names no replayed open will open are set aside to restore. |
| `Brokers.Broker.AdoptComputePort` | packages/driver-web/src/shared-worker.ts:408-485 | Restores every name set aside once, in some order, and opens the gate when the last restore answers, or at once when there is none. |
| `BrokerPlans.ResetPlan` | packages/driver-web/src/shared-worker.ts:347-363 | A reset forgets no request and keeps their order. |
| `BrokerPlans.AdoptedPlan` | packages/driver-web/src/shared-worker.ts:448-485 | An adoption only puts its restores in front. |
| `BrokerPlans.ReplaySound` | packages/driver-web/src/shared-worker.ts:339-346 | From wherever the compute died, restoring what is held and not reopened by the replay makes the whole replay run without an open meeting an open. |
| `BrokerRuns.HandledShape` | packages/driver-web/src/shared-worker.ts:605-760 | A tab's request forwards at most one item, under its own port, id and place in the order: a join is refused exactly across storage kinds, a close forwarded exactly when nobody holds on, and what is posted is the refusal, the answer or the news to the other holders, exactly once each. |
| `Brokers.PublishedTells` | packages/driver-web/src/shared-worker.ts:656-668 | Handling a publish posts to each other holder once, then answers. |
| `Brokers.DestroyedTells` | packages/driver-web/src/shared-worker.ts:742-751 | Handling a destroy posts to each other holder once, and nothing else. |
| `BrokerRelay.HoldersStayDistinct` | packages/driver-web/src/shared-worker.ts:670-756 | Over any run every name's holders are a set. |
| `BrokerRelay.EveryPublishReachesHolders` | packages/driver-web/src/shared-worker.ts:645-669 | So over any run a publish reaches every other holder exactly once, before its own answer. |
| `BrokerRelay.PublishIsRelay` | packages/driver-web/src/shared-worker.ts:656-668 | Handling a publish puts into the tabs' ports exactly what the relay step of TabFreshness does. |
| `BrokerOpens.StepKeepsSound` | packages/driver-web/src/shared-worker.ts:311-760 | Every request, compute step, answer, late answer, death and adoption keeps the books: running what is outstanding ends with open exactly what is held. |
| `BrokerOpens.LateAnswerDropped` | packages/driver-web/src/shared-worker.ts:418-421 | An answer from a compute given up changes nothing. |
| `BrokerOpens.AnswersUndoNothing` | packages/driver-web/src/shared-worker.ts:686-693 | No failed open ever takes away a holder that counts. |
| `BrokerOpens.DrainedOpensAreHeld` | packages/driver-web/src/shared-worker.ts:311-756 | After any run with any number of compute deaths, once routes and backlog have drained, the names open on the compute are exactly the names with holders. |
| `BrokerOpens.OpensNeverMeetOpen` | packages/driver-web/src/shared-worker.ts:311-756 | No open ever reaches the compute for a name already open there, and every open the compute runs succeeds. |
| `BrokerOpens.FailedOpenKeepsBooksIff` | packages/driver-web/src/shared-worker.ts:686-693 | Whatever the tabs do, a failed open's undo keeps the books exactly when it does not empty the name's holders. |
| `BrokerReopen.ImpoliteRunStrandsAnOpen` | packages/driver-web/src/shared-worker.ts:694-720 | Without waiting for its open a tab can strand one: a concrete run that drains with a name open and held by nobody. |
| `BrokerStorage.HeldStorageSurvivesCrashes` | packages/driver-web/src/shared-worker.ts:461-468 | Once drained, every held name is open under the storage its holders asked for, after any number of compute deaths. |
| `BrokerRequests.StepConserves` | packages/driver-web/src/shared-worker.ts:311-532 | Every step keeps every accepted request in flight or in the backlog, or answered, and what waits in acceptance order. |
| `BrokerRequests.EveryRunConserves` | packages/driver-web/src/shared-worker.ts:311-532 | So it holds over every run, with no assumption on the tabs. |
| `BrokerRequests.InOnePlace` | packages/driver-web/src/shared-worker.ts:311-532 | At every point of every run an accepted request either waits, in one place only, or has been answered, to its own tab under its own id. |
| `SlotArbiters.SlotArbiter.GrantSlots` | packages/driver-web/src/shared-worker.ts:587-603 | The granting loop reaches the state in which the head must wait; the next rows say what that state keeps. |
| `SlotArbiters.SlotArbiter.AcquireSlot` | packages/driver-web/src/shared-worker.ts:607-615 | Queues behind everyone and grants what can be granted. |
| `SlotArbiters.SlotArbiter.ReleaseSlot` | packages/driver-web/src/shared-worker.ts:616-626 | Only the owner's release frees the slot. |
| `SlotArbiters.GrantedArbitrated` | packages/driver-web/src/shared-worker.ts:587-603 | Granting keeps exclusive slots alone and request order, and never leaves a grantable head waiting. |
| `SlotArbiters.ForeignReleaseIsNothing` | packages/driver-web/src/shared-worker.ts:616-626 | A release by anyone but the owner changes nothing. |
| `SlotArbiters.EveryStateArbitrated` | packages/driver-web/src/shared-worker.ts:574-626 | In every reachable state the requests are those asked, grants follow their order strictly and no grantable head waits. |
| `SlotArbiters.ExclusiveHeldAlone` | packages/driver-web/src/shared-worker.ts:568-573 | In every reachable state an exclusive slot is the only one held. |
| `SlotArbiters.GrantedThenWaiting` | packages/driver-web/src/shared-worker.ts:587-603 | Everyone who ever asked was granted or waits, in the order of asking. |
| `SlotArbiters.GrantedAfterFinitelyManyReleases` | packages/driver-web/src/shared-worker.ts:568-603 | The n-th request has been granted by the time n slots were released, whatever else happened. |
| `SlotArbiters.WaitingMeansHeld` | packages/driver-web/src/shared-worker.ts:587-603 | Somebody waits only while somebody holds. |
| `TabFreshness.StepKeepsSound` | packages/core/src/database/Database.ts:298-351 | Every step of every tab and of the broker keeps: no change set is behind a slot, none is unpublished once its slot is free, and every cache is storage up to what is still on its way. |
| `TabFreshness.BlocksSeeStorage` | packages/core/src/database/Database.ts:313-351 | While a tab's block is at the head of its queue every cached record equals the stored row. |
| `TabFreshness.EveryBlockSeesStorage` | packages/core/src/database/Database.ts:313-351 | So it is over every run of any number of tabs, from a block's start to its end. |
| `TabFreshness.NoLostUpdate` | packages/core/src/database/Database.ts:432-490 | A commit computed from a cached record is computed from the stored one: no update of another tab is lost. |
| `TabFreshness.NothingBehindGiveBack` | packages/driver-web/src/WebSqliteDriver.ts:506-536 | When the broker takes a slot back, everything committed under it has been relayed. |
| `TabFreshness.GrantedFresh` | packages/driver-web/src/shared-worker.ts:587-603 | New grants are held as asked for, under numbers never used before. |
| `TabFreshness.GrantsReach` | packages/driver-web/src/shared-worker.ts:596-598 | Every newly granted slot is sent to the tab it was granted to. |
| `TabSlots.SlotsNeverLost` | packages/core/src/database/Database.ts:333-344 | Over any run every held slot is on its way to its owner, in its queue, or on its way back. |
| `TabSlots.WaitersCanBeServed` | packages/core/src/database/Database.ts:298-351 | The tabs never deadlock: while anyone waits for a slot, work already under way can go on. |
| `SqlEncoding.ConditionEncoder.EncodeComparison` | packages/core/src/query/encodeQuery.ts:132-172 | Emits the comparison and appends exactly its arguments, in placeholder order. |
| `SqlEncoding.ConditionEncoder.EncodeCondition` | packages/core/src/query/encodeQuery.ts:174-200 | Throws exactly when some nested Q.on names a table the query does not join; otherwise emits the condition and appends exactly its arguments. |
| `SqlEncoding.ComparisonMeans` | packages/core/src/query/encodeQuery.ts:132-172 | A compiled comparison with its arguments bound has the truth value the comparison means, null included. |
| `SqlEncoding.ConditionMeans` | packages/core/src/query/encodeQuery.ts:174-200 | Binding the positional arguments to the emitted placeholders gives the tree's three-valued meaning and consumes exactly those arguments. |
| `QueryTrees.DeclaredIs` | packages/core/src/query/encodeQuery.ts:185-190 | A condition is accepted exactly when every table its Q.on clauses name, at any depth, is joined. |
| `QueryCompiler.ResolveJoins` | packages/core/src/query/encodeQuery.ts:78-102 | One join for each table asked for, in order, under its first declared association, a nested one only from a table already joined; throws exactly when no such joins exist. |
| `QueryCompiler.JoinsIff` | packages/core/src/query/encodeQuery.ts:78-102 | The same as an if and only if on the specification. |
| `QueryCompiler.EncodeQuery` | packages/core/src/query/encodeQuery.ts:53-255 | The loops assemble the whole statement; when it compiles and what it answers, order and page included, are the following rows. |
| `QueryMeaning.CompilesIff` | packages/core/src/query/encodeQuery.ts:69-102 | A query compiles exactly when it is no counted page, its joins resolve, and every Q.on names a joined table. |
| `QueryMeaning.OnMeans` | packages/core/src/query/encodeQuery.ts:202-212 | The emitted ON condition holds exactly for equal non-null keys and, where tombstones are filtered, a live row. |
| `QueryMeaning.JoinAllIs` | packages/core/src/query/encodeQuery.ts:202-212 | The emitted left joins produce exactly the rows a left join may put beside a main row. |
| `QueryMeaning.SelectedMeans` | packages/core/src/query/encodeQuery.ts:214-236 | A joined row passes the where clause exactly when it makes every condition true and its main row is live. |
| `QueryMeaning.ToOneJoins` | packages/core/src/query/encodeQuery.ts:221-232 | Without a to-many join nothing fans out, so leaving distinct off is right. |
| `QueryMeaning.MultiplicityMeans` | packages/core/src/query/encodeQuery.ts:202-236 | A main row comes out of the joins exactly when it matches, and at most once without a to-many join. |
| `QueryMeaning.AnswersEachMatchOnce` | packages/core/src/query/encodeQuery.ts:88-255 | A select answers each matching live main row exactly once and nothing else, through to-many and nested joins. |
| `QueryMeaning.DistinctIdsCount` | packages/core/src/query/encodeQuery.ts:225-232 | Counting distinct ids counts distinct rows. |
| `QueryMeaning.CountAgreesWithSelect` | packages/core/src/query/encodeQuery.ts:225-232 | Count mode returns the number of rows the select returns. |
| `QueryMeaning.LimitBindsLast` | packages/core/src/query/encodeQuery.ts:243-249 | Behind the conditions exactly take, then skip, are left to bind, in that order, and no offset without a limit. |
| `QueryMeaning.PageMeans` | packages/core/src/query/encodeQuery.ts:243-249 | Limit and offset with their placeholders bound cut exactly the page that skip and take state. |
| `QueryMeaning.SelectAnswersQuery` | packages/core/src/query/encodeQuery.ts:53-255 | What SQLite may answer to a compiled select is exactly the matching live rows once each, in an order the sort columns allow, from skip on, take many. |
| `QueryMeaning.CountAnswersQuery` | packages/core/src/query/encodeQuery.ts:225-232 | What it answers to a compiled count is the number of matching live rows. |
| `RecordCaches.StoreRoundTrip` | packages/core/src/database/RecordCache.ts:39-53 | A record written, read back as the driver returns it and sanitized is the record, booleans stored as numbers included. |
| `RecordCaches.EncodeBatch` | packages/core/src/database/encodeBatch.ts:67-86 | Fails exactly on an unknown table; otherwise the groups flatten to the operations in order and neighbouring groups differ. |
| `RecordCaches.GroupingIsTransparent` | packages/core/src/database/encodeBatch.ts:67-86 | Running the groups does what the operations do one by one, failure included. |
| `RecordCaches.CoherentAfterOneIff` | packages/core/src/database/Database.ts:444-483 | One operation keeps the cache equal to storage exactly when an update names a stored row and what it writes is live. |
| `RecordCaches.CoherentAfterBatch` | packages/core/src/database/Database.ts:432-490 | A committed batch keeps the cache equal to storage, whatever it does to one id in between. |
| `RecordCaches.EveryRunCoherent` | packages/core/src/database/Database.ts:432-490 | After any run of batches, failing ones included, and fetches, every cached record is live in storage and equals its stored row. |
| `RecordCaches.CachedDatabase.RecordFromRow` | packages/core/src/database/RecordCache.ts:34-53 | Returns the cached instance if there is one, else a new one holding the row, now cached; nothing else changes. |
| `RecordCaches.CachedDatabase.Follow` | packages/core/src/database/Database.ts:454-482 | An update keeps the cached instance and its identity, a create replaces it, a deletion marks it deleted and lets it go; no other entry moves. |
| `RecordCaches.CachedDatabase.BringUpToDate` | packages/core/src/database/Database.ts:444-483 | Over a whole batch an instance cached before it stays the cached one while only updated, and ends marked deleted and uncached at its first deletion. |
| `RecordCaches.CachedDatabase.Batch` | packages/core/src/database/Database.ts:432-490 | The grouped statements run or fail as one; on failure storage, cache and every instance are as before, on success the cache is brought up to date in place and stays equal to storage. |
| `BatchCommits.PublishedIsCommitted` | packages/core/src/database/Database.ts:444-489 | The change set a batch publishes makes of the live rows exactly what the batch made of them. |
| `BatchCommits.PublishedIsCached` | packages/core/src/database/Database.ts:444-489 | And of the committing tab's cache exactly what the batch's own update made of it. |
| `BatchCommits.BatchIsCommit` | packages/core/src/database/Database.ts:432-490 | So a batch inside an exclusive block is the commit step of TabFreshness. |
| `CloseDrain.Lifecycle.WithWorkSlot` | packages/core/src/database/Database.ts:313-334 | Refused exactly once close was requested; an accepted block is counted, and waits for its slot or joins the queue. |
| `CloseDrain.Lifecycle.OnSlot` | packages/core/src/database/Database.ts:333-350 | A granted block joins the queue; a failed grant drops it from the count. |
| `CloseDrain.Lifecycle.OnHeadSettled` | packages/core/src/database/WorkQueue.ts:49-59 | The head leaves, the next is scheduled exactly if there is one, and the block goes on to release its slot or drops out of the count. |
| `CloseDrain.Lifecycle.GateDirect` | packages/core/src/database/Database.ts:368-374 | Refused exactly once the teardown barrier has started. |
| `CloseDrain.Lifecycle.ApplyExternalChanges` | packages/core/src/database/Database.ts:502-509 | Refused exactly once close was requested; an admitted apply is queued behind everything there. |
| `CloseDrain.Lifecycle.CloseDatabase` | packages/core/src/database/Database.ts:403-429 | The first call refuses new work and waits for what was accepted, or puts the barrier in the queue; a repeated call changes nothing. |
| `CloseDrain.StepKeepsSound` | packages/core/src/database/Database.ts:313-429 | Every stretch between two awaits keeps the counts equal to the work there is, one item running, and close where its flags say it is. |
| `CloseDrain.CloseDrainsEverything` | packages/core/src/database/Database.ts:383-429 | In every interleaving the driver is closed at most once, and at and after that moment no block, apply or direct operation is running, queued or waiting, and none is admitted. |
| `CloseDrain.CloseNeverStuck` | packages/core/src/database/Database.ts:403-429 | No wake-up is lost: from the call until the driver is closed some work can go on, and what close waits for exists. |
| `CloseDrain.WorkProgresses` | packages/core/src/database/Database.ts:313-429 | Once close was called every step of work lowers a bound on the steps left. |
| `CloseDrain.CloseFinishes` | packages/core/src/database/Database.ts:403-429 | So close takes at most as many steps of work as were counted at the call, plus one for each direct operation admitted since. |

## Left out

- Base64: a blob on the wire and the bytes it stands for are one value, so decoding is a bijection by construction.
- JavaScript numbers: finite numbers are reals, with the safe-integer check kept; rounding, NaN and negative zero are not modelled beyond "not finite".
- Order inside JavaScript maps where no promise depends on it: tables of a change set, rows of a query, ids of a rejection list.
- Pulls of other devices in the middle of a push: a push and a pull are each one step of the convergence machine, with gc inside the push; a pull that runs between two writes of a push is what the snapshot assumption excludes.
- Pushes of other scopes between the store calls of one push; whole pushes of other scopes do interleave with everything.
- Push hooks and validators with effects of their own.
- `conflictResolver`, `unsafeSqlQuery`, `unsafeSqlExpr`, and application calls to the driver: arbitrary user code.
- `destroyPermanently` by the application on synced tables: the row is gone without a tombstone, and nothing is promised of it.
- The schema-version bookkeeping that decides on a migration pull: whether a pull is one is a parameter.
- Row counts and rejected records in the result of a synchronize run, log messages, abort signals and the validators of transport replies.
- Lease durations: a turn is granted or not; two runs over one database that both hold a turn are excluded, so no cursor moves under a run, though the guards against it are modelled.
- Marking compares the stored row with its frozen copy where the code compares the cached record; `RecordCaches` proves the two equal.
- Collection observers and notifications after a batch; the refusal of a batch outside a write block, which `TabFreshness` has as the condition of a commit.
- An operation's own raw becoming the cached record: the model makes the record when the batch commits, so an application that keeps writing to the raw it handed over is not captured.
- External changes with missing columns, from a context on an older schema, and the broker's shape check of a published change set: change sets carry whole records.
- Result payloads of the compute, the version query's reshaping included: an answer is success or failure under an id.
- Broker-hosted compute, its error fallback, exhausted recruitment (`failBacklog`), pings, the watchdog and the pool release: timer- and browser-specific; a death and an adoption are steps that may come at any point.
- Broker openings that fail for reasons of the file system.
- Column affinity, collations and SQLite's own less-than, like and instr: parameters of the meaning, the same on both sides; rows that the sort columns do not tell apart may come in any order.
- Empty `and`/`or` lists, whose SQL text is not an expression; a repeated table in a join, which SQL refuses.
- Text of names, quoting and the SQL strings themselves: statements are trees, and two operations share a statement exactly when kind and table agree.
- The Drizzle store, React hooks, schema builders, migrations, the C++ and native drivers, HTTP bindings, example apps.
- Brokers.Broker.PublishChanges: takes a well-shaped change set; the refusal of any other shape is not modelled.
- TabFreshness.NoLostUpdate: one row computed from its cached record; a commit over several rows follows from `EveryBlockSeesStorage` row by row.
- ServerRuns.PullAfterPushIsEmpty: served for certain only while no gc has raised the floor since the push read it, as the code has it.
