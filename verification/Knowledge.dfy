/**
 * What a device knows about its scope's entries, and how an apply and a mark
 * add to it. A snapshot is the store's contents when a reply was built.
 */
module Knowledge {
  import opened RawRecords
  import opened MemoryStores
  import opened SyncTypes
  import opened SyncContracts
  import opened Cursors
  import opened LocalDatabases
  import opened RemoteApply
  import opened PushLocal
  import opened ServerRuns

  // ----- how entries evolve -----

  /**
   * What one entry can have become since a snapshot at revision rev: the
   * same, stamped later, or collected once the floor passed its death.
   */
  predicate EntryEvolved(was: Option<Stored>, now: Option<Stored>, rev: nat, floor: nat) {
    || now == was
    || (now.Some? && now.value.rev > rev)
    || (now.None? && was.Some? && (floor > rev || (was.value.deleted && was.value.rev <= floor)))
  }

  ghost predicate Evolved(a: Db, b: Db) {
    && a.rev <= b.rev && a.floor <= b.floor
    && forall k: RowKey :: EntryEvolved(Lookup(a.rows, k), Lookup(b.rows, k), a.rev, b.floor)
  }

  lemma EvolvedRefl(a: Db)
    ensures Evolved(a, a)
  {
  }

  lemma EvolvedTrans(a: Db, b: Db, c: Db)
    requires ValidDb(b) && Evolved(a, b) && Evolved(b, c)
    ensures Evolved(a, c)
  {
    forall k: RowKey ensures EntryEvolved(Lookup(a.rows, k), Lookup(c.rows, k), a.rev, c.floor) {
      assert EntryEvolved(Lookup(a.rows, k), Lookup(b.rows, k), a.rev, b.floor);
      assert EntryEvolved(Lookup(b.rows, k), Lookup(c.rows, k), b.rev, c.floor);
    }
  }

  lemma PushedEntryEvolved(was: Option<Stored>, now: Option<Stored>, s: Statement, rev: nat, floor: nat)
    requires EntryAfter(was, now, s, rev, floor)
    ensures EntryEvolved(was, now, rev, floor)
  {
  }

  /** Every server step only moves entries forward. */
  lemma StepEvolves(config: Config, a: Db, step: ServerStep, b: Db)
    requires ValidDb(a) && Steps(config, a, step, b)
    ensures Evolved(a, b)
  {
    StepKeepsValid(config, a, step, b);
    hide AcceptedStatement, CompleteReply, NoStaleOverwrite, EntryAfter, ValidDb;
    forall k: RowKey ensures EntryEvolved(Lookup(a.rows, k), Lookup(b.rows, k), a.rev, b.floor) {
      if step.PushStep? && step.pushReply.Pushed? {
        PushedEntryEvolved(Lookup(a.rows, k), Lookup(b.rows, k),
                           AcceptedStatement(config.tables, step.scope, step.pushArgs.changes, step.pushReply.rejected, k), a.rev, b.floor);
      }
    }
  }

  // ----- a row against an entry -----

  /** The stored row holds the server's row as synced. */
  predicate Shows(raw: Raw, row: DirtyRaw, table: Table) {
    raw.status == Synced && SanitizeColumns(row, table.columns) == Some(raw.values)
  }

  /** Locally dirty, or exactly what the server has: its row, or nothing for a tombstone and for no entry at all. */
  predicate Settled(table: Table, local: Option<Raw>, entry: Option<Stored>) {
    || (local.Some? && IsDirty(local.value))
    || (if entry.Some? && !entry.value.deleted then local.Some? && Shows(local.value, entry.value.row, table) else local.None?)
  }

  /** Settled, unless the entry was stamped after the cursor. */
  predicate Agrees(table: Table, local: Option<Raw>, entry: Option<Stored>, cursor: nat) {
    (entry.Some? && entry.value.rev > cursor) || Settled(table, local, entry)
  }

  /** A device's rows agree with every entry of the scope up to the cursor. */
  ghost predicate Knows(schema: Schema, tables: seq<string>, scope: string, rows: LocalRows, db: Db, cursor: nat) {
    forall k: Key :: k.table in tables && k.table in schema ==>
      Agrees(schema[k.table], Lookup(rows, k), Entry(db, scope, k), cursor)
  }

  lemma AgreesEvolves(table: Table, local: Option<Raw>, was: Option<Stored>, now: Option<Stored>, rev: nat, floor: nat, cursor: nat)
    requires Agrees(table, local, was, cursor) && EntryEvolved(was, now, rev, floor)
    requires floor <= cursor <= rev
    ensures Agrees(table, local, now, cursor)
  {
  }

  /** What is known of a snapshot stays known until the floor passes the cursor. */
  lemma KnowsEvolves(schema: Schema, tables: seq<string>, scope: string, rows: LocalRows, seen: Db, db: Db, cursor: nat)
    requires Knows(schema, tables, scope, rows, seen, cursor) && Evolved(seen, db)
    requires db.floor <= cursor <= seen.rev
    ensures Knows(schema, tables, scope, rows, db, cursor)
  {
    hide Agrees, EntryEvolved;
    forall k: Key | k.table in tables && k.table in schema
      ensures Agrees(schema[k.table], Lookup(rows, k), Entry(db, scope, k), cursor)
    {
      AgreesEvolves(schema[k.table], Lookup(rows, k), Entry(seen, scope, k), Entry(db, scope, k), seen.rev, db.floor, cursor);
    }
  }

  /** Local writes only make rows dirty, so they never disagree. */
  lemma KnowsAfterWrite(schema: Schema, tables: seq<string>, scope: string, rows: LocalRows, w: LocalWrite, db: Db, cursor: nat)
    requires ValidSchema(schema) && RowsOk(rows, schema) && SyncedTables(schema, tables)
    requires Knows(schema, tables, scope, rows, db, cursor)
    ensures Knows(schema, tables, scope, AfterWrite(schema, rows, w), db, cursor)
  {
    LocalWriteDirties(schema, rows, w);
    hide Shows, AfterWrite, RowsOk, ValidSchema;
  }

  /** The server's tables are in every device's schema, and sync. */
  predicate SyncedTables(schema: Schema, tables: seq<string>) {
    forall t :: t in tables ==> t in schema && !schema[t].localOnly
  }

  // ----- rows the server holds -----

  /** A row every device can take in. */
  predicate Deliverable(row: DirtyRaw, table: Table) {
    IsFull(row, table) && DecodesBlobs(row, table) && SanitizeColumns(row, table.columns).Some?
  }

  ghost predicate HoldsDeliverable(schema: Schema, tables: seq<string>, scope: string, db: Db) {
    forall k :: k in db.rows && k.scope == scope && k.key.table in tables && k.key.table in schema && !db.rows[k].deleted ==>
      Deliverable(db.rows[k].row, schema[k.key.table])
  }

  // ----- applying a delivery -----

  /** The changes say exactly what the snapshot's window holds, or, for ids left out of it, nothing. */
  ghost predicate DeliversWindow(tables: seq<string>, scope: string, seen: Db, changes: Changes, since: nat, named: Key -> bool) {
    && changes.Keys == (set t | t in tables)
    && (forall t :: t in tables ==> WellFormedDelivery(changes[t]))
    && (forall k: Key :: k.table in tables ==>
          StatementFor(changes[k.table], k.id) == if named(k) then Silent else WindowStatement(seen, scope, k, since))
  }

  /** One delivered entry settles its row. */
  lemma ResolveSettles(table: Table, local: Option<Raw>, entry: Option<Stored>, s: Statement, since: nat, known: nat, replacement: bool, id: string)
    requires s == if entry.None? || entry.value.rev <= since then Silent
                  else if entry.value.deleted then Deletes else Upserts(entry.value.row)
    requires entry.Some? ==> entry.value.rev >= 1
    requires entry.Some? && !entry.value.deleted ==> SanitizeColumns(entry.value.row, table.columns).Some?
    requires local.Some? && local.value.status == Synced ==> local.value.changed == ""
    requires if replacement then since == 0 else since <= known && Agrees(table, local, entry, known)
    ensures Settled(table, Resolve(table, local, s, id, replacement), entry)
  {
    hide SanitizeColumns;
    if s.Upserts? && local.Some? && local.value.status == Synced {
      var base := SanitizeColumns(s.row, table.columns).value;
      assert Overlay(base, local.value.values, []) == base;
    }
  }

  lemma ApplySettles(schema: Schema, tables: seq<string>, scope: string, rows: LocalRows, seen: Db, changes: Changes,
                     since: nat, known: nat, replacement: bool, named: Key -> bool, after: LocalRows)
    requires SyncedTables(schema, tables) && RowsOk(rows, schema) && ValidDb(seen)
    requires HoldsDeliverable(schema, tables, scope, seen)
    requires DeliversWindow(tables, scope, seen, changes, since, named)
    requires IsApplied(schema, rows, changes, replacement, after)
    requires if replacement then since == 0 else since <= known
    requires !replacement ==> forall k: Key :: k.table in tables && !named(k) ==>
               Agrees(schema[k.table], Lookup(rows, k), Entry(seen, scope, k), known)
    ensures forall k: Key :: k.table in tables && !named(k) ==>
              Settled(schema[k.table], Lookup(after, k), Entry(seen, scope, k))
    ensures !replacement ==> forall k: Key :: k.table in tables && named(k) ==> Lookup(after, k) == Lookup(rows, k)
  {
    hide Resolve, StatementFor, Settled, WellFormedDelivery, Agrees, WellTyped, DecodesBlobs, IsFull;
    forall k: Key | k.table in tables && !named(k)
      ensures Settled(schema[k.table], Lookup(after, k), Entry(seen, scope, k))
    {
      assert Lookup(after, k) == ResolvedAt(schema, rows, changes, replacement, k);
      ResolveSettles(schema[k.table], Lookup(rows, k), Entry(seen, scope, k), StatementFor(changes[k.table], k.id),
                     since, known, replacement, k.id);
    }
    if !replacement {
      forall k: Key | k.table in tables && named(k) ensures Lookup(after, k) == Lookup(rows, k) {
        assert Lookup(after, k) == ResolvedAt(schema, rows, changes, replacement, k);
        assert StatementFor(changes[k.table], k.id) == Silent;
        ResolveSilent(schema[k.table], Lookup(rows, k), k.id);
      }
    }
  }

  lemma ResolveSilent(table: Table, local: Option<Raw>, id: string)
    ensures Resolve(table, local, Silent, id, false) == local
  {
  }

  /** Such a delivery never makes an apply throw. */
  lemma DeliveryApplies(schema: Schema, tables: seq<string>, scope: string, rows: LocalRows, seen: Db, changes: Changes,
                        since: nat, named: Key -> bool)
    requires SyncedTables(schema, tables) && ValidSchema(schema)
    requires HoldsDeliverable(schema, tables, scope, seen)
    requires DeliversWindow(tables, scope, seen, changes, since, named)
    ensures !ApplyFails(schema, rows, changes)
  {
    hide StatementFor, Deliverable, LastRow;
    forall t | t in changes && t in schema ensures !schema[t].localOnly && !TableFails(schema[t], rows, changes[t]) {
      var tc := changes[t];
      assert t in tables && WellFormedDelivery(tc);
      forall id | StatementFor(tc, id).Upserts?
        ensures Deliverable(StatementFor(tc, id).row, schema[t])
      {
        var k := Key(t, id);
        assert StatementFor(changes[k.table], k.id) == WindowStatement(seen, scope, k, since);
        assert RowKey(scope, k) in seen.rows;
      }
      DeliveredTableApplies(schema[t], rows, tc);
    }
  }

  lemma DeliveredTableApplies(table: Table, rows: LocalRows, tc: TableChanges)
    requires WellFormedDelivery(tc)
    requires forall id :: StatementFor(tc, id).Upserts? ==> Deliverable(StatementFor(tc, id).row, table)
    ensures !TableFails(table, rows, tc)
  {
    hide StatementFor, DecodesBlobs, IsFull;
    var wire := tc.created + tc.updated;
    forall row | row in wire ensures HasUsableId(row) && DecodesBlobs(row, table) {
      DeliveredRowIsStated(tc, row);
    }
    forall id ensures !StatesFailing(table, rows, tc, id) {
      if StatementFor(tc, id).Upserts? {
        assert Deliverable(StatementFor(tc, id).row, table);
      }
    }
  }

  lemma DeliveredRowIsStated(tc: TableChanges, row: DirtyRaw)
    requires NamesOnce(tc) && row in tc.created + tc.updated
    ensures HasUsableId(row) && StatementFor(tc, Get(row, "id").s) == Upserts(row)
  {
    hide LastRow;
    var wire := tc.created + tc.updated;
    var id := Get(row, "id").s;
    var i :| 0 <= i < |wire| && wire[i] == row;
    forall other | other in wire && Get(other, "id") == Str(id) ensures other == row {
      var j :| 0 <= j < |wire| && wire[j] == other;
    }
    LastRowOfDistinct(wire, row, id);
  }

  /** Every row of the scope's tables is settled: dirty, or exactly as the server has it. */
  ghost predicate Converged(schema: Schema, tables: seq<string>, scope: string, rows: LocalRows, db: Db) {
    forall k: Key :: k.table in tables && k.table in schema ==>
      Settled(schema[k.table], Lookup(rows, k), Entry(db, scope, k))
  }

  lemma ConvergedKnows(schema: Schema, tables: seq<string>, scope: string, rows: LocalRows, db: Db, cursor: nat)
    requires Converged(schema, tables, scope, rows, db)
    ensures Knows(schema, tables, scope, rows, db, cursor)
  {
    hide Settled;
  }

  // ----- after a pull -----

  function WindowStart(args: PullArgs): nat {
    if args.migration then 0 else SinceOf(args.cursor)
  }

  /** What a pull's reply delivers, and where its cursor lies. */
  lemma PullDelivers(seen: Db, scope: string, tables: seq<string>, args: PullArgs, reply: PullReply)
    requires ValidDb(seen) && seen.rev <= MAX_SAFE && PullContract(seen, scope, tables, args, reply) && reply.Pulled?
    ensures DeliversWindow(tables, scope, seen, reply.changes, WindowStart(args), k => false)
    ensures DecodeCursor(reply.cursor).Some? && SinceOf(Some(reply.cursor)) <= seen.rev
    ensures args.cursor.Some? ==> seen.floor <= SinceOf(args.cursor)
  {
    hide StatementFor, WindowStatement, WellFormedDelivery;
    var effMax :| IsEffectiveMax(seen, scope, effMax) && PullAnswers(seen, scope, tables, args, reply, effMax);
    DecodeEncode(effMax);
    forall k: Key | k.table in tables
      ensures StatementFor(reply.changes[k.table], k.id) == WindowStatement(seen, scope, k, WindowStart(args))
    {
      assert k == Key(k.table, k.id);
    }
  }

  /**
   * A device that knew the snapshot up to the cursor it sent, or that replaces
   * everything, has converged on the snapshot once the reply is applied.
   */
  lemma PullConverges(schema: Schema, tables: seq<string>, scope: string, rows: LocalRows, seen: Db,
                      args: PullArgs, reply: PullReply, replacement: bool, after: LocalRows)
    requires SyncedTables(schema, tables) && ValidSchema(schema) && RowsOk(rows, schema)
    requires ValidDb(seen) && seen.rev <= MAX_SAFE && HoldsDeliverable(schema, tables, scope, seen)
    requires PullContract(seen, scope, tables, args, reply) && reply.Pulled?
    requires if replacement then args == PullArgs(None, false) else Knows(schema, tables, scope, rows, seen, SinceOf(args.cursor))
    requires IsApplied(schema, rows, reply.changes, replacement, after)
    ensures Converged(schema, tables, scope, after, seen)
  {
    PullDelivers(seen, scope, tables, args, reply);
    hide Agrees, Settled, IsApplied, DeliversWindow, HoldsDeliverable, RowsOk, ValidDb, PullContract;
    ApplySettles(schema, tables, scope, rows, seen, reply.changes, WindowStart(args), SinceOf(args.cursor), replacement, k => false, after);
  }

  lemma PullNeverThrows(schema: Schema, tables: seq<string>, scope: string, rows: LocalRows, seen: Db, args: PullArgs, reply: PullReply)
    requires SyncedTables(schema, tables) && ValidSchema(schema)
    requires ValidDb(seen) && seen.rev <= MAX_SAFE && HoldsDeliverable(schema, tables, scope, seen)
    requires PullContract(seen, scope, tables, args, reply) && reply.Pulled?
    ensures !ApplyFails(schema, rows, reply.changes)
  {
    PullDelivers(seen, scope, tables, args, reply);
    hide PullContract, ValidDb, DeliversWindow, HoldsDeliverable;
    DeliveryApplies(schema, tables, scope, rows, seen, reply.changes, WindowStart(args), k => false);
  }

  // ----- after a push -----

  /** What was dirty when the push was built still is. */
  ghost predicate StillDirty(schema: Schema, frozen: LocalRows, rows: LocalRows) {
    forall k :: k in frozen && k.table in SyncTables(schema) && IsDirty(frozen[k]) ==> k in rows && IsDirty(rows[k])
  }

  /** A push in flight: the rows it was built from and what it says. */
  ghost predicate InFlight(schema: Schema, frozen: LocalRows, local: LocalChanges, rows: LocalRows) {
    && RowsOk(frozen, schema)
    && SnapshotOf(schema, frozen, local)
    && StillDirty(schema, frozen, rows)
  }

  lemma StillDirtyAfterWrite(schema: Schema, frozen: LocalRows, rows: LocalRows, w: LocalWrite)
    requires ValidSchema(schema) && RowsOk(rows, schema) && StillDirty(schema, frozen, rows)
    ensures StillDirty(schema, frozen, AfterWrite(schema, rows, w))
  {
    LocalWriteDirties(schema, rows, w);
    hide AfterWrite, RowsOk, ValidSchema;
  }

  predicate Named(local: LocalChanges, k: Key) {
    StatementFor(ChangesFor(local.changes, k.table), k.id) != Silent
  }

  lemma SnapshotNames(schema: Schema, frozen: LocalRows, local: LocalChanges, k: Key)
    requires ValidSchema(schema) && SnapshotOf(schema, frozen, local) && k.table in SyncTables(schema)
    ensures StatementFor(ChangesFor(local.changes, k.table), k.id) == LocalStatement(schema[k.table], Lookup(frozen, k))
    ensures forall row :: StillFrozen(local, k, row) && row.id == k.id ==> Lookup(frozen, k) == Some(row) && Pushable(row)
    ensures PushedDelete(local, k) ==> StatementFor(ChangesFor(local.changes, k.table), k.id) == Deletes
  {
    hide LocalStatement, LastRow, NamesOnce;
    assert SnapshotOfTable(schema[k.table], frozen, local.changes[k.table], local.dirty[k.table]);
    assert k == Key(schema[k.table].name, k.id);
  }

  /** A row the push named ends marked and equal to the entry, or stays dirty. */
  lemma MarkSettlesNamed(schema: Schema, tables: seq<string>, scope: string, frozen: LocalRows, rows: LocalRows,
                         local: LocalChanges, rejected: Rejections, was: Option<Stored>, now: Option<Stored>, rev: nat, floor: nat, k: Key)
    requires ValidSchema(schema) && RowsOk(frozen, schema) && SnapshotOf(schema, frozen, local) && StillDirty(schema, frozen, rows)
    requires k.table in tables && k.table in SyncTables(schema) && Named(local, k)
    requires k in rows ==> rows[k].id == k.id
    requires EntryAfter(was, now, AcceptedStatement(tables, scope, local.changes, rejected, RowKey(scope, k)), rev, floor)
    ensures Settled(schema[k.table], MarkedAt(rows, local, rejected, k), now)
  {
    hide StatementFor, SnapshotOf, RawOk, SanitizeColumns, Stripped, PrunedEntry;
    SnapshotNames(schema, frozen, local, k);
    assert k in frozen && IsDirty(frozen[k]) && k in rows;
    if k.id !in RejectedIn(rejected, k.table) {
      if StillFrozen(local, k, rows[k]) {
        StripRoundTrip(frozen[k], schema[k.table]);
      } else if frozen[k].status == Deleted {
        DeletedIsDead(was, now, rev, floor);
      }
    }
  }

  lemma DeletedIsDead(was: Option<Stored>, now: Option<Stored>, rev: nat, floor: nat)
    requires EntryAfter(was, now, Deletes, rev, floor)
    ensures now.Some? ==> now.value.deleted
  {
  }

  lemma MarkKeepsUnnamed(schema: Schema, frozen: LocalRows, rows: LocalRows, local: LocalChanges, rejected: Rejections, k: Key)
    requires ValidSchema(schema) && SnapshotOf(schema, frozen, local) && k.table in SyncTables(schema) && !Named(local, k)
    requires k in rows ==> rows[k].id == k.id
    ensures MarkedAt(rows, local, rejected, k) == Lookup(rows, k)
  {
    hide StatementFor, SnapshotOf, Stripped;
    SnapshotNames(schema, frozen, local, k);
  }

  lemma PushKeepsUnnamed(config: Config, pre: Db, post: Db, scope: string, local: LocalChanges, rejected: Rejections, k: Key)
    requires AllOrNothing(config, pre, post, scope, local.changes, rejected) && !Named(local, k)
    ensures Entry(post, scope, k) == PrunedEntry(Entry(pre, scope, k), post.floor)
  {
    hide StatementFor;
    assert EntryAfter(Lookup(pre.rows, RowKey(scope, k)), Lookup(post.rows, RowKey(scope, k)),
                      AcceptedStatement(config.tables, scope, local.changes, rejected, RowKey(scope, k)), pre.rev, post.floor);
  }

  /** What an accepted push and its mark leave: named rows settle, the others are as they were. */
  lemma MarkSettles(config: Config, schema: Schema, scope: string, frozen: LocalRows, rows: LocalRows, local: LocalChanges,
                    rejected: Rejections, pre: Db, post: Db, marked: LocalRows)
    requires ValidSchema(schema) && SyncedTables(schema, config.tables) && RowsOk(rows, schema)
    requires InFlight(schema, frozen, local, rows)
    requires AllOrNothing(config, pre, post, scope, local.changes, rejected)
    requires IsMarked(rows, local, rejected, marked)
    ensures forall k: Key :: k.table in config.tables && Named(local, k) ==>
              Settled(schema[k.table], Lookup(marked, k), Entry(post, scope, k))
    ensures forall k: Key :: k.table in config.tables && !Named(local, k) ==> Lookup(marked, k) == Lookup(rows, k)
  {
    hide Settled, Named, SnapshotOf, AcceptedStatement, EntryAfter, RawOk, StillDirty, MarkedAt, Refusable, Admissible;
    forall k: Key | k.table in config.tables && Named(local, k)
      ensures Settled(schema[k.table], Lookup(marked, k), Entry(post, scope, k))
    {
      assert EntryAfter(Lookup(pre.rows, RowKey(scope, k)), Lookup(post.rows, RowKey(scope, k)),
                        AcceptedStatement(config.tables, scope, local.changes, rejected, RowKey(scope, k)), pre.rev, post.floor);
      MarkSettlesNamed(schema, config.tables, scope, frozen, rows, local, rejected,
                       Entry(pre, scope, k), Entry(post, scope, k), pre.rev, post.floor, k);
    }
    forall k: Key | k.table in config.tables && !Named(local, k) ensures Lookup(marked, k) == Lookup(rows, k) {
      MarkKeepsUnnamed(schema, frozen, rows, local, rejected, k);
    }
  }

  lemma PrunedAgrees(table: Table, local: Option<Raw>, entry: Option<Stored>, floor: nat, cursor: nat)
    requires floor <= cursor && Agrees(table, local, entry, cursor)
    ensures Agrees(table, local, PrunedEntry(entry, floor), cursor)
  {
  }

  lemma PrunedSettled(table: Table, local: Option<Raw>, entry: Option<Stored>, floor: nat)
    requires Settled(table, local, entry)
    ensures Settled(table, local, PrunedEntry(entry, floor))
  {
  }

  /** A mark without a cursor to adopt keeps what the device knew at its old one. */
  lemma MarkKnows(config: Config, schema: Schema, scope: string, frozen: LocalRows, rows: LocalRows, local: LocalChanges,
                  rejected: Rejections, pre: Db, post: Db, marked: LocalRows, cursor: nat)
    requires ValidSchema(schema) && SyncedTables(schema, config.tables) && RowsOk(rows, schema)
    requires InFlight(schema, frozen, local, rows)
    requires AllOrNothing(config, pre, post, scope, local.changes, rejected)
    requires IsMarked(rows, local, rejected, marked)
    requires Knows(schema, config.tables, scope, rows, pre, cursor) && post.floor <= cursor
    ensures Knows(schema, config.tables, scope, marked, post, cursor)
  {
    MarkSettles(config, schema, scope, frozen, rows, local, rejected, pre, post, marked);
    hide Settled, Named, InFlight, AllOrNothing, IsMarked, RowsOk, PrunedEntry;
    forall k: Key | k.table in config.tables && k.table in schema
      ensures Agrees(schema[k.table], Lookup(marked, k), Entry(post, scope, k), cursor)
    {
      if !Named(local, k) {
        PushKeepsUnnamed(config, pre, post, scope, local, rejected, k);
        PrunedAgrees(schema[k.table], Lookup(rows, k), Entry(pre, scope, k), post.floor, cursor);
      }
    }
  }

  /** What a push's reply delivers when it carries a cursor. */
  lemma PushDelivers(config: Config, pre: Db, post: Db, scope: string, local: LocalChanges, cursor: string, reply: PushReply, floorSeen: nat)
    requires PushContract(config, pre, post, scope, PushArgs(local.changes, cursor), reply, floorSeen)
    requires ValidDb(post) && post.rev <= MAX_SAFE
    requires reply.Pushed? && reply.cursor.Some?
    ensures reply.changes.Some?
    ensures DeliversWindow(config.tables, scope, pre, reply.changes.value, SinceOf(Some(cursor)), k => Named(local, k))
    ensures pre.floor <= SinceOf(Some(cursor))
    ensures DecodeCursor(reply.cursor.value).Some? && SinceOf(reply.cursor) <= post.rev
  {
    hide StatementFor, WindowStatement, WellFormedDelivery, AllOrNothing, NoStaleOverwrite;
    var since := DecodeCursor(cursor).value;
    var max: nat :| IsMaxRev(post, scope, max) && reply.cursor == Some(EncodeCursor(if max > floorSeen then max else floorSeen));
    DecodeEncode(if max > floorSeen then max else floorSeen);
    forall k: Key | k.table in config.tables
      ensures StatementFor(reply.changes.value[k.table], k.id) == if Named(local, k) then Silent else WindowStatement(pre, scope, k, since)
    {
      assert k == Key(k.table, k.id);
    }
  }

  /**
   * A replica that knew the store up to the push's cursor has converged on the
   * store as the push left it, once its accepted writes are marked and the
   * interleaved changes applied.
   */
  lemma PushConverges(config: Config, schema: Schema, scope: string, frozen: LocalRows, rows: LocalRows, local: LocalChanges,
                      pre: Db, post: Db, cursor: string, reply: PushReply, floorSeen: nat, marked: LocalRows, after: LocalRows)
    requires ValidSchema(schema) && SyncedTables(schema, config.tables) && RowsOk(rows, schema)
    requires InFlight(schema, frozen, local, rows)
    requires ValidDb(pre) && ValidDb(post) && post.rev <= MAX_SAFE && HoldsDeliverable(schema, config.tables, scope, pre)
    requires PushContract(config, pre, post, scope, PushArgs(local.changes, cursor), reply, floorSeen)
    requires reply.Pushed? && reply.cursor.Some? && reply.changes.Some?
    requires Knows(schema, config.tables, scope, rows, pre, SinceOf(Some(cursor)))
    requires IsMarked(rows, local, reply.rejected, marked)
    requires IsApplied(schema, marked, reply.changes.value, false, after)
    ensures Converged(schema, config.tables, scope, after, post)
  {
    MarkSettles(config, schema, scope, frozen, rows, local, reply.rejected, pre, post, marked);
    MarkedRowsOk(schema, rows, local, reply.rejected, marked);
    PushDelivers(config, pre, post, scope, local, cursor, reply, floorSeen);
    hide Settled, Named, Agrees, InFlight, AllOrNothing, IsMarked, IsApplied, RowsOk, PrunedEntry, DeliversWindow, ValidDb, HoldsDeliverable, PushContract;
    var since := SinceOf(Some(cursor));
    ApplySettles(schema, config.tables, scope, marked, pre, reply.changes.value, since, since, false, k => Named(local, k), after);
    assert AllOrNothing(config, pre, post, scope, local.changes, reply.rejected) by { PushIsAllOrNothing(config, pre, post, scope, local, cursor, reply, floorSeen); }
    forall k: Key | k.table in config.tables && k.table in schema
      ensures Settled(schema[k.table], Lookup(after, k), Entry(post, scope, k))
    {
      if !Named(local, k) {
        PushKeepsUnnamed(config, pre, post, scope, local, reply.rejected, k);
        PrunedSettled(schema[k.table], Lookup(after, k), Entry(pre, scope, k), post.floor);
      }
    }
  }

  lemma PushIsAllOrNothing(config: Config, pre: Db, post: Db, scope: string, local: LocalChanges, cursor: string, reply: PushReply, floorSeen: nat)
    requires PushContract(config, pre, post, scope, PushArgs(local.changes, cursor), reply, floorSeen) && reply.Pushed?
    ensures AllOrNothing(config, pre, post, scope, local.changes, reply.rejected)
  {
    hide AllOrNothing, NoStaleOverwrite, CompleteReply;
  }

  /** A device's push leaves the server holding only rows every device can take in. */
  lemma PushKeepsDeliverable(config: Config, schema: Schema, scope: string, frozen: LocalRows, local: LocalChanges,
                             rejected: Rejections, pre: Db, post: Db)
    requires ValidSchema(schema) && SyncedTables(schema, config.tables)
    requires RowsOk(frozen, schema) && SnapshotOf(schema, frozen, local)
    requires HoldsDeliverable(schema, config.tables, scope, pre)
    requires AllOrNothing(config, pre, post, scope, local.changes, rejected)
    ensures HoldsDeliverable(schema, config.tables, scope, post)
  {
    hide StatementFor, Deliverable, SnapshotOf, RawOk, Stripped, Refusable, Admissible;
    forall k | k in post.rows && k.scope == scope && k.key.table in config.tables && k.key.table in schema && !post.rows[k].deleted
      ensures Deliverable(post.rows[k].row, schema[k.key.table])
    {
      assert EntryAfter(Lookup(pre.rows, k), Lookup(post.rows, k),
                        AcceptedStatement(config.tables, scope, local.changes, rejected, k), pre.rev, post.floor);
      SnapshotNames(schema, frozen, local, k.key);
      if k.key in frozen { StrippedDeliverable(frozen[k.key], schema[k.key.table]); }
    }
  }

  lemma StrippedDeliverable(raw: Raw, table: Table)
    requires ValidTable(table) && RawOk(raw, table)
    ensures Deliverable(Stripped(raw, table), table)
  {
    StripRoundTrip(raw, table);
  }
}
