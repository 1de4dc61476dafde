/**
 * A pull whose store is no snapshot. The seam asks for one
 * (packages/server/src/store.ts); the memory store's pull awaits between its
 * reads, and a gc may run there (packages/server/src/memoryStore.ts). A gc
 * after the revisions were read and before the windows are collected takes
 * deletions out of the reply that its cursor claims to cover.
 */
module PullRaces {
  import opened RawRecords
  import opened MemoryStores
  import opened SyncTypes
  import opened SyncContracts
  import opened Cursors
  import opened LocalDatabases
  import opened RemoteApply
  import opened Knowledge
  import opened CrashWindow

  /** A deletion of the window that a gc to the floor takes away. */
  ghost predicate PrunesWindow(tables: seq<string>, scope: string, db: Db, since: nat, floor: nat) {
    exists k :: k in db.rows && k.scope == scope && k.key.table in tables
                && db.rows[k].rev > since && Collectable(db.rows[k], floor)
  }

  /** A reply collected after the gc is the window from before it exactly when the gc pruned nothing of it. */
  lemma CompleteIff(pre: Db, mid: Db, tables: seq<string>, scope: string, since: nat, changes: Changes)
    requires GcOnly(pre, mid) && DeliversWindow(tables, scope, mid, changes, since, k => false)
    ensures DeliversWindow(tables, scope, pre, changes, since, k => false) <==> !PrunesWindow(tables, scope, pre, since, mid.floor)
  {
    hide StatementFor, WellFormedDelivery;
    if PrunesWindow(tables, scope, pre, since, mid.floor) {
      var k :| k in pre.rows && k.scope == scope && k.key.table in tables && pre.rows[k].rev > since && Collectable(pre.rows[k], mid.floor);
      assert k == RowKey(scope, k.key);
      assert StatementFor(changes[k.key.table], k.key.id) == WindowStatement(mid, scope, k.key, since) == Silent;
      assert WindowStatement(pre, scope, k.key, since) == Deletes;
    } else {
      forall k: Key | k.table in tables
        ensures WindowStatement(mid, scope, k, since) == WindowStatement(pre, scope, k, since)
      {
      }
    }
  }

  /** In particular it is whenever the floor has not passed the window's start. */
  lemma CompleteBelowCursor(pre: Db, mid: Db, tables: seq<string>, scope: string, since: nat)
    requires mid.floor <= since
    ensures !PrunesWindow(tables, scope, pre, since, mid.floor)
  {
  }

  /**
   * What that does to a device that was right up to its cursor: it converges
   * on the store as the gc left it exactly when it held no synced row whose
   * entry is gone by then.
   */
  lemma RacedPullConvergesIff(schema: Schema, tables: seq<string>, scope: string, rows: LocalRows, pre: Db, mid: Db,
                              changes: Changes, since: nat, after: LocalRows)
    requires SyncedTables(schema, tables) && ValidSchema(schema) && RowsOk(rows, schema)
    requires ValidDb(pre) && GcOnly(pre, mid) && HoldsDeliverable(schema, tables, scope, pre)
    requires Knows(schema, tables, scope, rows, pre, since)
    requires DeliversWindow(tables, scope, mid, changes, since, k => false)
    requires IsApplied(schema, rows, changes, false, after)
    ensures Converged(schema, tables, scope, after, mid) <==> NothingForgotten(tables, scope, rows, mid)
  {
    GcOnlyValid(pre, mid);
    HeldAfterGc(schema, tables, scope, rows, pre, mid, since);
    hide *;
    DeliveryConvergesIff(schema, tables, scope, rows, mid, changes, since, after);
  }

  lemma HeldAfterGc(schema: Schema, tables: seq<string>, scope: string, rows: LocalRows, pre: Db, mid: Db, since: nat)
    requires GcOnly(pre, mid) && HoldsDeliverable(schema, tables, scope, pre)
    requires Knows(schema, tables, scope, rows, pre, since)
    ensures HoldsDeliverable(schema, tables, scope, mid)
    ensures AgreesWithHeld(schema, tables, scope, rows, mid, since)
  {
    hide Settled, Deliverable;
    forall k: Key | k.table in tables && k.table in schema && Entry(mid, scope, k).Some?
      ensures Agrees(schema[k.table], Lookup(rows, k), Entry(mid, scope, k), since)
    {
      GcOnlyEntry(pre, mid, RowKey(scope, k));
    }
  }

  lemma RacedWindow()
    ensures Knows(SCHEMA, CONFIG.tables, SCOPE, HELD, DEAD, 1)
    ensures GcOnly(DEAD, COLLECTED) && DeliversWindow(CONFIG.tables, SCOPE, COLLECTED, SECOND.changes, 1, k => false)
    ensures PrunesWindow(CONFIG.tables, SCOPE, DEAD, 1, COLLECTED.floor)
  {
    hide StatementFor;
    assert AT in DEAD.rows && Collectable(DEAD.rows[AT], COLLECTED.floor);
    assert COLLECTED == Pruned(DEAD, 2);
    forall id: string
      ensures StatementFor(NO_CHANGES, id) == Silent
    {
      OneRow(id);
    }
  }

  /**
   * A device at cursor 1 holds the row another device has deleted at 2. Its
   * pull reads floor 0 and revision 2, gc runs to 2, and the windows come
   * back empty under cursor 2: the device is right before, and afterwards
   * holds for good, under a cursor the floor has not passed, a row the
   * server does not have.
   */
  lemma RacedPullStrandsARow()
    ensures Knows(SCHEMA, CONFIG.tables, SCOPE, HELD, DEAD, 1)
    ensures CursorServed(Some("1"), DEAD.floor, 2) && IsEffectiveMax(DEAD, SCOPE, 2) && SECOND.cursor == EncodeCursor(2)
    ensures GcOnly(DEAD, COLLECTED) && DeliversWindow(CONFIG.tables, SCOPE, COLLECTED, SECOND.changes, 1, k => false)
    ensures PrunesWindow(CONFIG.tables, SCOPE, DEAD, 1, COLLECTED.floor)
    ensures IsApplied(SCHEMA, HELD, SECOND.changes, false, HELD)
    ensures COLLECTED.floor <= SinceOf(Some(SECOND.cursor))
    ensures !Knows(SCHEMA, CONFIG.tables, SCOPE, HELD, COLLECTED, SinceOf(Some(SECOND.cursor)))
  {
    Digits();
    SecondIsApplied();
    RacedWindow();
    UnadoptedFirstPullStrandsARow();
    hide StatementFor, Knows, IsApplied, DeliversWindow, PrunesWindow;
    assert IsMaxRev(DEAD, SCOPE, 2) by { assert AT in DEAD.rows; }
  }
}
