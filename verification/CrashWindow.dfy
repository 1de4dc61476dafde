/**
 * The one crash the convergence machine has to exclude. The apply and the
 * stored cursor are two commits. A device that already had a cursor may stop
 * between them; one on its first pull may not: without a cursor the server
 * cannot tell that it is behind the gc floor, and a row deleted and collected
 * in the meantime stays on the device for good.
 */
module CrashWindow {
  import opened RawRecords
  import opened MemoryStores
  import opened SyncTypes
  import opened SyncContracts
  import opened Cursors
  import opened LocalDatabases
  import opened RemoteApply
  import opened ServerRuns
  import opened Knowledge

  const SCOPE := "s"
  const SCHEMA: Schema := map["t" := Table("t", [], false)]
  const CONFIG := Config(["t"], (t, row) => true, {}, (t, row) => false, None, None)
  const K := Key("t", "a")
  const AT := RowKey("s", K)
  const ROW: WireRow := map["id" := Str("a")]

  /** The store when the first pull was answered, after another device deleted the row, and after gc. */
  const SEEN := Db(map[AT := Stored(ROW, 1, false)], 1, 0)
  const DEAD := Db(map[AT := Stored(ROW, 2, true)], 2, 0)
  const COLLECTED := Db(map[], 2, 2)

  const FROM_SCRATCH := PullArgs(None, false)
  const FIRST := Pulled(map["t" := TableChanges([], [ROW], [])], "1")
  const SECOND := Pulled(map["t" := NO_CHANGES], "2")
  const DELETION := PushStep("s", PushArgs(map["t" := TableChanges([], [], ["a"])], "1"), Pushed(Some("2"), Some(map["t" := NO_CHANGES]), map[]), 0)

  /** No hook is configured: the deletion is in play, and nothing is answered. */
  const NOT_HOOKED := Hooks(SEEN, map["t" := {"a"}], map["t" := []], map[], map["t" := ([], ["a"])], map[])

  /** What the first pull leaves on the device. */
  const HELD: LocalRows := map[K := Raw("a", Synced, "", map[])]

  lemma Digits()
    ensures EncodeCursor(1) == "1" && EncodeCursor(2) == "2"
    ensures DecodeCursor("1") == Some(1) && DecodeCursor("2") == Some(2)
  {
    DecodeEncode(1);
    DecodeEncode(2);
  }

  lemma OneRow(id: string)
    ensures StatementFor(TableChanges([], [ROW], []), id) == if id == "a" then Upserts(ROW) else Silent
    ensures StatementFor(NO_CHANGES, id) == Silent
    ensures StatementFor(TableChanges([], [], ["a"]), id) == if id == "a" then Deletes else Silent
  {
    var none: seq<DirtyRaw> := [];
    var one: seq<DirtyRaw> := [ROW];
    assert none + one == one && none + none == none && one[..0] == none;
    assert LastRow(none, id) == None;
    assert LastRow(one, id) == if id == "a" then Some(ROW) else None;
  }

  lemma FirstIsAnswered()
    ensures ValidDb(SEEN) && PullContract(SEEN, SCOPE, CONFIG.tables, FROM_SCRATCH, FIRST)
  {
    Digits();
    assert IsMaxRev(SEEN, SCOPE, 1) by { assert AT in SEEN.rows; }
    assert IsEffectiveMax(SEEN, SCOPE, 1);
    assert FIRST.changes["t"].created + FIRST.changes["t"].updated == [ROW];
    forall id ensures StatementFor(FIRST.changes["t"], id) == WindowStatement(SEEN, SCOPE, Key("t", id), 0) {
      OneRow(id);
    }
    assert PullAnswers(SEEN, SCOPE, CONFIG.tables, FROM_SCRATCH, FIRST, 1);
  }

  lemma FirstIsApplied()
    ensures IsApplied(SCHEMA, map[], FIRST.changes, false, HELD)
  {
    forall k: Key ensures Lookup(HELD, k) == ResolvedAt(SCHEMA, map[], FIRST.changes, false, k) {
      OneRow(k.id);
    }
  }

  lemma DeletionIsAllOrNothing()
    ensures AllOrNothing(CONFIG, SEEN, DEAD, SCOPE, DELETION.pushArgs.changes, map[])
  {
    hide LastRow, StatementFor;
    forall k: RowKey ensures
      var s := AcceptedStatement(CONFIG.tables, SCOPE, DELETION.pushArgs.changes, map[], k);
      EntryAfter(Lookup(SEEN.rows, k), Lookup(DEAD.rows, k), s, SEEN.rev, DEAD.floor) && !s.Upserts?
    {
      OneRow(k.key.id);
    }
  }

  lemma DeletionIsComplete()
    ensures CompleteReply(CONFIG, SEEN, DEAD, SCOPE, DELETION.pushArgs, 1, DELETION.pushReply.cursor, DELETION.pushReply.changes, 0)
  {
    Digits();
    hide LastRow, StatementFor;
    assert IsMaxRev(DEAD, SCOPE, 2) by { assert AT in DEAD.rows; }
    assert NO_CHANGES.created + NO_CHANGES.updated == [];
    forall id ensures
      StatementFor(NO_CHANGES, id)
        == if StatementFor(ChangesFor(DELETION.pushArgs.changes, "t"), id) != Silent then Silent else WindowStatement(SEEN, SCOPE, Key("t", id), 1)
    {
      OneRow(id);
    }
  }

  lemma DeletionIsJudged()
    ensures Judgement(CONFIG, SEEN, DEAD, SCOPE, DELETION.pushArgs.changes, map[], NOT_HOOKED)
  {
    hide LastRow, StatementFor;
    GcOnlyRefl(SEEN);
    forall id
      ensures StatementFor(ChangesFor(DELETION.pushArgs.changes, "t"), id) == if id == "a" then Deletes else Silent
    {
      OneRow(id);
    }
  }

  lemma RowIsDeleted()
    ensures Steps(CONFIG, SEEN, DELETION, DEAD)
  {
    Digits();
    DeletionIsAllOrNothing();
    DeletionIsComplete();
    DeletionIsJudged();
    hide AllOrNothing, CompleteReply, Judgement;
    assert AT in SEEN.rows;
  }

  lemma TombstoneIsCollected()
    ensures Steps(CONFIG, DEAD, GcStep(2), COLLECTED)
  {
  }

  lemma SecondIsAnswered()
    ensures PullContract(COLLECTED, SCOPE, CONFIG.tables, FROM_SCRATCH, SECOND)
  {
    Digits();
    assert IsMaxRev(COLLECTED, SCOPE, 0);
    assert IsEffectiveMax(COLLECTED, SCOPE, 2);
    forall id ensures StatementFor(SECOND.changes["t"], id) == WindowStatement(COLLECTED, SCOPE, Key("t", id), 0) {
      OneRow(id);
    }
    assert PullAnswers(COLLECTED, SCOPE, CONFIG.tables, FROM_SCRATCH, SECOND, 2);
  }

  lemma SecondIsApplied()
    ensures IsApplied(SCHEMA, HELD, SECOND.changes, false, HELD)
  {
    forall k: Key ensures Lookup(HELD, k) == ResolvedAt(SCHEMA, HELD, SECOND.changes, false, k) {
      OneRow(k.id);
    }
  }

  /**
   * First pull answered and applied, its cursor never stored; the row deleted
   * by another device and collected; the pull repeated from scratch, applied
   * and adopted. The device now holds as synced, under a cursor the floor has
   * not passed, a row the server does not have.
   */
  lemma UnadoptedFirstPullStrandsARow()
    ensures PullContract(SEEN, SCOPE, CONFIG.tables, FROM_SCRATCH, FIRST)
    ensures IsApplied(SCHEMA, map[], FIRST.changes, false, HELD)
    ensures Steps(CONFIG, SEEN, DELETION, DEAD) && Steps(CONFIG, DEAD, GcStep(2), COLLECTED)
    ensures PullContract(COLLECTED, SCOPE, CONFIG.tables, FROM_SCRATCH, SECOND)
    ensures IsApplied(SCHEMA, HELD, SECOND.changes, false, HELD)
    ensures COLLECTED.floor <= SinceOf(Some(SECOND.cursor))
    ensures !Knows(SCHEMA, CONFIG.tables, SCOPE, HELD, COLLECTED, SinceOf(Some(SECOND.cursor)))
  {
    Digits();
    FirstIsAnswered();
    FirstIsApplied();
    RowIsDeleted();
    TombstoneIsCollected();
    SecondIsAnswered();
    SecondIsApplied();
    hide PullContract, IsApplied, Steps;
    assert !Agrees(SCHEMA["t"], Lookup(HELD, K), Entry(COLLECTED, SCOPE, K), 2);
  }

  // ----- exactly when a delivery converges -----

  /** No synced row the server has forgotten. */
  ghost predicate NothingForgotten(tables: seq<string>, scope: string, rows: LocalRows, db: Db) {
    forall k :: k in rows && k.table in tables && !IsDirty(rows[k]) ==> Entry(db, scope, k).Some?
  }

  /** What the device has of the entries the server still holds is right up to the window. */
  ghost predicate AgreesWithHeld(schema: Schema, tables: seq<string>, scope: string, rows: LocalRows, db: Db, since: nat) {
    forall k: Key :: k.table in tables && k.table in schema && Entry(db, scope, k).Some? ==>
      Agrees(schema[k.table], Lookup(rows, k), Entry(db, scope, k), since)
  }

  /**
   * A delivery to a device that is right about every entry the server still
   * holds, applied without replacing, converges exactly when the device held
   * no synced row the server has no entry for.
   */
  lemma DeliveryConvergesIff(schema: Schema, tables: seq<string>, scope: string, rows: LocalRows, seen: Db, changes: Changes,
                             since: nat, after: LocalRows)
    requires SyncedTables(schema, tables) && ValidSchema(schema) && RowsOk(rows, schema)
    requires ValidDb(seen) && HoldsDeliverable(schema, tables, scope, seen)
    requires DeliversWindow(tables, scope, seen, changes, since, k => false)
    requires AgreesWithHeld(schema, tables, scope, rows, seen, since)
    requires IsApplied(schema, rows, changes, false, after)
    ensures Converged(schema, tables, scope, after, seen) <==> NothingForgotten(tables, scope, rows, seen)
  {
    hide DeliversWindow, HoldsDeliverable, IsApplied, RowsOk, ValidSchema, Shows, ValidDb;
    if NothingForgotten(tables, scope, rows, seen) {
      ApplySettles(schema, tables, scope, rows, seen, changes, since, since, false, k => false, after);
    } else {
      var k :| k in rows && k.table in tables && !IsDirty(rows[k]) && Entry(seen, scope, k).None?;
      ForgottenStays(schema, tables, scope, rows, seen, changes, since, after, k);
      assert !Settled(schema[k.table], Lookup(after, k), Entry(seen, scope, k));
    }
  }

  /**
   * So a pull from scratch converges on its snapshot exactly when the device
   * held no synced row the server has no entry for. A device that only holds
   * its own unpushed rows always meets this; one that lost its first cursor
   * meets it until gc prunes an entry it holds.
   */
  lemma FromScratchConvergesIff(schema: Schema, tables: seq<string>, scope: string, rows: LocalRows, seen: Db, reply: PullReply, after: LocalRows)
    requires SyncedTables(schema, tables) && ValidSchema(schema) && RowsOk(rows, schema)
    requires ValidDb(seen) && seen.rev <= MAX_SAFE && HoldsDeliverable(schema, tables, scope, seen)
    requires PullContract(seen, scope, tables, FROM_SCRATCH, reply)
    requires reply.Pulled? && IsApplied(schema, rows, reply.changes, false, after)
    ensures Converged(schema, tables, scope, after, seen) <==> NothingForgotten(tables, scope, rows, seen)
  {
    PullDelivers(seen, scope, tables, FROM_SCRATCH, reply);
    assert AgreesWithHeld(schema, tables, scope, rows, seen, 0);
    hide PullContract, HoldsDeliverable, IsApplied, RowsOk, ValidSchema, Shows, ValidDb, DeliversWindow, Converged, NothingForgotten, AgreesWithHeld;
    DeliveryConvergesIff(schema, tables, scope, rows, seen, reply.changes, 0, after);
  }

  lemma ForgottenStays(schema: Schema, tables: seq<string>, scope: string, rows: LocalRows, seen: Db, changes: Changes,
                       since: nat, after: LocalRows, k: Key)
    requires DeliversWindow(tables, scope, seen, changes, since, k => false)
    requires IsApplied(schema, rows, changes, false, after)
    requires k in rows && k.table in tables && Entry(seen, scope, k).None?
    ensures Lookup(after, k) == Some(rows[k])
  {
    hide StatementFor, WellFormedDelivery;
    assert StatementFor(changes[k.table], k.id) == Silent;
    assert Lookup(after, k) == ResolvedAt(schema, rows, changes, false, k);
    if k.table in schema { ResolveSilent(schema[k.table], Some(rows[k]), k.id); }
  }
}
