/**
 * The client's half of a push: the snapshot of dirty rows that goes out
 * (packages/core/src/sync/fetchLocal.ts, helpers.ts) and what the reply lets
 * it mark as synced (markAsSynced.ts).
 */
module PushLocal {
  import opened RawRecords
  import opened MemoryStores
  import opened SyncTypes
  import opened Rowsets
  import opened LocalDatabases
  import opened RemoteApply

  // ----- the wire shape of a record -----

  /** User columns and the id; the sync fields never leave. */
  function Stripped(raw: Raw, table: Table): DirtyRaw {
    (map c | c in Names(table.columns) :: ValueOf(raw.values, c))["id" := Str(raw.id)]
  }

  method StripInternal(raw: Raw, table: Table) returns (result: DirtyRaw)
    requires ValidTable(table)
    ensures result == Stripped(raw, table)
  {
    StrippedNothing(raw, table);
    hide Stripped, ValidTable;
    result := map["id" := Str(raw.id)];
    for i := 0 to |table.columns|
      invariant result == Stripped(raw, table.(columns := table.columns[..i]))
    {
      StrippedOneMore(raw, table, i);
      var name := table.columns[i].name;
      result := result[name := ValueOf(raw.values, name)];
    }
    assert table.columns[..|table.columns|] == table.columns;
  }

  lemma StrippedNothing(raw: Raw, table: Table)
    ensures Stripped(raw, table.(columns := table.columns[..0])) == map["id" := Str(raw.id)]
  {
  }

  lemma StrippedOneMore(raw: Raw, table: Table, i: nat)
    requires ValidTable(table) && i < |table.columns|
    ensures Stripped(raw, table.(columns := table.columns[..i + 1]))
              == Stripped(raw, table.(columns := table.columns[..i]))[table.columns[i].name := ValueOf(raw.values, table.columns[i].name)]
  {
    var longer, name := table.columns[..i + 1], table.columns[i].name;
    assert longer[..|longer| - 1] == table.columns[..i];
    NamesOfPrefix(longer);
    assert name != "id";
    hide Names, ValidTable, ValueOf;
    var more := Stripped(raw, table.(columns := longer));
    var less := Stripped(raw, table.(columns := table.columns[..i]))[name := ValueOf(raw.values, name)];
    assert more.Keys == less.Keys;
  }

  /**
   * What a device sends is what another receives: the stripped record is
   * full, decodes, and sanitizes to exactly the values it was taken from.
   */
  lemma StripRoundTrip(raw: Raw, table: Table)
    requires ValidTable(table) && RawOk(raw, table)
    ensures var row := Stripped(raw, table);
            && Get(row, "id") == Str(raw.id)
            && row.Keys == Names(table.columns) + {"id"}
            && IsFull(row, table) && DecodesBlobs(row, table)
            && SanitizeColumns(row, table.columns) == Some(raw.values)
  {
    var row := Stripped(raw, table);
    assert "id" !in Names(table.columns);
    SanitizeAgrees(row, raw.values, table);
    forall column | column in table.columns
      ensures column.name in row
      ensures column.ctype == BlobColumn ==> Get(row, column.name).Null? || Get(row, column.name).Bytes?
    {
      assert column.name in Names(table.columns);
    }
  }

  // ----- the snapshot -----

  /** The rows of a push and frozen copies of the dirty records behind them. */
  datatype LocalChanges = LocalChanges(changes: Changes, dirty: map<string, seq<Raw>>)

  predicate Pushable(raw: Raw) {
    raw.status == Created || raw.status == Updated
  }

  /** What a device has to say about one of its rows. */
  function LocalStatement(table: Table, row: Option<Raw>): Statement {
    if row.None? || row.value.status == Synced then Silent
    else if row.value.status == Deleted then Deletes
    else Upserts(Stripped(row.value, table))
  }

  function SyncTables(schema: Schema): set<string> {
    set t | t in schema && !schema[t].localOnly
  }

  predicate DistinctRaws(raws: seq<Raw>) {
    forall i, j :: 0 <= i < j < |raws| ==> raws[i].id != raws[j].id
  }

  /** A snapshot of one table: every dirty row in its bucket, and nothing else. */
  ghost predicate SnapshotOfTable(table: Table, rows: LocalRows, tc: TableChanges, dirty: seq<Raw>) {
    && DistinctRaws(dirty)
    && NamesOnce(tc)
    && (forall raw :: raw in dirty <==> Lookup(rows, Key(table.name, raw.id)) == Some(raw) && Pushable(raw))
    && (forall row :: row in tc.created ==> exists raw :: raw in dirty && raw.status == Created && row == Stripped(raw, table))
    && (forall row :: row in tc.updated ==> exists raw :: raw in dirty && raw.status == Updated && row == Stripped(raw, table))
    && (forall id :: StatementFor(tc, id) == LocalStatement(table, Lookup(rows, Key(table.name, id))))
  }

  ghost predicate SnapshotOf(schema: Schema, rows: LocalRows, local: LocalChanges) {
    && local.changes.Keys == local.dirty.Keys == SyncTables(schema)
    && forall t :: t in SyncTables(schema) ==> SnapshotOfTable(schema[t], rows, local.changes[t], local.dirty[t])
  }

  /** One status's rows of a table, as a query returns them: each once. */
  method QueryStatus(rows: LocalRows, table: string, status: Status) returns (found: seq<Raw>)
    requires KeyedById(rows)
    ensures DistinctRaws(found)
    ensures forall raw :: raw in found <==> Lookup(rows, Key(table, raw.id)) == Some(raw) && raw.status == status
  {
    found := [];
    var todo := rows.Keys;
    while todo != {}
      invariant todo <= rows.Keys
      invariant DistinctRaws(found)
      invariant forall raw :: raw in found <==>
                  Lookup(rows, Key(table, raw.id)) == Some(raw) && raw.status == status && Key(table, raw.id) !in todo
      decreases |todo|
    {
      var k :| k in todo;
      assert k == Key(k.table, rows[k].id);
      forall i | 0 <= i < |found| ensures k.table == table ==> found[i].id != rows[k].id {
        assert found[i] in found;
      }
      todo := todo - {k};
      if k.table == table && rows[k].status == status {
        found := found + [rows[k]];
      }
    }
  }

  method StripAll(raws: seq<Raw>, table: Table) returns (rows: seq<DirtyRaw>)
    requires ValidTable(table)
    ensures |rows| == |raws|
    ensures forall i :: 0 <= i < |raws| ==> rows[i] == Stripped(raws[i], table)
  {
    rows := [];
    for i := 0 to |raws|
      invariant |rows| == i
      invariant forall j :: 0 <= j < i ==> rows[j] == Stripped(raws[j], table)
    {
      var row := StripInternal(raws[i], table);
      rows := rows + [row];
    }
  }

  method IdsOfRaws(raws: seq<Raw>) returns (ids: seq<string>)
    ensures |ids| == |raws|
    ensures forall i :: 0 <= i < |raws| ==> ids[i] == raws[i].id
  {
    ids := [];
    for i := 0 to |raws|
      invariant |ids| == i
      invariant forall j :: 0 <= j < i ==> ids[j] == raws[j].id
    {
      ids := ids + [raws[i].id];
    }
  }

  method FetchTable(table: Table, rows: LocalRows) returns (tc: TableChanges, dirty: seq<Raw>)
    requires ValidTable(table) && KeyedById(rows)
    ensures SnapshotOfTable(table, rows, tc, dirty)
  {
    var created := QueryStatus(rows, table.name, Created);
    var updated := QueryStatus(rows, table.name, Updated);
    var deleted := QueryStatus(rows, table.name, Deleted);
    var createdRows := StripAll(created, table);
    var updatedRows := StripAll(updated, table);
    var deletedIds := IdsOfRaws(deleted);
    tc := TableChanges(createdRows, updatedRows, deletedIds);
    dirty := created + updated;
    SnapshotIsOfTable(table, rows, created, updated, deleted, tc);
  }

  lemma SnapshotIsOfTable(table: Table, rows: LocalRows, created: seq<Raw>, updated: seq<Raw>, deleted: seq<Raw>, tc: TableChanges)
    requires ValidTable(table) && KeyedById(rows)
    requires DistinctRaws(created) && DistinctRaws(updated) && DistinctRaws(deleted)
    requires forall raw :: raw in created <==> Lookup(rows, Key(table.name, raw.id)) == Some(raw) && raw.status == Created
    requires forall raw :: raw in updated <==> Lookup(rows, Key(table.name, raw.id)) == Some(raw) && raw.status == Updated
    requires forall raw :: raw in deleted <==> Lookup(rows, Key(table.name, raw.id)) == Some(raw) && raw.status == Deleted
    requires |tc.created| == |created| && forall i :: 0 <= i < |created| ==> tc.created[i] == Stripped(created[i], table)
    requires |tc.updated| == |updated| && forall i :: 0 <= i < |updated| ==> tc.updated[i] == Stripped(updated[i], table)
    requires |tc.deleted| == |deleted| && forall i :: 0 <= i < |deleted| ==> tc.deleted[i] == deleted[i].id
    ensures SnapshotOfTable(table, rows, tc, created + updated)
  {
    hide ValidTable, Stripped, StatementFor, NamesOnce;
    var dirty := created + updated;
    var wire := tc.created + tc.updated;
    forall i, j | 0 <= i < j < |dirty| ensures dirty[i].id != dirty[j].id {
      assert dirty[i] in dirty && dirty[j] in dirty;
      assert i < |created| ==> dirty[i] in created;
      assert j >= |created| ==> dirty[j] in updated;
    }
    forall i | 0 <= i < |dirty| ensures wire[i] == Stripped(dirty[i], table) && Get(wire[i], "id") == Str(dirty[i].id) && dirty[i].id != "" {
      assert dirty[i] in dirty;
      StrippedId(dirty[i], table);
    }
    forall i, j | 0 <= i < |dirty| && 0 <= j < |tc.deleted| ensures dirty[i].id != tc.deleted[j] {
      assert dirty[i] in dirty && deleted[j] in deleted;
    }
    StrippedNamesOnce(dirty, tc);
    InBucket(created, dirty, table, Created, tc.created);
    InBucket(updated, dirty, table, Updated, tc.updated);
    forall id ensures StatementFor(tc, id) == LocalStatement(table, Lookup(rows, Key(table.name, id))) {
      hide LocalStatement;
      SnapshotSays(table, rows, dirty, deleted, tc, id);
    }
  }

  lemma StrippedNamesOnce(dirty: seq<Raw>, tc: TableChanges)
    requires DistinctRaws(dirty) && |tc.created + tc.updated| == |dirty|
    requires forall i :: 0 <= i < |dirty| ==> Get((tc.created + tc.updated)[i], "id") == Str(dirty[i].id) && dirty[i].id != ""
    requires forall i, j :: 0 <= i < j < |tc.deleted| ==> tc.deleted[i] != tc.deleted[j]
    requires forall i, j :: 0 <= i < |dirty| && 0 <= j < |tc.deleted| ==> dirty[i].id != tc.deleted[j]
    ensures NamesOnce(tc)
  {
    var wire := tc.created + tc.updated;
    forall row | row in wire ensures HasUsableId(row) && Get(row, "id").s !in tc.deleted {
      var i :| 0 <= i < |wire| && wire[i] == row;
    }
  }

  lemma InBucket(raws: seq<Raw>, dirty: seq<Raw>, table: Table, status: Status, bucket: seq<DirtyRaw>)
    requires forall raw :: raw in raws ==> raw.status == status && raw in dirty
    requires |bucket| == |raws| && forall i :: 0 <= i < |raws| ==> bucket[i] == Stripped(raws[i], table)
    ensures forall row :: row in bucket ==> exists raw :: raw in dirty && raw.status == status && row == Stripped(raw, table)
  {
    hide Stripped;
    forall row | row in bucket ensures exists raw :: raw in dirty && raw.status == status && row == Stripped(raw, table) {
      var i :| 0 <= i < |bucket| && bucket[i] == row;
      assert raws[i] in raws;
    }
  }

  lemma StrippedId(raw: Raw, table: Table)
    ensures Get(Stripped(raw, table), "id") == Str(raw.id)
  {
  }

  lemma SnapshotSays(table: Table, rows: LocalRows, dirty: seq<Raw>, deleted: seq<Raw>, tc: TableChanges, id: string)
    requires KeyedById(rows)
    requires forall raw :: raw in dirty <==> Lookup(rows, Key(table.name, raw.id)) == Some(raw) && Pushable(raw)
    requires forall raw :: raw in deleted <==> Lookup(rows, Key(table.name, raw.id)) == Some(raw) && raw.status == Deleted
    requires |tc.created + tc.updated| == |dirty|
    requires forall i :: 0 <= i < |dirty| ==>
               (tc.created + tc.updated)[i] == Stripped(dirty[i], table) && Get((tc.created + tc.updated)[i], "id") == Str(dirty[i].id)
    requires DistinctRaws(dirty)
    requires |tc.deleted| == |deleted| && forall i :: 0 <= i < |deleted| ==> tc.deleted[i] == deleted[i].id
    ensures StatementFor(tc, id) == LocalStatement(table, Lookup(rows, Key(table.name, id)))
  {
    hide Stripped, LastRow;
    var row := Lookup(rows, Key(table.name, id));
    var wire := tc.created + tc.updated;
    LastRowFinds(wire, id);
    if row.Some? && row.value.status == Deleted {
      assert row.value in deleted;
      var i :| 0 <= i < |deleted| && deleted[i] == row.value;
      assert tc.deleted[i] == id;
    } else {
      forall i | 0 <= i < |tc.deleted| ensures tc.deleted[i] != id {
        assert deleted[i] in deleted;
      }
      if row.Some? && Pushable(row.value) {
        assert row.value in dirty;
        var i :| 0 <= i < |dirty| && dirty[i] == row.value;
        forall other | other in wire && Get(other, "id") == Str(id) ensures other == wire[i] {
          var j :| 0 <= j < |wire| && wire[j] == other;
          assert dirty[j].id == id;
        }
        LastRowOfDistinct(wire, wire[i], id);
      } else {
        forall other | other in wire ensures Get(other, "id") != Str(id) {
          var j :| 0 <= j < |wire| && wire[j] == other;
          assert dirty[j] in dirty;
        }
      }
    }
  }

  /** One read block over every table that syncs. */
  method FetchLocalChanges(database: LocalDatabase) returns (local: LocalChanges, isEmpty: bool)
    requires database.Valid()
    ensures SnapshotOf(database.schema, database.rows, local)
    ensures isEmpty <==> forall k :: k in database.rows && k.table in SyncTables(database.schema) ==> !IsDirty(database.rows[k])
  {
    hide SnapshotOfTable, ValidTable, RawOk;
    local := LocalChanges(map[], map[]);
    isEmpty := true;
    var todo := SyncTables(database.schema);
    while todo != {}
      invariant todo <= SyncTables(database.schema)
      invariant local.changes.Keys == local.dirty.Keys == SyncTables(database.schema) - todo
      invariant forall t :: t in local.changes ==> SnapshotOfTable(database.schema[t], database.rows, local.changes[t], local.dirty[t])
      invariant isEmpty <==> forall k :: k in database.rows && k.table in local.changes ==> !IsDirty(database.rows[k])
      decreases |todo|
    {
      var t :| t in todo;
      todo := todo - {t};
      var tc, dirty := FetchTable(database.schema[t], database.rows);
      EmptyMeansClean(database.schema[t], database.rows, tc, dirty);
      isEmpty := isEmpty && |tc.created| == 0 && |tc.updated| == 0 && |tc.deleted| == 0;
      local := LocalChanges(local.changes[t := tc], local.dirty[t := dirty]);
    }
  }

  lemma EmptyMeansClean(table: Table, rows: LocalRows, tc: TableChanges, dirty: seq<Raw>)
    requires KeyedById(rows) && SnapshotOfTable(table, rows, tc, dirty)
    ensures |tc.created| == |tc.updated| == |tc.deleted| == 0 <==>
              forall k :: k in rows && k.table == table.name ==> !IsDirty(rows[k])
  {
    hide Stripped;
    if |tc.created| == |tc.updated| == |tc.deleted| == 0 {
      assert tc.created + tc.updated == [];
      forall k | k in rows && k.table == table.name ensures !IsDirty(rows[k]) {
        assert k == Key(table.name, k.id);
        assert StatementFor(tc, k.id) == Silent;
      }
    } else if |tc.created| > 0 {
      assert tc.created[0] in tc.created;
      var raw :| raw in dirty && raw.status == Created && tc.created[0] == Stripped(raw, table);
      assert Key(table.name, raw.id) in rows;
    } else if |tc.updated| > 0 {
      assert tc.updated[0] in tc.updated;
      var raw :| raw in dirty && raw.status == Updated && tc.updated[0] == Stripped(raw, table);
      assert Key(table.name, raw.id) in rows;
    } else {
      var id := tc.deleted[0];
      assert StatementFor(tc, id) == Deletes;
      assert Key(table.name, id) in rows;
    }
  }

  // ----- marking -----

  /** The row is still the record that went out. */
  predicate StillFrozen(local: LocalChanges, k: Key, row: Raw) {
    k.table in local.dirty && row in local.dirty[k.table]
  }

  predicate PushedDelete(local: LocalChanges, k: Key) {
    k.table in local.changes && k.id in local.changes[k.table].deleted
  }

  /** What an accepted push makes of one stored row. */
  function MarkedAt(rows: LocalRows, local: LocalChanges, rejected: Rejections, k: Key): Option<Raw> {
    var row := Lookup(rows, k);
    if row.None? || k.id in RejectedIn(rejected, k.table) then row
    else if StillFrozen(local, k, row.value) then Some(row.value.(status := Synced, changed := ""))
    else if PushedDelete(local, k) && row.value.status == Deleted then None
    else row
  }

  ghost predicate IsMarked(rows: LocalRows, local: LocalChanges, rejected: Rejections, after: LocalRows) {
    forall k: Key :: Lookup(after, k) == MarkedAt(rows, local, rejected, k)
  }

  /** Frozen records are live and listed once. */
  ghost predicate WellFrozen(local: LocalChanges) {
    forall t :: t in local.dirty ==> DistinctRaws(local.dirty[t]) && forall raw :: raw in local.dirty[t] ==> Pushable(raw)
  }

  ghost predicate MarkPlans(rows: LocalRows, local: LocalChanges, rejected: Rejections, ops: seq<Op>, handled: set<Key>) {
    && TouchesOnce(ops)
    && (forall op :: op in ops ==> !op.Create? && KeyOf(op) in handled)
    && (forall k :: k in handled ==> OutcomeAt(rows, ops, k) == MarkedAt(rows, local, rejected, k))
  }

  lemma MarkPlansMore(rows: LocalRows, local: LocalChanges, rejected: Rejections, ops: seq<Op>, handled: set<Key>, op: Op)
    requires MarkPlans(rows, local, rejected, ops, handled) && KeyOf(op) !in handled && !op.Create?
    requires Outcome(Lookup(rows, KeyOf(op)), op) == MarkedAt(rows, local, rejected, KeyOf(op))
    ensures MarkPlans(rows, local, rejected, ops + [op], handled + {KeyOf(op)})
  {
    hide Outcome, MarkedAt;
    var more := ops + [op];
    forall i, j | 0 <= i < j < |more| ensures KeyOf(more[i]) != KeyOf(more[j]) {
      assert more[i] in ops;
    }
    assert more[..|ops|] == ops;
    forall k | k in handled + {KeyOf(op)} ensures OutcomeAt(rows, more, k) == MarkedAt(rows, local, rejected, k) {
      if k != KeyOf(op) { assert OutcomeAt(rows, ops, k) == MarkedAt(rows, local, rejected, k); }
    }
  }

  lemma MarkPlansSkip(rows: LocalRows, local: LocalChanges, rejected: Rejections, ops: seq<Op>, handled: set<Key>, k: Key)
    requires MarkPlans(rows, local, rejected, ops, handled) && k !in handled
    requires MarkedAt(rows, local, rejected, k) == Lookup(rows, k)
    ensures MarkPlans(rows, local, rejected, ops, handled + {k})
  {
    hide MarkedAt;
    OpAtFinds(ops, k);
  }

  /** The keys a table's frozen records account for: those still as frozen. */
  ghost function FrozenKeys(rows: LocalRows, t: string, frozen: seq<Raw>): set<Key> {
    set raw | raw in frozen && Lookup(rows, Key(t, raw.id)) == Some(raw) :: Key(t, raw.id)
  }

  method MarkFrozen(rows: LocalRows, local: LocalChanges, rejected: Rejections, t: string, before: seq<Op>, ghost handled: set<Key>)
    returns (ops: seq<Op>)
    requires t in local.dirty && WellFrozen(local)
    requires MarkPlans(rows, local, rejected, before, handled)
    requires forall k :: k in handled ==> k.table != t
    ensures MarkPlans(rows, local, rejected, ops, handled + FrozenKeys(rows, t, local.dirty[t]))
  {
    hide MarkPlans, Pushable;
    ops := before;
    var frozen := local.dirty[t];
    assert handled + FrozenKeys(rows, t, frozen[..0]) == handled;
    for i := 0 to |frozen|
      invariant MarkPlans(rows, local, rejected, ops, handled + FrozenKeys(rows, t, frozen[..i]))
    {
      var k := Key(t, frozen[i].id);
      NextFrozen(rows, t, frozen, i);
      ghost var settled := handled + FrozenKeys(rows, t, frozen[..i]);
      if k in rows && rows[k] == frozen[i] {
        assert handled + FrozenKeys(rows, t, frozen[..i + 1]) == settled + {k};
        if frozen[i].id in RejectedIn(rejected, t) {
          MarkPlansSkip(rows, local, rejected, ops, settled, k);
        } else {
          var synced := frozen[i].(status := Synced, changed := "");
          MarkPlansMore(rows, local, rejected, ops, settled, Update(t, synced));
          ops := ops + [Update(t, synced)];
        }
      } else {
        assert handled + FrozenKeys(rows, t, frozen[..i + 1]) == settled;
      }
    }
    assert frozen[..|frozen|] == frozen;
  }

  lemma NextFrozen(rows: LocalRows, t: string, frozen: seq<Raw>, i: nat)
    requires DistinctRaws(frozen) && i < |frozen|
    ensures frozen[i] in frozen
    ensures var k := Key(t, frozen[i].id);
            && k !in FrozenKeys(rows, t, frozen[..i])
            && FrozenKeys(rows, t, frozen[..i + 1])
                 == FrozenKeys(rows, t, frozen[..i]) + if Lookup(rows, k) == Some(frozen[i]) then {k} else {}
  {
    assert frozen[..i + 1] == frozen[..i] + [frozen[i]];
  }

  /** The keys a table's pushed deletions account for: those still tombstoned. */
  ghost function BuriedKeys(rows: LocalRows, t: string, ids: seq<string>): set<Key> {
    set id | id in ids && Key(t, id) in rows && rows[Key(t, id)].status == Deleted :: Key(t, id)
  }

  method MarkDeleted(rows: LocalRows, local: LocalChanges, rejected: Rejections, t: string, before: seq<Op>, ghost handled: set<Key>)
    returns (ops: seq<Op>)
    requires t in local.changes && WellFrozen(local) && KeyedById(rows) && NamesOnce(local.changes[t])
    requires MarkPlans(rows, local, rejected, before, handled)
    requires forall k :: k in handled && k.table == t ==> k in rows && rows[k].status != Deleted
    ensures MarkPlans(rows, local, rejected, ops, handled + BuriedKeys(rows, t, local.changes[t].deleted))
  {
    hide MarkPlans, NamesOnce;
    ops := before;
    var ids := local.changes[t].deleted;
    var pushed := DropIds(ids, RejectedIn(rejected, t));
    DropIdsKeeps(ids, RejectedIn(rejected, t));
    var stored := QueryRowsByIds(rows, t, pushed);
    assert handled + BuriedKeys(rows, t, ids[..0]) == handled;
    for i := 0 to |ids|
      invariant MarkPlans(rows, local, rejected, ops, handled + BuriedKeys(rows, t, ids[..i]))
    {
      var k := Key(t, ids[i]);
      NextBuried(rows, local.changes[t], t, i);
      ghost var settled := handled + BuriedKeys(rows, t, ids[..i]);
      assert ids[i] in ids;
      assert k in rows && ids[i] in pushed ==> rows[k] in stored;
      var tombstoned := exists raw :: raw in stored && raw.id == ids[i] && raw.status == Deleted;
      if ids[i] in pushed && tombstoned {
        assert handled + BuriedKeys(rows, t, ids[..i + 1]) == settled + {k};
        MarkPlansMore(rows, local, rejected, ops, settled, DestroyPermanently(t, ids[i]));
        ops := ops + [DestroyPermanently(t, ids[i])];
      } else if k in rows && rows[k].status == Deleted {
        assert handled + BuriedKeys(rows, t, ids[..i + 1]) == settled + {k};
        MarkPlansSkip(rows, local, rejected, ops, settled, k);
      } else {
        assert handled + BuriedKeys(rows, t, ids[..i + 1]) == settled;
      }
    }
    assert ids[..|ids|] == ids;
  }

  lemma NextBuried(rows: LocalRows, tc: TableChanges, t: string, i: nat)
    requires NamesOnce(tc) && i < |tc.deleted|
    ensures var ids, k := tc.deleted, Key(t, tc.deleted[i]);
            && k !in BuriedKeys(rows, t, ids[..i])
            && BuriedKeys(rows, t, ids[..i + 1])
                 == BuriedKeys(rows, t, ids[..i]) + if k in rows && rows[k].status == Deleted then {k} else {}
  {
    assert tc.deleted[..i + 1] == tc.deleted[..i] + [tc.deleted[i]];
  }

  /** Keys neither loop settles keep their rows. */
  ghost predicate MarkSettles(rows: LocalRows, local: LocalChanges, rejected: Rejections, handled: set<Key>) {
    forall k :: k !in handled ==> MarkedAt(rows, local, rejected, k) == Lookup(rows, k)
  }

  ghost predicate CoversFrozen(rows: LocalRows, local: LocalChanges, tables: set<string>, handled: set<Key>) {
    && (forall k :: k in rows && k.table in tables && StillFrozen(local, k, rows[k]) ==> k in handled)
    && (forall k :: k in handled ==> k.table in tables && k in rows && rows[k].status != Deleted)
  }

  ghost predicate CoversDeleted(rows: LocalRows, local: LocalChanges, tables: set<string>, handled: set<Key>) {
    forall k :: k in rows && k.table in tables && rows[k].status == Deleted && PushedDelete(local, k) ==> k in handled
  }

  method MarkAllFrozen(rows: LocalRows, local: LocalChanges, rejected: Rejections) returns (ops: seq<Op>, ghost handled: set<Key>)
    requires WellFrozen(local) && KeyedById(rows)
    ensures MarkPlans(rows, local, rejected, ops, handled)
    ensures CoversFrozen(rows, local, local.dirty.Keys, handled)
  {
    hide MarkPlans, CoversFrozen;
    ops, handled := [], {};
    MarksNothing(rows, local, rejected);
    var todo := local.dirty.Keys;
    assert local.dirty.Keys - todo == {};
    while todo != {}
      invariant todo <= local.dirty.Keys
      invariant MarkPlans(rows, local, rejected, ops, handled)
      invariant CoversFrozen(rows, local, local.dirty.Keys - todo, handled)
      decreases |todo|
    {
      var t :| t in todo;
      CoversMore(rows, local, local.dirty.Keys - todo, handled, t);
      ops := MarkFrozen(rows, local, rejected, t, ops, handled);
      handled := handled + FrozenKeys(rows, t, local.dirty[t]);
      assert (local.dirty.Keys - todo) + {t} == local.dirty.Keys - (todo - {t});
      todo := todo - {t};
    }
    assert local.dirty.Keys - {} == local.dirty.Keys;
  }

  lemma MarksNothing(rows: LocalRows, local: LocalChanges, rejected: Rejections)
    ensures MarkPlans(rows, local, rejected, [], {}) && CoversFrozen(rows, local, {}, {})
  {
  }

  lemma CoversMore(rows: LocalRows, local: LocalChanges, tables: set<string>, handled: set<Key>, t: string)
    requires WellFrozen(local) && KeyedById(rows) && t in local.dirty && t !in tables
    requires CoversFrozen(rows, local, tables, handled)
    ensures CoversFrozen(rows, local, tables + {t}, handled + FrozenKeys(rows, t, local.dirty[t]))
    ensures forall k :: k in handled ==> k.table != t
  {
    forall k | k in rows && k.table == t && StillFrozen(local, k, rows[k]) ensures k in FrozenKeys(rows, t, local.dirty[t]) {
      assert k == Key(t, rows[k].id);
    }
  }

  /**
   * markLocalChangesAsSynced: accepted records still as they were pushed are
   * synced, accepted deletions still tombstoned are gone, in one batch;
   * rejected and since-edited rows stay as they are.
   */
  method MarkLocalChangesAsSynced(database: LocalDatabase, local: LocalChanges, rejected: Rejections)
    requires database.Valid() && WellFrozen(local)
    requires forall t :: t in local.changes ==> NamesOnce(local.changes[t])
    modifies database`rows
    ensures database.Valid()
    ensures IsMarked(old(database.rows), local, rejected, database.rows)
  {
    hide MarkPlans, CoversFrozen, CoversDeleted, MarkSettles, NamesOnce, RawOk, ValidTable, IsMarked;
    ghost var before := database.rows;
    ghost var settled: set<Key>;
    var ops: seq<Op>;
    ops, settled := MarkAllFrozen(database.rows, local, rejected);
    ghost var frozenKeys := settled;
    FrozenAreLive(before, local, settled);
    ghost var done: set<string> := {};
    NoneDeletedYet(before, local, settled);
    var todo := local.changes.Keys;
    while todo != {}
      invariant todo <= local.changes.Keys && done == local.changes.Keys - todo
      invariant database.rows == before
      invariant MarkPlans(before, local, rejected, ops, settled)
      invariant CoversDeleted(before, local, done, settled)
      invariant frozenKeys <= settled
      invariant forall k :: k in settled && k.table in todo ==> k in before && before[k].status != Deleted
      decreases |todo|
    {
      var t :| t in todo;
      ops := MarkDeleted(database.rows, local, rejected, t, ops, settled);
      DeletedMore(before, local, done, settled, t);
      settled := settled + BuriedKeys(before, t, local.changes[t].deleted);
      done := done + {t};
      todo := todo - {t};
    }
    assert done == local.changes.Keys;
    AllSettled(before, local, rejected, frozenKeys, settled);
    MarkBatch(before, local, rejected, ops, settled);
    MarkedRowsOk(database.schema, before, local, rejected, ExecAll(before, ops).value);
    var committed := database.Batch(ops);
  }

  lemma FrozenAreLive(rows: LocalRows, local: LocalChanges, handled: set<Key>)
    requires CoversFrozen(rows, local, local.dirty.Keys, handled)
    ensures forall k :: k in handled ==> k in rows && rows[k].status != Deleted
  {
  }

  lemma NoneDeletedYet(rows: LocalRows, local: LocalChanges, handled: set<Key>)
    ensures CoversDeleted(rows, local, {}, handled)
  {
  }

  lemma DeletedMore(rows: LocalRows, local: LocalChanges, done: set<string>, handled: set<Key>, t: string)
    requires t in local.changes && CoversDeleted(rows, local, done, handled)
    ensures CoversDeleted(rows, local, done + {t}, handled + BuriedKeys(rows, t, local.changes[t].deleted))
    ensures forall k :: k in BuriedKeys(rows, t, local.changes[t].deleted) ==> k.table == t
  {
    forall k | k in rows && k.table == t && rows[k].status == Deleted && PushedDelete(local, k)
      ensures k in BuriedKeys(rows, t, local.changes[t].deleted)
    {
      assert k == Key(t, k.id);
    }
  }

  lemma AllSettled(rows: LocalRows, local: LocalChanges, rejected: Rejections, frozen: set<Key>, handled: set<Key>)
    requires CoversFrozen(rows, local, local.dirty.Keys, frozen) && frozen <= handled
    requires CoversDeleted(rows, local, local.changes.Keys, handled)
    ensures MarkSettles(rows, local, rejected, handled)
  {
  }

  lemma MarkBatch(rows: LocalRows, local: LocalChanges, rejected: Rejections, ops: seq<Op>, handled: set<Key>)
    requires MarkPlans(rows, local, rejected, ops, handled) && MarkSettles(rows, local, rejected, handled)
    ensures ExecAll(rows, ops).Some? && IsMarked(rows, local, rejected, ExecAll(rows, ops).value)
  {
    hide MarkedAt, Outcome;
    BatchOutcome(rows, ops);
    forall k: Key ensures Lookup(ExecAll(rows, ops).value, k) == MarkedAt(rows, local, rejected, k) {
      OpAtFinds(ops, k);
    }
  }

  lemma MarkedRowsOk(schema: Schema, rows: LocalRows, local: LocalChanges, rejected: Rejections, after: LocalRows)
    requires RowsOk(rows, schema) && IsMarked(rows, local, rejected, after)
    ensures RowsOk(after, schema)
  {
    hide WellTyped;
    forall k | k in after ensures k.table in schema && after[k].id == k.id && k.id != "" && RawOk(after[k], schema[k.table]) {
      assert Lookup(after, k) == MarkedAt(rows, local, rejected, k);
    }
  }

  /**
   * A push the server took in leaves nothing to push: where the app has not
   * touched a row since the snapshot, an accepted record ends synced with its
   * values, an accepted deletion ends gone, and a rejected row stays.
   */
  lemma AcceptedRowsAreClean(schema: Schema, frozen: LocalRows, local: LocalChanges, rows: LocalRows, rejected: Rejections, after: LocalRows, k: Key)
    requires ValidSchema(schema) && RowsOk(frozen, schema) && SnapshotOf(schema, frozen, local) && IsMarked(rows, local, rejected, after)
    requires k in frozen && Lookup(rows, k) == Some(frozen[k]) && k.table in SyncTables(schema)
    ensures k.id in RejectedIn(rejected, k.table) ==> Lookup(after, k) == Some(frozen[k])
    ensures k.id !in RejectedIn(rejected, k.table) ==>
              if frozen[k].status == Deleted then k !in after else Lookup(after, k) == Some(Raw(k.id, Synced, "", frozen[k].values))
  {
    SyncedIsUnlisted(schema, frozen, k);
    SnapshotTakes(schema, frozen, local, k);
    hide SnapshotOf, RowsOk, ValidSchema, StillFrozen, PushedDelete;
    assert Lookup(after, k) == MarkedAt(rows, local, rejected, k);
  }

  lemma SyncedIsUnlisted(schema: Schema, rows: LocalRows, k: Key)
    requires RowsOk(rows, schema) && k in rows
    ensures rows[k].id == k.id && (rows[k].status == Synced || rows[k].status == Deleted ==> rows[k].changed == "")
  {
    hide WellTyped;
  }

  lemma SnapshotTakes(schema: Schema, frozen: LocalRows, local: LocalChanges, k: Key)
    requires ValidSchema(schema) && RowsOk(frozen, schema) && SnapshotOf(schema, frozen, local)
    requires k in frozen && k.table in SyncTables(schema)
    ensures StillFrozen(local, k, frozen[k]) <==> Pushable(frozen[k])
    ensures frozen[k].status == Deleted ==> PushedDelete(local, k)
  {
    hide StatementFor, Stripped, NamesOnce, RawOk, ValidTable;
    var tc := local.changes[k.table];
    assert SnapshotOfTable(schema[k.table], frozen, tc, local.dirty[k.table]);
    assert k == Key(k.table, k.id) && schema[k.table].name == k.table && frozen[k].id == k.id;
    if frozen[k].status == Deleted {
      assert StatementFor(tc, k.id) == Deletes;
      DeletesAreListed(tc, k.id);
    }
  }

  lemma DeletesAreListed(tc: TableChanges, id: string)
    requires StatementFor(tc, id) == Deletes
    ensures id in tc.deleted
  {
  }
}
