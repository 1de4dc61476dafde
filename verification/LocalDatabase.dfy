/**
 * A device's database as sync and the app see it: rows by table and id, the
 * stored cursor, atomic batches (packages/core/src/database/Database.ts,
 * encodeBatch.ts) and the three local writes (Collection.ts). The identity map
 * in front of storage is RecordCaches' subject; here a row is its record.
 */
module LocalDatabases {
  import opened RawRecords
  import opened MemoryStores

  type Schema = map<string, Table>
  type LocalRows = map<Key, Raw>

  datatype Op =
    | Create(table: string, raw: Raw)
    | Update(table: string, raw: Raw)
    | MarkAsDeleted(table: string, id: string)
    | DestroyPermanently(table: string, id: string)

  function KeyOf(op: Op): Key {
    match op
    case Create(t, raw) => Key(t, raw.id)
    case Update(t, raw) => Key(t, raw.id)
    case MarkAsDeleted(t, id) => Key(t, id)
    case DestroyPermanently(t, id) => Key(t, id)
  }

  /** One statement; None is the primary-key violation that fails the batch. */
  function Exec(rows: LocalRows, op: Op): Option<LocalRows> {
    var k := KeyOf(op);
    match op
    case Create(_, raw) => if k in rows then None else Some(rows[k := raw])
    case Update(_, raw) => Some(if k in rows then rows[k := raw] else rows)
    case MarkAsDeleted(_, _) =>
      Some(if k in rows then rows[k := rows[k].(status := Deleted, changed := "")] else rows)
    case DestroyPermanently(_, _) => Some(rows - {k})
  }

  function ExecAll(rows: LocalRows, ops: seq<Op>): Option<LocalRows> {
    if |ops| == 0 then Some(rows)
    else match ExecAll(rows, ops[..|ops| - 1])
      case None => None
      case Some(before) => Exec(before, ops[|ops| - 1])
  }

  lemma {:induction false} ExecFailsEarly(rows: LocalRows, ops: seq<Op>, n: nat)
    requires n <= |ops| && ExecAll(rows, ops[..n]).None?
    ensures ExecAll(rows, ops).None?
    decreases |ops|
  {
    if n < |ops| {
      assert ops[..|ops| - 1][..n] == ops[..n];
      ExecFailsEarly(rows, ops[..|ops| - 1], n);
    } else {
      assert ops[..n] == ops;
    }
  }

  // ----- batches that touch each key once -----

  predicate TouchesOnce(ops: seq<Op>) {
    forall i, j :: 0 <= i < j < |ops| ==> KeyOf(ops[i]) != KeyOf(ops[j])
  }

  /** Inserts only where nothing is stored, so no statement can hit the primary key. */
  predicate InsertsAbsent(rows: LocalRows, ops: seq<Op>) {
    forall op :: op in ops && op.Create? ==> KeyOf(op) !in rows
  }

  function OpAt(ops: seq<Op>, key: Key): Option<Op> {
    if |ops| == 0 then None
    else if KeyOf(ops[|ops| - 1]) == key then Some(ops[|ops| - 1])
    else OpAt(ops[..|ops| - 1], key)
  }

  /** What one operation leaves at its own key. */
  function Outcome(row: Option<Raw>, op: Op): Option<Raw> {
    match op
    case Create(_, raw) => Some(raw)
    case Update(_, raw) => if row.Some? then Some(raw) else None
    case MarkAsDeleted(_, _) => if row.Some? then Some(row.value.(status := Deleted, changed := "")) else None
    case DestroyPermanently(_, _) => None
  }

  function OutcomeAt(rows: LocalRows, ops: seq<Op>, key: Key): Option<Raw> {
    match OpAt(ops, key)
    case None => Lookup(rows, key)
    case Some(op) => Outcome(Lookup(rows, key), op)
  }

  lemma {:induction false} OpAtFinds(ops: seq<Op>, key: Key)
    ensures OpAt(ops, key).Some? ==> OpAt(ops, key).value in ops && KeyOf(OpAt(ops, key).value) == key
    ensures OpAt(ops, key).None? ==> forall op :: op in ops ==> KeyOf(op) != key
  {
    if |ops| > 0 {
      OpAtFinds(ops[..|ops| - 1], key);
      assert ops == ops[..|ops| - 1] + [ops[|ops| - 1]];
    }
  }

  /** Such a batch succeeds, and each key ends as its one operation says. */
  lemma {:induction false} BatchOutcome(rows: LocalRows, ops: seq<Op>)
    requires TouchesOnce(ops) && InsertsAbsent(rows, ops)
    ensures ExecAll(rows, ops).Some?
    ensures forall key :: Lookup(ExecAll(rows, ops).value, key) == OutcomeAt(rows, ops, key)
  {
    if |ops| > 0 {
      var prefix := ops[..|ops| - 1];
      var last := ops[|ops| - 1];
      assert ops == prefix + [last];
      assert forall op :: op in prefix ==> op in ops;
      BatchOutcome(rows, prefix);
      forall op | op in prefix ensures KeyOf(op) != KeyOf(last) {
        var i :| 0 <= i < |prefix| && prefix[i] == op;
        assert KeyOf(ops[i]) != KeyOf(ops[|ops| - 1]);
      }
      OpAtFinds(prefix, KeyOf(last));
      var before := ExecAll(rows, prefix).value;
      assert Lookup(before, KeyOf(last)) == Lookup(rows, KeyOf(last));
      assert last in ops;
      forall key ensures Lookup(ExecAll(rows, ops).value, key) == OutcomeAt(rows, ops, key) {
        assert Lookup(before, key) == OutcomeAt(rows, prefix, key);
      }
    }
  }

  // ----- rows the app can hold -----

  predicate ValidSchema(schema: Schema) {
    forall t :: t in schema ==> schema[t].name == t && ValidTable(schema[t])
  }

  /** A record as sanitizing and dirty tracking leave it. */
  ghost predicate RawOk(raw: Raw, table: Table) {
    && WellTyped(raw.values, table.columns)
    && ChangedSet(raw) <= Names(table.columns)
    && (raw.status == Synced || raw.status == Deleted ==> raw.changed == "")
  }

  ghost predicate RowsOk(rows: LocalRows, schema: Schema) {
    forall k :: k in rows ==> k.table in schema && rows[k].id == k.id && k.id != "" && RawOk(rows[k], schema[k.table])
  }

  // ----- local writes -----

  function StampedNew(table: Table, fields: DirtyRaw, now: Js): DirtyRaw {
    var a := if ColumnNamed(table.columns, "created_at").Some? && Get(fields, "created_at") == Undefined
             then fields["created_at" := now] else fields;
    if ColumnNamed(table.columns, "updated_at").Some? && Get(a, "updated_at") == Undefined
    then a["updated_at" := now] else a
  }

  /** Collection.prepareCreate. */
  function NewRaw(table: Table, fields: DirtyRaw, now: Js, freshId: string): Option<Raw> {
    match Sanitized(StampedNew(table, fields, now), table, freshId)
    case None => None
    case Some(raw) => Some(raw.(status := Created, changed := ""))
  }

  lemma NewRawOk(table: Table, fields: DirtyRaw, now: Js, freshId: string)
    requires ValidTable(table) && freshId != ""
    ensures NewRaw(table, fields, now, freshId).Some? ==>
              var raw := NewRaw(table, fields, now, freshId).value;
              RawOk(raw, table) && raw.id != "" && raw.status == Created
  {
    if NewRaw(table, fields, now, freshId).Some? {
      SanitizeIdempotent(StampedNew(table, fields, now), table);
    }
  }

  /** What a create states for a column: the two timestamps are now unless the caller states them. */
  function CreateStates(fields: DirtyRaw, now: Js, column: string): Js {
    var stated := Get(fields, column);
    if stated == Undefined && (column == "created_at" || column == "updated_at") then now else stated
  }

  function CreatedId(fields: DirtyRaw, freshId: string): string {
    var id := Get(fields, "id");
    if id.Str? && id.s != "" then id.s else freshId
  }

  predicate CreateFits(table: Table, fields: DirtyRaw, now: Js) {
    forall column :: column in table.columns ==> SanitizeValue(CreateStates(fields, now, column.name), column).Some?
  }

  /** A created record, column by column. */
  ghost predicate ShowsCreate(raw: Raw, table: Table, fields: DirtyRaw, now: Js, freshId: string) {
    && raw.id == CreatedId(fields, freshId) && raw.status == Created && raw.changed == ""
    && raw.values.Keys == Names(table.columns)
    && forall column :: column in table.columns ==>
         SanitizeValue(CreateStates(fields, now, column.name), column) == Some(ValueOf(raw.values, column.name))
  }

  lemma StampedNewStates(table: Table, fields: DirtyRaw, now: Js, c: string)
    requires c in Names(table.columns)
    ensures Get(StampedNew(table, fields, now), c) == CreateStates(fields, now, c)
  {
    ColumnNamedFinds(table.columns, "created_at");
    ColumnNamedFinds(table.columns, "updated_at");
  }

  /** A prepared create throws exactly when it does not fit, and otherwise shows what it states. */
  lemma CreatePrepared(table: Table, fields: DirtyRaw, now: Js, freshId: string)
    requires ValidTable(table)
    ensures NewRaw(table, fields, now, freshId).Some? <==> CreateFits(table, fields, now)
    ensures NewRaw(table, fields, now, freshId).Some? ==> ShowsCreate(NewRaw(table, fields, now, freshId).value, table, fields, now, freshId)
  {
    hide SanitizeValue, StampedNew, ValidTable, CreateStates, StatusOf;
    var dirty := StampedNew(table, fields, now);
    SanitizesIff(dirty, table.columns);
    forall column | column in table.columns ensures Get(dirty, column.name) == CreateStates(fields, now, column.name) {
      var i :| 0 <= i < |table.columns| && table.columns[i] == column;
      assert column.name in Names(table.columns);
      StampedNewStates(table, fields, now, column.name);
    }
    StampedNewId(table, fields, now);
    if NewRaw(table, fields, now, freshId).Some? {
      SanitizedLookup(dirty, table);
    }
  }

  lemma StampedNewId(table: Table, fields: DirtyRaw, now: Js)
    ensures Get(StampedNew(table, fields, now), "id") == Get(fields, "id")
  {
  }

  datatype LocalWrite =
    | CreateRow(table: string, fields: DirtyRaw, now: Js, freshId: string)
    | EditRow(key: Key, edits: Fields, now: Js)
    | DeleteRow(key: Key)

  /** The operation a local write prepares; None is a throw. */
  function Prepared(schema: Schema, rows: LocalRows, w: LocalWrite): Option<Op> {
    match w
    case CreateRow(t, fields, now, freshId) =>
      if t !in schema || freshId == "" then None
      else (match NewRaw(schema[t], fields, now, freshId) case None => None case Some(raw) => Some(Create(t, raw)))
    case EditRow(k, edits, now) =>
      if k.table !in schema || k !in rows || rows[k].status == Deleted then None
      else (match SetFields(rows[k], schema[k.table], Stamped(schema[k.table], edits, now))
            case Err(_) => None
            case Ok(raw) => Some(Update(k.table, raw)))
    case DeleteRow(k) =>
      if k.table !in schema || k !in rows || rows[k].status == Deleted then None
      else if schema[k.table].localOnly then Some(DestroyPermanently(k.table, k.id))
      else Some(MarkAsDeleted(k.table, k.id))
  }

  /** The rows after a local write, unchanged when it throws or its batch fails. */
  function AfterWrite(schema: Schema, rows: LocalRows, w: LocalWrite): LocalRows {
    match Prepared(schema, rows, w)
    case None => rows
    case Some(op) => (match Exec(rows, op) case None => rows case Some(r) => r)
  }

  predicate IsDirty(raw: Raw) {
    raw.status != Synced
  }

  /** The one key a local write can touch. */
  function WrittenKey(schema: Schema, rows: LocalRows, w: LocalWrite): Key {
    match Prepared(schema, rows, w)
    case Some(op) => KeyOf(op)
    case None => Key("", "")
  }

  ghost predicate WroteLocally(schema: Schema, rows: LocalRows, after: LocalRows, key: Key) {
    && RowsOk(after, schema)
    && (forall k: Key :: k != key ==> Lookup(after, k) == Lookup(rows, k))
    && (key.table in schema && !schema[key.table].localOnly ==>
          && (Lookup(after, key) == Lookup(rows, key) || (key in after && IsDirty(after[key])))
          && (key in rows && IsDirty(rows[key]) ==> key in after && IsDirty(after[key]))
          && (key in rows && rows[key].status == Deleted ==> after == rows))
  }

  lemma PutDirties(schema: Schema, rows: LocalRows, key: Key, raw: Raw)
    requires RowsOk(rows, schema) && key.table in schema && RawOk(raw, schema[key.table])
    requires raw.id == key.id && key.id != ""
    requires IsDirty(raw) || (key in rows && rows[key] == raw)
    requires key in rows ==> rows[key].status != Deleted
    ensures WroteLocally(schema, rows, rows[key := raw], key)
  {
    hide RawOk;
  }

  lemma CreateDirties(schema: Schema, rows: LocalRows, w: LocalWrite)
    requires ValidSchema(schema) && RowsOk(rows, schema) && w.CreateRow? && Prepared(schema, rows, w).Some?
    ensures WroteLocally(schema, rows, AfterWrite(schema, rows, w), WrittenKey(schema, rows, w))
  {
    var op := Prepared(schema, rows, w).value;
    NewRawOk(schema[w.table], w.fields, w.now, w.freshId);
    hide NewRaw, RawOk, RowsOk, WroteLocally;
    if KeyOf(op) !in rows {
      PutDirties(schema, rows, KeyOf(op), op.raw);
    } else {
      WroteNothingLocally(schema, rows, KeyOf(op));
    }
  }

  lemma WroteNothingLocally(schema: Schema, rows: LocalRows, key: Key)
    requires RowsOk(rows, schema)
    ensures WroteLocally(schema, rows, rows, key)
  {
    hide RowsOk;
  }

  lemma EditDirties(schema: Schema, rows: LocalRows, w: LocalWrite)
    requires ValidSchema(schema) && RowsOk(rows, schema) && w.EditRow? && Prepared(schema, rows, w).Some?
    ensures WroteLocally(schema, rows, AfterWrite(schema, rows, w), WrittenKey(schema, rows, w))
  {
    var table := schema[w.key.table];
    var row := rows[w.key];
    var raw := Prepared(schema, rows, w).value.raw;
    EditKeepsRawOk(row, table, Stamped(table, w.edits, w.now), raw);
    hide RawOk, SetFields, Stamped, WroteLocally;
    PutDirties(schema, rows, w.key, raw);
  }

  lemma EditKeepsRawOk(row: Raw, table: Table, fields: Fields, raw: Raw)
    requires ValidTable(table) && RawOk(row, table) && row.status != Deleted && SetFields(row, table, fields) == Ok(raw)
    ensures RawOk(raw, table) && raw.id == row.id && raw.status != Deleted
    ensures raw == row || IsDirty(raw)
    ensures IsDirty(row) ==> IsDirty(raw)
  {
    SetFieldsKeepBase(Tracked(row, row.values), table, fields);
  }

  /**
   * A local write touches one key, leaves it well formed, and leaves it dirty
   * unless it changed nothing; it never brings back or overwrites a tombstone.
   */
  lemma LocalWriteDirties(schema: Schema, rows: LocalRows, w: LocalWrite)
    requires ValidSchema(schema) && RowsOk(rows, schema)
    ensures WroteLocally(schema, rows, AfterWrite(schema, rows, w), WrittenKey(schema, rows, w))
  {
    if Prepared(schema, rows, w).Some? {
      match w
      case CreateRow(_, _, _, _) => CreateDirties(schema, rows, w);
      case EditRow(_, _, _) => EditDirties(schema, rows, w);
      case DeleteRow(k) => hide WellTyped;
    }
  }

  predicate IsLive(rows: LocalRows, k: Key) {
    k in rows && rows[k].status != Deleted
  }

  /** When a write succeeds, and the one row it then leaves, column by column. */
  ghost predicate WriteShows(schema: Schema, rows: LocalRows, w: LocalWrite, ok: bool, after: LocalRows) {
    && (!ok ==> after == rows)
    && match w
       case CreateRow(t, fields, now, freshId) =>
         var k := Key(t, CreatedId(fields, freshId));
         && (ok <==> t in schema && freshId != "" && CreateFits(schema[t], fields, now) && k !in rows)
         && (ok ==> k in after && after == rows[k := after[k]] && ShowsCreate(after[k], schema[t], fields, now, freshId))
       case EditRow(k, edits, now) =>
         UniqueKeys(edits) ==>
           && (ok <==> k.table in schema && IsLive(rows, k) && EditFits(schema[k.table], edits, now))
           && (ok ==> k in after && after == rows[k := after[k]] && ShowsEdit(rows[k], after[k], schema[k.table], edits, now))
       case DeleteRow(k) =>
         && (ok <==> k.table in schema && IsLive(rows, k))
         && (ok ==> after == if schema[k.table].localOnly then rows - {k}
                             else rows[k := Raw(k.id, Deleted, "", rows[k].values)])
  }

  /** A write does what it states. */
  lemma WriteMeans(schema: Schema, rows: LocalRows, w: LocalWrite)
    requires ValidSchema(schema) && RowsOk(rows, schema)
    ensures var op := Prepared(schema, rows, w);
            WriteShows(schema, rows, w, op.Some? && Exec(rows, op.value).Some?, AfterWrite(schema, rows, w))
  {
    hide NewRaw, CreateFits, ShowsCreate, EditFits, ShowsEdit, SetFields, Stamped, UniqueKeys, WellTyped;
    match w
    case CreateRow(t, fields, now, freshId) =>
      if t in schema && freshId != "" {
        CreatePrepared(schema[t], fields, now, freshId);
        CreatedUnder(schema[t], fields, now, freshId);
      }
    case EditRow(k, edits, now) =>
      if k.table in schema && IsLive(rows, k) {
        EditPrepared(rows[k], schema[k.table], edits, now);
        EditedUnder(rows[k], schema[k.table], edits, now);
      }
    case DeleteRow(k) =>
  }

  lemma CreatedUnder(table: Table, fields: DirtyRaw, now: Js, freshId: string)
    ensures NewRaw(table, fields, now, freshId).Some? ==>
              NewRaw(table, fields, now, freshId).value.id == CreatedId(fields, freshId)
  {
    StampedNewId(table, fields, now);
  }

  lemma EditedUnder(row: Raw, table: Table, edits: Fields, now: Js)
    requires ValidTable(table) && RawOk(row, table) && row.status != Deleted
    ensures var r := SetFields(row, table, Stamped(table, edits, now)); r.Ok? ==> r.value.id == row.id
  {
    if SetFields(row, table, Stamped(table, edits, now)).Ok? {
      EditKeepsRawOk(row, table, Stamped(table, edits, now), SetFields(row, table, Stamped(table, edits, now)).value);
    }
  }

  class LocalDatabase {
    const schema: Schema
    var rows: LocalRows
    var cursor: Option<string>

    constructor (schema: Schema)
      requires ValidSchema(schema)
      ensures Valid() && this.schema == schema && rows == map[] && cursor == None
    {
      this.schema := schema;
      rows, cursor := map[], None;
    }

    ghost predicate Valid()
      reads this
    {
      ValidSchema(schema) && RowsOk(rows, schema)
    }

    /** All statements in order, or none. */
    method Batch(ops: seq<Op>) returns (ok: bool)
      modifies this`rows
      ensures ok <==> ExecAll(old(rows), ops).Some?
      ensures rows == if ok then ExecAll(old(rows), ops).value else old(rows)
    {
      var next := rows;
      var i := 0;
      while i < |ops|
        invariant 0 <= i <= |ops|
        invariant ExecAll(rows, ops[..i]) == Some(next)
      {
        assert ops[..i + 1][..i] == ops[..i];
        var step := Exec(next, ops[i]);
        if step.None? {
          ExecFailsEarly(rows, ops, i + 1);
          return false;
        }
        next := step.value;
        i := i + 1;
      }
      assert ops[..i] == ops;
      rows := next;
      ok := true;
    }

    /** Collection.create, update and markAsDeleted: prepare one operation and commit it. */
    method Write(w: LocalWrite) returns (ok: bool)
      requires Valid()
      modifies this`rows
      ensures Valid()
      ensures rows == AfterWrite(schema, old(rows), w)
      ensures ok <==> Prepared(schema, old(rows), w).Some? && Exec(old(rows), Prepared(schema, old(rows), w).value).Some?
      ensures WriteShows(schema, old(rows), w, ok, rows)
    {
      LocalWriteDirties(schema, rows, w);
      WriteMeans(schema, rows, w);
      var op := Prepared(schema, rows, w);
      if op.None? { return false; }
      assert ExecAll(rows, []) == Some(rows);
      assert [op.value][..0] == [];
      ok := Batch([op.value]);
    }
  }
}
