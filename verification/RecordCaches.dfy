/**
 * The identity map against storage (packages/core/src/database/RecordCache.ts,
 * encodeBatch.ts, Database.batch): one live record object per id, updated in
 * place as batches commit.
 */
module RecordCaches {
  import opened RawRecords
  import opened MemoryStores
  import opened LocalDatabases

  // ----- what storage gives back -----

  /** SQLite keeps booleans as numbers. */
  function Bound(v: Js): Js {
    match v
    case Bool(b) => Num(if b then 1.0 else 0.0)
    case _ => v
  }

  /** A stored row as the driver returns it. */
  function DriverRow(raw: Raw, table: Table): DirtyRaw {
    (map c | c in Names(table.columns) :: Bound(ValueOf(raw.values, c)))
      ["id" := Str(raw.id)]["_status" := Str(StatusText(raw.status))]["_changed" := Str(raw.changed)]
  }

  lemma BoundSanitizes(v: Js, column: Column)
    requires SanitizeValue(v, column) == Some(v)
    ensures SanitizeValue(Bound(v), column) == Some(v)
  {
  }

  /** A record written and read back is the record. */
  lemma StoreRoundTrip(raw: Raw, table: Table, freshId: string)
    requires ValidTable(table) && RawOk(raw, table) && raw.id != ""
    ensures Sanitized(DriverRow(raw, table), table, freshId) == Some(raw)
  {
    var row := DriverRow(raw, table);
    DriverRowFields(raw, table);
    hide SanitizeValue, Bound, DriverRow;
    forall column | column in table.columns
      ensures SanitizeValue(Get(row, column.name), column) == Some(ValueOf(raw.values, column.name))
    {
      var i :| 0 <= i < |table.columns| && table.columns[i] == column;
      assert column.name in Names(table.columns);
      BoundSanitizes(ValueOf(raw.values, column.name), column);
    }
    SanitizeShows(row, raw.values, table);
  }

  lemma DriverRowFields(raw: Raw, table: Table)
    requires ValidTable(table)
    ensures var row := DriverRow(raw, table);
            && Get(row, "id") == Str(raw.id) && Get(row, "_status") == Str(StatusText(raw.status))
            && Get(row, "_changed") == Str(raw.changed)
            && forall c :: c in Names(table.columns) ==> Get(row, c) == Bound(ValueOf(raw.values, c))
  {
    hide Bound;
    assert forall c :: c in Names(table.columns) ==> c !in RESERVED;
  }

  // ----- grouped statements -----

  datatype Kind = Insert | UpdateAll | MarkDeleted | DeleteRow

  /** What the text of an operation's statement depends on. */
  datatype SqlText = SqlText(kind: Kind, table: string)

  /** One prepared statement and its argument sets, as the operations that supply them. */
  datatype Statement = Statement(sql: SqlText, runs: seq<Op>)

  function TextOf(op: Op): SqlText {
    match op
    case Create(t, _) => SqlText(Insert, t)
    case Update(t, _) => SqlText(UpdateAll, t)
    case MarkAsDeleted(t, _) => SqlText(MarkDeleted, t)
    case DestroyPermanently(t, _) => SqlText(Kind.DeleteRow, t)
  }

  function Flat(statements: seq<Statement>): seq<Op> {
    if |statements| == 0 then [] else Flat(statements[..|statements| - 1]) + statements[|statements| - 1].runs
  }

  predicate OneText(s: Statement) {
    |s.runs| > 0 && forall op :: op in s.runs ==> TextOf(op) == s.sql
  }

  /** Every run is under its own text, and neighbouring statements differ. */
  ghost predicate Grouped(statements: seq<Statement>) {
    && (forall i :: 0 <= i < |statements| ==> OneText(statements[i]))
    && (forall i, j :: 0 <= i < j < |statements| && j == i + 1 ==> statements[i].sql != statements[j].sql)
  }

  /** None is the throw for a table the schema does not know. */
  method EncodeBatch(ops: seq<Op>, schema: Schema) returns (statements: Option<seq<Statement>>)
    ensures statements.None? <==> exists op :: op in ops && KeyOf(op).table !in schema
    ensures statements.Some? ==> Flat(statements.value) == ops && Grouped(statements.value)
  {
    var out: seq<Statement> := [];
    var i := 0;
    while i < |ops|
      invariant 0 <= i <= |ops|
      invariant forall op :: op in ops[..i] ==> KeyOf(op).table in schema
      invariant Flat(out) == ops[..i] && Grouped(out)
    {
      var op := ops[i];
      assert ops[..i + 1] == ops[..i] + [op];
      if KeyOf(op).table !in schema {
        assert op in ops;
        return None;
      }
      if |out| > 0 && out[|out| - 1].sql == TextOf(op) {
        var last := out[|out| - 1];
        FlatExtended(out, op);
        out := out[..|out| - 1] + [last.(runs := last.runs + [op])];
      } else {
        FlatAdded(out, op);
        out := out + [Statement(TextOf(op), [op])];
      }
      i := i + 1;
    }
    assert ops[..i] == ops;
    statements := Some(out);
  }

  lemma FlatAppend(out: seq<Statement>, s: Statement)
    ensures Flat(out + [s]) == Flat(out) + s.runs
  {
    assert (out + [s])[..|out|] == out;
  }

  lemma GroupedAppend(out: seq<Statement>, s: Statement)
    requires Grouped(out) && OneText(s) && (|out| > 0 ==> out[|out| - 1].sql != s.sql)
    ensures Grouped(out + [s])
  {
    hide OneText;
    var more := out + [s];
    forall i | 0 <= i < |more| ensures OneText(more[i]) {
      assert i < |out| ==> more[i] == out[i];
    }
    forall i, j | 0 <= i < j < |more| && j == i + 1 ensures more[i].sql != more[j].sql {
      assert more[i] == out[i];
      assert j < |out| ==> more[j] == out[j];
    }
  }

  lemma FlatExtended(out: seq<Statement>, op: Op)
    requires Grouped(out) && |out| > 0 && out[|out| - 1].sql == TextOf(op)
    ensures var last := out[|out| - 1];
            var more := out[..|out| - 1] + [last.(runs := last.runs + [op])];
            Flat(more) == Flat(out) + [op] && Grouped(more)
  {
    var init, last := out[..|out| - 1], out[|out| - 1];
    var longer := last.(runs := last.runs + [op]);
    assert out == init + [last];
    FlatAppend(init, last);
    FlatAppend(init, longer);
    assert OneText(last) && OneText(longer);
    hide Flat, TextOf, OneText;
    assert Grouped(init) by {
      assert forall i :: 0 <= i < |init| ==> init[i] == out[i];
    }
    GroupedAppend(init, longer);
  }

  lemma FlatAdded(out: seq<Statement>, op: Op)
    requires Grouped(out) && (|out| > 0 ==> out[|out| - 1].sql != TextOf(op))
    ensures var more := out + [Statement(TextOf(op), [op])];
            Flat(more) == Flat(out) + [op] && Grouped(more)
  {
    var added := Statement(TextOf(op), [op]);
    assert OneText(added);
    FlatAppend(out, added);
    hide Flat, TextOf, OneText, Grouped;
    GroupedAppend(out, added);
  }

  /** Statement by statement, argument set by argument set. */
  function ExecStatements(rows: LocalRows, statements: seq<Statement>): Option<LocalRows> {
    if |statements| == 0 then Some(rows)
    else match ExecStatements(rows, statements[..|statements| - 1])
      case None => None
      case Some(before) => ExecAll(before, statements[|statements| - 1].runs)
  }

  lemma {:induction false} ExecConcat(rows: LocalRows, a: seq<Op>, b: seq<Op>)
    ensures ExecAll(rows, a + b) == match ExecAll(rows, a) case None => None case Some(mid) => ExecAll(mid, b)
  {
    if |b| == 0 {
      assert a + b == a;
    } else {
      assert (a + b)[..|a + b| - 1] == a + b[..|b| - 1];
      ExecConcat(rows, a, b[..|b| - 1]);
    }
  }

  /** Grouping changes nothing: the statements do what the operations do one by one. */
  lemma {:induction false} GroupingIsTransparent(rows: LocalRows, statements: seq<Statement>)
    ensures ExecStatements(rows, statements) == ExecAll(rows, Flat(statements))
  {
    if |statements| > 0 {
      var prefix := statements[..|statements| - 1];
      GroupingIsTransparent(rows, prefix);
      ExecConcat(rows, Flat(prefix), statements[|statements| - 1].runs);
    }
  }

  // ----- the cache by value -----

  function Cached(cache: LocalRows, op: Op): LocalRows {
    match op
    case Create(_, raw) => cache[KeyOf(op) := raw]
    case Update(_, raw) => cache[KeyOf(op) := raw]
    case MarkAsDeleted(_, _) => cache - {KeyOf(op)}
    case DestroyPermanently(_, _) => cache - {KeyOf(op)}
  }

  function CachedAll(cache: LocalRows, ops: seq<Op>): LocalRows {
    if |ops| == 0 then cache else Cached(CachedAll(cache, ops[..|ops| - 1]), ops[|ops| - 1])
  }

  /** Every cached record is live in storage and equals its stored row. */
  predicate Coherent(storage: LocalRows, cache: LocalRows) {
    forall k :: k in cache ==> k in storage && storage[k] == cache[k] && storage[k].status != Deleted
  }

  /** An update names a row stored at that point of its batch, and writes it live; a create writes it live. */
  predicate NamesStored(rows: LocalRows, op: Op) {
    && (op.Update? ==> KeyOf(op) in rows)
    && (op.Update? || op.Create? ==> op.raw.status != Deleted)
  }

  predicate AllNameStored(rows: LocalRows, ops: seq<Op>) {
    forall i :: 0 <= i < |ops| && ExecAll(rows, ops[..i]).Some? ==> NamesStored(ExecAll(rows, ops[..i]).value, ops[i])
  }

  lemma CoherentAfterOne(storage: LocalRows, cache: LocalRows, op: Op)
    requires Coherent(storage, cache) && Exec(storage, op).Some? && NamesStored(storage, op)
    ensures Coherent(Exec(storage, op).value, Cached(cache, op))
  {
  }

  /** The condition is exact: without it, one operation leaves the cache wrong. */
  lemma CoherentAfterOneIff(storage: LocalRows, cache: LocalRows, op: Op)
    requires Coherent(storage, cache) && Exec(storage, op).Some?
    ensures Coherent(Exec(storage, op).value, Cached(cache, op)) <==> NamesStored(storage, op)
  {
    if NamesStored(storage, op) {
      CoherentAfterOne(storage, cache, op);
    } else {
      assert KeyOf(op) in Cached(cache, op);
    }
  }

  /** Cache equals storage at the batch's end, whatever the batch does to a key in between. */
  lemma {:induction false} CoherentAfterBatch(storage: LocalRows, cache: LocalRows, ops: seq<Op>)
    requires Coherent(storage, cache) && ExecAll(storage, ops).Some? && AllNameStored(storage, ops)
    ensures Coherent(ExecAll(storage, ops).value, CachedAll(cache, ops))
  {
    hide NamesStored;
    if |ops| > 0 {
      var prefix := ops[..|ops| - 1];
      forall i | 0 <= i < |prefix| && ExecAll(storage, prefix[..i]).Some? ensures NamesStored(ExecAll(storage, prefix[..i]).value, prefix[i]) {
        assert prefix[..i] == ops[..i];
      }
      CoherentAfterBatch(storage, cache, prefix);
      CoherentAfterOne(ExecAll(storage, prefix).value, CachedAll(cache, prefix), ops[|ops| - 1]);
    }
  }

  /** Records as the prepare calls leave them. */
  ghost predicate OpsOk(schema: Schema, ops: seq<Op>) {
    forall op :: op in ops && (op.Create? || op.Update?) ==>
      op.table in schema && op.raw.id != "" && RawOk(op.raw, schema[op.table])
  }

  lemma {:induction false} ExecKeepsRowsOk(schema: Schema, rows: LocalRows, ops: seq<Op>)
    requires RowsOk(rows, schema) && OpsOk(schema, ops) && ExecAll(rows, ops).Some?
    ensures RowsOk(ExecAll(rows, ops).value, schema)
  {
    hide RawOk, RowsOk, Exec;
    if |ops| > 0 {
      var prefix, last := ops[..|ops| - 1], ops[|ops| - 1];
      assert forall op :: op in prefix ==> op in ops;
      ExecKeepsRowsOk(schema, rows, prefix);
      ExecOneKeepsRowsOk(schema, ExecAll(rows, prefix).value, last);
    }
  }

  lemma ExecOneKeepsRowsOk(schema: Schema, rows: LocalRows, op: Op)
    requires RowsOk(rows, schema) && Exec(rows, op).Some?
    requires op.Create? || op.Update? ==> op.table in schema && op.raw.id != "" && RawOk(op.raw, schema[op.table])
    ensures RowsOk(Exec(rows, op).value, schema)
  {
    hide WellTyped;
  }

  /** What can happen to a database's storage and cache. */
  datatype CacheEvent = Committing(ops: seq<Op>) | Fetching(k: Key)

  /** Storage and cached contents after an event; a failing batch and a fetch of a row not live change nothing. */
  function AfterEvent(storage: LocalRows, cache: LocalRows, e: CacheEvent): (LocalRows, LocalRows) {
    match e
    case Committing(ops) =>
      (match ExecAll(storage, ops)
       case None => (storage, cache)
       case Some(after) => (after, CachedAll(cache, ops)))
    case Fetching(k) =>
      if k in storage && storage[k].status != Deleted && k !in cache then (storage, cache[k := storage[k]]) else (storage, cache)
  }

  function AfterEvents(events: seq<CacheEvent>): (LocalRows, LocalRows) {
    if |events| == 0 then (map[], map[])
    else
      var (storage, cache) := AfterEvents(events[..|events| - 1]);
      AfterEvent(storage, cache, events[|events| - 1])
  }

  /** Every batch of the run names stored rows at each of its points. */
  predicate RunNamesStored(events: seq<CacheEvent>) {
    forall i :: 0 <= i < |events| && events[i].Committing? ==> AllNameStored(AfterEvents(events[..i]).0, events[i].ops)
  }

  /** After any run of batches, failed batches and fetches, the cache equals storage. */
  lemma {:induction false} EveryRunCoherent(events: seq<CacheEvent>)
    requires RunNamesStored(events)
    ensures Coherent(AfterEvents(events).0, AfterEvents(events).1)
    decreases |events|
  {
    if |events| > 0 {
      hide AllNameStored, CachedAll, ExecAll;
      var prefix, e := events[..|events| - 1], events[|events| - 1];
      forall i | 0 <= i < |prefix| && prefix[i].Committing? ensures AllNameStored(AfterEvents(prefix[..i]).0, prefix[i].ops) {
        assert prefix[..i] == events[..i] && prefix[i] == events[i];
      }
      EveryRunCoherent(prefix);
      var (storage, cache) := AfterEvents(prefix);
      if e.Committing? {
        assert events[..|events| - 1] == prefix;
        assert AllNameStored(storage, e.ops);
        if ExecAll(storage, e.ops).Some? { CoherentAfterBatch(storage, cache, e.ops); }
      }
    }
  }

  // ----- the cache of objects -----

  /** One RawRecord instance. */
  class Record {
    var raw: Raw

    constructor (raw: Raw)
      ensures this.raw == raw
    {
      this.raw := raw;
    }
  }

  predicate Distinctly(cache: map<Key, Record>) {
    forall a, b :: a in cache && b in cache && cache[a] == cache[b] ==> a == b
  }

  /** The first operation on a key that is not an update of it. */
  function FirstOther(ops: seq<Op>, k: Key): Option<Op> {
    if |ops| == 0 then None
    else
      var before := FirstOther(ops[..|ops| - 1], k);
      var last := ops[|ops| - 1];
      if before.None? && KeyOf(last) == k && !last.Update? then Some(last) else before
  }

  lemma FirstOtherMore(ops: seq<Op>, i: nat, k: Key)
    requires i < |ops|
    ensures FirstOther(ops[..i + 1], k)
              == if FirstOther(ops[..i], k).None? && k == KeyOf(ops[i]) && !ops[i].Update? then Some(ops[i]) else FirstOther(ops[..i], k)
  {
    assert ops[..i + 1][..i] == ops[..i];
  }

  predicate Deletes(op: Op) {
    op.MarkAsDeleted? || op.DestroyPermanently?
  }

  /** What a batch does to an object cached before it: kept while only updated, marked and let go by a deletion. */
  ghost predicate ObjectSound(ops: seq<Op>, k: Key, record: Record, cache: map<Key, Record>, status: Status) {
    match FirstOther(ops, k)
    case None => Lookup(cache, k) == Some(record)
    case Some(op) => Uncached(cache, record) && (Deletes(op) ==> status == Deleted)
  }

  predicate Uncached(cache: map<Key, Record>, record: Record) {
    forall x :: x in cache ==> cache[x] != record
  }

  /** One more operation, seen from one object cached before the batch. */
  lemma ObjectSoundMore(ops: seq<Op>, i: nat, k: Key, record: Record, before: map<Key, Record>, after: map<Key, Record>, was: Status, now: Status)
    requires i < |ops| && Distinctly(before) && ObjectSound(ops[..i], k, record, before, was)
    requires forall x :: x != KeyOf(ops[i]) ==> Lookup(after, x) == Lookup(before, x)
    requires ops[i].Update? && KeyOf(ops[i]) in before ==> after == before
    requires !(ops[i].Update? && KeyOf(ops[i]) in before) && KeyOf(ops[i]) in after ==> after[KeyOf(ops[i])] != record
    requires Lookup(before, KeyOf(ops[i])) != Some(record) ==> now == was
    requires Deletes(ops[i]) && Lookup(before, KeyOf(ops[i])) == Some(record) ==> now == Deleted
    ensures ObjectSound(ops[..i + 1], k, record, after, now)
  {
    hide FirstOther;
    FirstOtherMore(ops, i, k);
    var at := KeyOf(ops[i]);
    forall x | x in after && x != at ensures x in before && after[x] == before[x] {
      assert Lookup(after, x) == Lookup(before, x);
    }
  }

  /**
   * A collection's records over its storage. The raw an operation carries is
   * the operation's own copy, so the object it becomes is made here.
   */
  class CachedDatabase {
    const schema: Schema
    var storage: LocalRows
    var cache: map<Key, Record>

    constructor (schema: Schema)
      requires ValidSchema(schema)
      ensures Valid() && storage == map[] && cache == map[]
    {
      this.schema := schema;
      storage, cache := map[], map[];
    }

    ghost function Contents(): LocalRows
      reads this`cache, cache.Values
    {
      map k | k in cache :: cache[k].raw
    }

    ghost predicate Valid()
      reads this, cache.Values
    {
      ValidSchema(schema) && RowsOk(storage, schema) && Distinctly(cache) && Coherent(storage, Contents())
    }

    /** A fetched live row's record: the cached instance, or one made from the row and cached. */
    method RecordFromRow(k: Key) returns (record: Record)
      requires Valid() && k in storage && storage[k].status != Deleted
      modifies this`cache
      ensures Valid() && storage == old(storage)
      ensures record.raw == storage[k] && k in cache && cache[k] == record
      ensures k in old(cache) ==> cache == old(cache)
      ensures k !in old(cache) ==> fresh(record) && cache == old(cache)[k := record]
    {
      if k in cache { return cache[k]; }
      var table := schema[k.table];
      StoreRoundTrip(storage[k], table, "");
      var raw := SanitizedRaw(DriverRow(storage[k], table), table, "");
      record := new Record(raw.value);
      cache := cache[k := record];
    }

    /** A record becomes the instance for its key. */
    method Add(k: Key, raw: Raw)
      requires Distinctly(cache)
      modifies this`cache
      ensures Distinctly(cache) && Contents() == old(Contents())[k := raw]
      ensures k in cache && fresh(cache[k]) && cache == old(cache)[k := cache[k]]
    {
      var record := new Record(raw);
      cache := cache[k := record];
    }

    /** Object.assign onto the cached instance. */
    method Assign(k: Key, raw: Raw)
      requires Distinctly(cache) && k in cache
      modifies cache[k]
      ensures Contents() == old(Contents())[k := raw]
    {
      cache[k].raw := raw;
    }

    /** The cached instance is marked deleted and let go. */
    method LetGo(k: Key)
      requires Distinctly(cache) && k in cache
      modifies this`cache, cache[k]
      ensures Distinctly(cache) && cache == old(cache) - {k} && Contents() == old(Contents()) - {k}
      ensures old(cache)[k].raw.status == Deleted
    {
      var record := cache[k];
      record.raw := record.raw.(status := Deleted);
      cache := cache - {k};
    }

    /** One committed operation: the cached instance is updated in place, or replaced, or marked and let go. */
    method Follow(op: Op)
      requires Distinctly(cache)
      modifies this`cache, if KeyOf(op) in cache then {cache[KeyOf(op)]} else {}
      ensures Distinctly(cache) && Contents() == Cached(old(Contents()), op)
      ensures forall k :: k != KeyOf(op) ==> Lookup(cache, k) == Lookup(old(cache), k)
      ensures op.Update? && KeyOf(op) in old(cache) ==> cache == old(cache)
      ensures !(op.Update? && KeyOf(op) in old(cache)) && KeyOf(op) in cache ==> fresh(cache[KeyOf(op)])
      ensures Deletes(op) && KeyOf(op) in old(cache) ==> old(cache)[KeyOf(op)].raw.status == Deleted
    {
      hide Contents;
      var k := KeyOf(op);
      match op
      case Create(_, raw) => Add(k, raw);
      case Update(_, raw) =>
        if k in cache { Assign(k, raw); } else { Add(k, raw); }
      case _ =>
        if k in cache { LetGo(k); } else { NothingToDrop(k); }
    }

    lemma NothingToDrop(k: Key)
      requires k !in cache
      ensures Contents() - {k} == Contents()
    {
    }

    /** Every committed operation in order. */
    method BringUpToDate(ops: seq<Op>)
      requires Distinctly(cache)
      modifies this`cache, cache.Values
      ensures Distinctly(cache) && Contents() == CachedAll(old(Contents()), ops)
      ensures forall k :: k in old(cache) ==> ObjectSound(ops, k, old(cache)[k], cache, old(cache)[k].raw.status)
    {
      ghost var cache0 := cache;
      for i := 0 to |ops|
        invariant Distinctly(cache) && Contents() == CachedAll(old(Contents()), ops[..i])
        invariant forall k :: k in cache ==> Lookup(cache0, k) == Some(cache[k]) || fresh(cache[k])
        invariant forall k :: k in cache0 ==> ObjectSound(ops[..i], k, cache0[k], cache, cache0[k].raw.status)
        invariant unchanged(this`storage)
      {
        assert ops[..i + 1][..i] == ops[..i];
        ghost var before := cache;
        ghost var was := map k | k in cache0 :: cache0[k].raw.status;
        Follow(ops[i]);
        hide Cached, Contents, FirstOther, KeyOf, ObjectSound;
        forall k | k in cache ensures Lookup(cache0, k) == Some(cache[k]) || fresh(cache[k]) {
          assert k != KeyOf(ops[i]) ==> Lookup(cache, k) == Lookup(before, k);
        }
        forall k | k in cache0 ensures ObjectSound(ops[..i + 1], k, cache0[k], cache, cache0[k].raw.status) {
          ObjectSoundMore(ops, i, k, cache0[k], before, cache, was[k], cache0[k].raw.status);
        }
      }
      assert ops[..|ops|] == ops;
    }

    /**
     * Database.batch: the grouped statements run or fail as one; on success
     * every cached instance is brought up to date in place.
     */
    method Batch(ops: seq<Op>) returns (ok: bool)
      requires Valid()
      modifies this, cache.Values
      ensures ok <==> (forall op :: op in ops ==> KeyOf(op).table in schema) && ExecAll(old(storage), ops).Some?
      ensures !ok ==> storage == old(storage) && cache == old(cache) && Contents() == old(Contents())
      ensures ok ==> storage == ExecAll(old(storage), ops).value && Contents() == CachedAll(old(Contents()), ops)
      ensures ok ==> Distinctly(cache) && forall k :: k in old(cache) ==> ObjectSound(ops, k, old(cache)[k], cache, old(cache)[k].raw.status)
      ensures ok && AllNameStored(old(storage), ops) ==> Coherent(storage, Contents())
      ensures ok && AllNameStored(old(storage), ops) && OpsOk(schema, ops) ==> Valid()
    {
      hide Coherent, RowsOk, OpsOk, ObjectSound, Distinctly, AllNameStored, ExecAll, CachedAll, Contents, Grouped, Flat;
      ghost var storage0, contents0 := storage, Contents();
      var statements := EncodeBatch(ops, schema);
      if statements.None? { return false; }
      GroupingIsTransparent(storage, statements.value);
      var after := ExecStatements(storage, statements.value);
      if after.None? { return false; }
      storage := after.value;
      BringUpToDate(ops);
      if AllNameStored(storage0, ops) { CoherentAfterBatch(storage0, contents0, ops); }
      if OpsOk(schema, ops) { ExecKeepsRowsOk(schema, storage0, ops); }
      ok := true;
    }
  }
}
