/**
 * Applying a change set from the server (packages/core/src/sync/applyRemote.ts):
 * what each stored row becomes, and the batch that gets it there. Base64 text
 * of a blob on the wire and the bytes it stands for are one value here.
 */
module RemoteApply {
  import opened RawRecords
  import opened MemoryStores
  import opened SyncTypes
  import opened Rowsets
  import opened LocalDatabases

  /** The protocol carries full records. */
  predicate IsFull(row: DirtyRaw, table: Table) {
    forall column :: column in table.columns ==> column.name in row
  }

  predicate DecodesBlobs(row: DirtyRaw, table: Table) {
    forall column :: column in table.columns && column.ctype == BlobColumn ==>
      var v := Get(row, column.name);
      v.Undefined? || v.Null? || v.Bytes?
  }

  /** What a change set makes of one stored row. */
  function Resolve(table: Table, local: Option<Raw>, s: Statement, id: string, replacement: bool): Option<Raw> {
    match s
    case Deletes => None
    case Silent => if replacement && local.Some? && local.value.status == Synced then None else local
    case Upserts(row) =>
      if local.None? then
        (match SanitizeColumns(row, table.columns)
         case Some(values) => Some(Raw(id, Synced, "", values))
         case None => None)
      else if local.value.status == Deleted then local
      else (match Merged(local.value, row, table) case Some(raw) => Some(raw) case None => local)
  }

  /** A row the apply rejects; one under a local tombstone is never sanitized. */
  predicate RowFails(table: Table, local: Option<Raw>, row: DirtyRaw) {
    || !IsFull(row, table)
    || (SanitizeColumns(row, table.columns).None? && !(local.Some? && local.value.status == Deleted))
  }

  ghost predicate TableFails(table: Table, rows: LocalRows, tc: TableChanges) {
    || (exists row :: row in tc.created + tc.updated && !(HasUsableId(row) && DecodesBlobs(row, table)))
    || (exists id :: StatesFailing(table, rows, tc, id))
  }

  ghost predicate StatesFailing(table: Table, rows: LocalRows, tc: TableChanges, id: string) {
    var s := StatementFor(tc, id);
    s.Upserts? && RowFails(table, Lookup(rows, Key(table.name, id)), s.row)
  }

  ghost predicate ApplyFails(schema: Schema, rows: LocalRows, changes: Changes) {
    exists t :: t in changes && t in schema && (schema[t].localOnly || TableFails(schema[t], rows, changes[t]))
  }

  function ResolvedAt(schema: Schema, rows: LocalRows, changes: Changes, replacement: bool, k: Key): Option<Raw> {
    if k.table in changes && k.table in schema
    then Resolve(schema[k.table], Lookup(rows, k), StatementFor(changes[k.table], k.id), k.id, replacement)
    else Lookup(rows, k)
  }

  ghost predicate IsApplied(schema: Schema, rows: LocalRows, changes: Changes, replacement: bool, after: LocalRows) {
    forall k: Key :: Lookup(after, k) == ResolvedAt(schema, rows, changes, replacement, k)
  }

  // ----- planning one table -----

  /** One table's share of an apply. */
  datatype Job = Job(table: Table, rows: LocalRows, tc: TableChanges, replacement: bool)

  function LocalAt(job: Job, id: string): Option<Raw> {
    Lookup(job.rows, Key(job.table.name, id))
  }

  function Target(job: Job, id: string): Option<Raw> {
    Resolve(job.table, LocalAt(job, id), StatementFor(job.tc, id), id, job.replacement)
  }

  /** The operations planned so far settle exactly the ids handled so far. */
  ghost predicate Plans(job: Job, ops: seq<Op>, handled: set<string>) {
    && TouchesOnce(ops)
    && InsertsAbsent(job.rows, ops)
    && (forall op :: op in ops ==> KeyOf(op).table == job.table.name && KeyOf(op).id in handled)
    && (forall id :: id in handled ==> OutcomeAt(job.rows, ops, Key(job.table.name, id)) == Target(job, id))
  }

  lemma PlanMore(job: Job, ops: seq<Op>, handled: set<string>, id: string, op: Op)
    requires Plans(job, ops, handled) && id !in handled
    requires KeyOf(op) == Key(job.table.name, id)
    requires op.Create? ==> LocalAt(job, id).None?
    requires Outcome(LocalAt(job, id), op) == Target(job, id)
    ensures Plans(job, ops + [op], handled + {id})
  {
    hide Target, Outcome;
    var more := ops + [op];
    forall i, j | 0 <= i < j < |more| ensures KeyOf(more[i]) != KeyOf(more[j]) {
      assert more[i] in ops;
    }
    forall o | o in more && o.Create? ensures KeyOf(o) !in job.rows {
      assert o in ops || o == op;
    }
    assert more[..|ops|] == ops;
    forall x | x in handled + {id} ensures OutcomeAt(job.rows, more, Key(job.table.name, x)) == Target(job, x) {
      if x != id { assert OutcomeAt(job.rows, ops, Key(job.table.name, x)) == Target(job, x); }
    }
  }

  lemma PlanSkip(job: Job, ops: seq<Op>, handled: set<string>, id: string)
    requires Plans(job, ops, handled) && id !in handled
    requires Target(job, id) == LocalAt(job, id)
    ensures Plans(job, ops, handled + {id})
  {
    hide Target;
    OpAtFinds(ops, Key(job.table.name, id));
  }

  /** What the apply read of the table: tombstones, and live rows by id. */
  datatype LocalState = LocalState(tombstones: set<string>, live: map<string, Raw>)

  ghost predicate StateOf(state: LocalState, job: Job, ids: set<string>) {
    && (forall id :: id in ids ==>
          && (id in state.tombstones <==> LocalAt(job, id).Some? && LocalAt(job, id).value.status == Deleted)
          && (id in state.live <==> LocalAt(job, id).Some? && LocalAt(job, id).value.status != Deleted))
    && (forall id :: id in state.live ==> LocalAt(job, id) == Some(state.live[id]))
  }

  const ID_CHUNK := 900

  /** queryRowsByIds: the table's rows for the ids, in chunks SQLite can bind. */
  method QueryRowsByIds(rows: LocalRows, table: string, ids: seq<string>) returns (found: seq<Raw>)
    requires forall k :: k in rows ==> rows[k].id == k.id
    ensures forall raw :: raw in found <==> raw.id in ids && Lookup(rows, Key(table, raw.id)) == Some(raw)
  {
    found := [];
    var i := 0;
    while i < |ids|
      invariant 0 <= i
      invariant forall raw :: raw in found <==> raw.id in ids[..if i < |ids| then i else |ids|]
                                                && Lookup(rows, Key(table, raw.id)) == Some(raw)
    {
      var end := if i + ID_CHUNK < |ids| then i + ID_CHUNK else |ids|;
      var chunk := QueryOneOf(rows, table, ids[i..end]);
      assert ids[..end] == ids[..i] + ids[i..end];
      found := found + chunk;
      i := i + ID_CHUNK;
    }
    assert ids[..|ids|] == ids;
  }

  /** One "id in (...)" query. */
  method QueryOneOf(rows: LocalRows, table: string, ids: seq<string>) returns (found: seq<Raw>)
    requires forall k :: k in rows ==> rows[k].id == k.id
    ensures forall raw :: raw in found <==> raw.id in ids && Lookup(rows, Key(table, raw.id)) == Some(raw)
  {
    found := [];
    for i := 0 to |ids|
      invariant forall raw :: raw in found <==> raw.id in ids[..i] && Lookup(rows, Key(table, raw.id)) == Some(raw)
    {
      assert ids[..i + 1] == ids[..i] + [ids[i]];
      var k := Key(table, ids[i]);
      if k in rows { found := found + [rows[k]]; }
    }
    assert ids[..|ids|] == ids;
  }

  /** The whole table, for a replacement. */
  method QueryTable(rows: LocalRows, table: string) returns (found: seq<Raw>)
    requires forall k :: k in rows ==> rows[k].id == k.id
    ensures forall raw :: raw in found <==> Lookup(rows, Key(table, raw.id)) == Some(raw)
  {
    found := [];
    var todo := rows.Keys;
    while todo != {}
      invariant todo <= rows.Keys
      invariant forall raw :: raw in found <==>
                  Lookup(rows, Key(table, raw.id)) == Some(raw) && Key(table, raw.id) !in todo
      decreases |todo|
    {
      var k :| k in todo;
      todo := todo - {k};
      if k.table == table {
        assert k == Key(table, rows[k].id);
        found := found + [rows[k]];
      }
    }
  }

  method ReadState(ghost job: Job, rows: seq<Raw>, ghost ids: set<string>) returns (state: LocalState)
    requires forall raw :: raw in rows ==> LocalAt(job, raw.id) == Some(raw)
    requires forall id :: id in ids && LocalAt(job, id).Some? ==> LocalAt(job, id).value.id == id && LocalAt(job, id).value in rows
    ensures StateOf(state, job, ids) && StateOf(state, job, state.live.Keys)
    ensures forall raw :: raw in rows && raw.status != Deleted ==> raw.id in state.live
    ensures forall id :: id in state.live ==> state.live[id] in rows && state.live[id].id == id
  {
    state := LocalState({}, map[]);
    for i := 0 to |rows|
      invariant forall id :: id in state.tombstones <==> exists j :: 0 <= j < i && rows[j].id == id && rows[j].status == Deleted
      invariant forall id :: id in state.live <==> exists j :: 0 <= j < i && rows[j].id == id && rows[j].status != Deleted
      invariant forall id :: id in state.live ==>
                  LocalAt(job, id) == Some(state.live[id]) && state.live[id] in rows && state.live[id].id == id
                  && state.live[id].status != Deleted
    {
      var raw := rows[i];
      assert raw in rows;
      if raw.status == Deleted {
        state := state.(tombstones := state.tombstones + {raw.id});
      } else {
        state := state.(live := state.live[raw.id := raw]);
      }
    }
    assert forall j :: 0 <= j < |rows| ==> rows[j] in rows;
  }

  method CreateAsSynced(table: Table, dirty: WireRow) returns (raw: Option<Raw>)
    requires ValidTable(table)
    ensures raw == match SanitizeColumns(dirty, table.columns)
                   case None => None
                   case Some(values) => Some(Raw(IdOf(dirty), Synced, "", values))
  {
    var stated: DirtyRaw := dirty["_status" := Str("synced")]["_changed" := Str("")];
    raw := SanitizedRaw(stated, table, "");
    SanitizeIgnoresSyncFields(stated, dirty, table.columns);
  }

  /** The created or the updated rows of one table. */
  method PlanRows(ghost job: Job, table: Table, state: LocalState, batch: seq<WireRow>, before: seq<Op>, ghost handled: set<string>)
    returns (ops: Option<seq<Op>>)
    requires table == job.table && ValidTable(table) && Plans(job, before, handled)
    requires DistinctIds(batch) && StateOf(state, job, RowIds(batch)) && handled !! RowIds(batch)
    requires forall id :: id in state.live ==> state.live[id].id == id && id != ""
    requires forall row :: row in batch ==> StatementFor(job.tc, IdOf(row)) == Upserts(row)
    ensures ops.None? <==> exists row :: row in batch && RowFails(table, LocalAt(job, IdOf(row)), row)
    ensures ops.Some? ==> Plans(job, ops.value, handled + RowIds(batch))
  {
    hide TouchesOnce, InsertsAbsent, StatementFor, OutcomeAt, Plans, Overlay, SanitizeColumns, ChangedColumns, ValidTable, IsFull;
    var planned := before;
    assert handled + RowIds(batch[..0]) == handled;
    for i := 0 to |batch|
      invariant Plans(job, planned, handled + RowIds(batch[..i]))
      invariant forall row :: row in batch[..i] ==> !RowFails(table, LocalAt(job, IdOf(row)), row)
    {
      var dirty := batch[i];
      assert dirty in batch;
      NextRowIsNew(batch, handled, i);
      if !IsFull(dirty, table) { return None; }
      var id := IdOf(dirty);
      if id in state.live {
        var local := state.live[id];
        var resolved := ResolveConflict(local, dirty, table);
        if resolved.None? {
          return None;
        }
        if (local.status == Synced || local.status == Created) && local == resolved.value {
          PlanSkip(job, planned, handled + RowIds(batch[..i]), id);
        } else {
          PlanMore(job, planned, handled + RowIds(batch[..i]), id, Update(table.name, resolved.value));
          planned := planned + [Update(table.name, resolved.value)];
        }
      } else if id in state.tombstones {
        PlanSkip(job, planned, handled + RowIds(batch[..i]), id);
      } else {
        var raw := CreateAsSynced(table, dirty);
        if raw.None? { return None; }
        PlanMore(job, planned, handled + RowIds(batch[..i]), id, Create(table.name, raw.value));
        planned := planned + [Create(table.name, raw.value)];
      }
    }
    assert batch[..|batch|] == batch;
    ops := Some(planned);
  }

  lemma NextRowIsNew(batch: seq<WireRow>, handled: set<string>, i: nat)
    requires i < |batch| && DistinctIds(batch) && handled !! RowIds(batch)
    ensures IdOf(batch[i]) !in handled + RowIds(batch[..i])
    ensures handled + RowIds(batch[..i + 1]) == handled + RowIds(batch[..i]) + {IdOf(batch[i])}
    ensures forall row :: row in batch[..i + 1] <==> row in batch[..i] || row == batch[i]
    ensures IdOf(batch[i]) in RowIds(batch)
  {
    assert batch[..i + 1] == batch[..i] + [batch[i]];
    assert batch[i] in batch;
  }

  method PlanDeletes(ghost job: Job, table: string, state: LocalState, ids: seq<string>, before: seq<Op>, ghost handled: set<string>)
    returns (ops: seq<Op>)
    requires table == job.table.name && Plans(job, before, handled) && handled !! Elements(ids)
    requires forall i, j :: 0 <= i < j < |ids| ==> ids[i] != ids[j]
    requires StateOf(state, job, Elements(ids))
    requires forall id :: id in ids ==> StatementFor(job.tc, id) == Deletes
    ensures Plans(job, ops, handled + Elements(ids))
  {
    hide TouchesOnce, InsertsAbsent, StatementFor, OutcomeAt, Plans;
    ops := before;
    assert handled + Elements(ids[..0]) == handled;
    for i := 0 to |ids|
      invariant Plans(job, ops, handled + Elements(ids[..i]))
    {
      var id := ids[i];
      assert id in Elements(ids);
      assert Elements(ids[..i + 1]) == Elements(ids[..i]) + {id} by {
        assert ids[..i + 1] == ids[..i] + [id];
      }
      assert handled + Elements(ids[..i + 1]) == handled + Elements(ids[..i]) + {id};
      if id in state.live || id in state.tombstones {
        PlanMore(job, ops, handled + Elements(ids[..i]), id, DestroyPermanently(table, id));
        ops := ops + [DestroyPermanently(table, id)];
      } else {
        PlanSkip(job, ops, handled + Elements(ids[..i]), id);
      }
    }
    assert ids[..|ids|] == ids;
  }

  /** Synced rows the snapshot does not name are gone from the server. */
  method PlanReplacement(ghost job: Job, table: string, state: LocalState, snapshot: set<string>, before: seq<Op>)
    returns (ops: seq<Op>, ghost handled: set<string>)
    requires table == job.table.name && job.replacement && Plans(job, before, snapshot)
    requires StateOf(state, job, state.live.Keys)
    requires forall id :: id !in snapshot ==> StatementFor(job.tc, id) == Silent
    ensures Plans(job, ops, handled) && handled == snapshot + state.live.Keys
  {
    hide TouchesOnce, InsertsAbsent, StatementFor, OutcomeAt, Plans, StateOf;
    ops, handled := before, snapshot;
    var todo := state.live.Keys;
    while todo != {}
      invariant todo <= state.live.Keys
      invariant handled == snapshot + (state.live.Keys - todo)
      invariant Plans(job, ops, handled)
      decreases |todo|
    {
      var id :| id in todo;
      todo := todo - {id};
      StaleTarget(job, state, id, snapshot);
      if id !in snapshot {
        if state.live[id].status == Synced {
          PlanMore(job, ops, handled, id, DestroyPermanently(table, id));
          ops := ops + [DestroyPermanently(table, id)];
        } else {
          PlanSkip(job, ops, handled, id);
        }
      }
      assert handled + {id} == snapshot + (state.live.Keys - todo);
      assert id in snapshot ==> handled + {id} == handled;
      handled := handled + {id};
    }
  }

  lemma StaleTarget(job: Job, state: LocalState, id: string, snapshot: set<string>)
    requires job.replacement && StateOf(state, job, state.live.Keys) && id in state.live
    requires forall x :: x !in snapshot ==> StatementFor(job.tc, x) == Silent
    ensures LocalAt(job, id) == Some(state.live[id])
    ensures id !in snapshot ==> Target(job, id) == if state.live[id].status == Synced then None else LocalAt(job, id)
  {
    hide StatementFor;
  }

  /** The created and updated rows left after normalizing, and what the table's change set then says. */
  lemma KeptAreStated(tc: TableChanges, deletes: seq<string>, lastUpdated: seq<WireRow>, lastCreated: seq<WireRow>,
                      updated: seq<WireRow>, created: seq<WireRow>)
    requires Elements(deletes) == Elements(tc.deleted)
    requires forall row :: row in lastUpdated <==> LastRow(tc.updated, IdOf(row)) == Some(row)
    requires forall id :: LastRow(tc.updated, id).Some? ==> id in RowIds(lastUpdated)
    requires forall row :: row in lastCreated <==> LastRow(tc.created, IdOf(row)) == Some(row)
    requires forall id :: LastRow(tc.created, id).Some? ==> id in RowIds(lastCreated)
    requires forall row :: row in updated <==> row in lastUpdated && IdOf(row) !in Elements(deletes)
    requires forall row :: row in created <==> row in lastCreated && IdOf(row) !in Elements(deletes) + RowIds(updated)
    ensures forall row :: row in updated ==> StatementFor(tc, IdOf(row)) == Upserts(row)
    ensures forall row :: row in created ==> StatementFor(tc, IdOf(row)) == Upserts(row)
    ensures forall id :: id in deletes ==> StatementFor(tc, id) == Deletes
    ensures forall id :: id !in RowIds(updated) + RowIds(created) + Elements(deletes) ==> StatementFor(tc, id) == Silent
    ensures RowIds(updated) !! Elements(deletes) && RowIds(created) !! Elements(deletes) && RowIds(created) !! RowIds(updated)
  {
    hide LastRow;
    assert forall id :: id in deletes <==> id in Elements(deletes);
    assert forall id :: id in tc.deleted <==> id in Elements(tc.deleted);
    forall id ensures LastRow(tc.created + tc.updated, id)
                        == if LastRow(tc.updated, id).Some? then LastRow(tc.updated, id) else LastRow(tc.created, id)
    {
      LastRowConcat(tc.created, tc.updated, id);
    }
    forall id | id !in Elements(deletes) && id !in RowIds(updated) ensures LastRow(tc.updated, id).None? {
      NotKept(tc.updated, lastUpdated, updated, Elements(deletes), id);
    }
    forall id | id !in Elements(deletes) && id !in RowIds(updated) && id !in RowIds(created)
      ensures LastRow(tc.created, id).None?
    {
      NotKept(tc.created, lastCreated, created, Elements(deletes) + RowIds(updated), id);
    }
  }

  lemma NotKept(rows: seq<DirtyRaw>, last: seq<WireRow>, kept: seq<WireRow>, drop: set<string>, id: string)
    requires forall row :: row in last <==> LastRow(rows, IdOf(row)) == Some(row)
    requires forall i :: LastRow(rows, i).Some? ==> i in RowIds(last)
    requires forall row :: row in kept <==> row in last && IdOf(row) !in drop
    requires id !in drop && id !in RowIds(kept)
    ensures LastRow(rows, id).None?
  {
    hide LastRow;
    forall row | row in last ensures IdOf(row) != id {
    }
  }

  ghost predicate KeyedById(rows: LocalRows) {
    forall k :: k in rows ==> rows[k].id == k.id && k.id != ""
  }

  /** Reads the rows a table's changes refer to, or the whole table. */
  method ReadTable(ghost job: Job, rows: LocalRows, table: string, ids: seq<string>, replacement: bool) returns (state: LocalState)
    requires rows == job.rows && table == job.table.name && KeyedById(rows)
    ensures StateOf(state, job, Elements(ids)) && StateOf(state, job, state.live.Keys)
    ensures forall id :: id in state.live ==> state.live[id].id == id && id != ""
    ensures replacement ==> forall id :: LocalAt(job, id).Some? && LocalAt(job, id).value.status != Deleted ==> id in state.live
  {
    var found: seq<Raw> := [];
    if |ids| > 0 || replacement {
      if replacement {
        found := QueryTable(rows, table);
      } else {
        found := QueryRowsByIds(rows, table, ids);
      }
    }
    state := ReadState(job, found, Elements(ids));
  }

  /** One table's operations; None is the throw of a malformed, sparse or unsafe row. */
  method PlanTable(table: Table, rows: LocalRows, tc: TableChanges, replacement: bool) returns (ops: Option<seq<Op>>)
    requires ValidTable(table) && KeyedById(rows)
    ensures ops.None? <==> TableFails(table, rows, tc)
    ensures ops.Some? ==> exists handled :: Plans(Job(table, rows, tc, replacement), ops.value, handled)
                                            && Settles(Job(table, rows, tc, replacement), handled)
  {
    ghost var job := Job(table, rows, tc, replacement);
    if !(forall row :: row in tc.created + tc.updated ==> DecodesBlobs(row, table)) { return None; }
    var lastUpdated := LastById(tc.updated);
    if lastUpdated.None? { return None; }
    var lastCreated := LastById(tc.created);
    if lastCreated.None? { return None; }
    var deletes := Dedup(tc.deleted);
    var updated := DropRows(lastUpdated.value, Elements(deletes));
    var updatedIds := IdsOf(updated);
    var created := DropRows(lastCreated.value, Elements(deletes) + Elements(updatedIds));
    var createdIds := IdsOf(created);
    DedupKeeps(tc.deleted);
    DropRowsKeeps(lastUpdated.value, Elements(deletes));
    DropRowsKeeps(lastCreated.value, Elements(deletes) + Elements(updatedIds));
    KeptAreStated(tc, deletes, lastUpdated.value, lastCreated.value, updated, created);
    hide LastRow, StatementFor, Plans, DecodesBlobs, RowFails, DropRows, Dedup, ValidTable, Elements, KeyedById;

    var state := ReadTable(job, rows, table.name, createdIds + updatedIds + deletes, replacement);
    ReferencedCover(createdIds, updatedIds, deletes);
    StateOfPart(state, job, Elements(createdIds + updatedIds + deletes), RowIds(created));
    StateOfPart(state, job, Elements(createdIds + updatedIds + deletes), RowIds(updated));
    StateOfPart(state, job, Elements(createdIds + updatedIds + deletes), Elements(deletes));
    PlansNothing(job);
    var c := PlanRows(job, table, state, created, [], {});
    if c.None? {
      FailsOnKept(job, created);
      return None;
    }
    assert {} + RowIds(created) == RowIds(created);
    var u := PlanRows(job, table, state, updated, c.value, RowIds(created));
    if u.None? {
      FailsOnKept(job, updated);
      return None;
    }
    NoneFails(job, created, updated, deletes);
    var planned := PlanDeletes(job, table.name, state, deletes, u.value, RowIds(created) + RowIds(updated));
    ghost var handled := RowIds(created) + RowIds(updated) + Elements(deletes);
    if replacement {
      planned, handled := PlanReplacement(job, table.name, state,
        Elements(createdIds) + Elements(updatedIds) + Elements(deletes), planned);
    }
    assert Settles(job, handled);
    ops := Some(planned);
  }

  /** What is not handled stays as it is. */
  ghost predicate Settles(job: Job, handled: set<string>) {
    forall id :: id !in handled ==> Target(job, id) == LocalAt(job, id)
  }

  lemma PlansNothing(job: Job)
    ensures Plans(job, [], {})
  {
  }

  lemma ReferencedCover(a: seq<string>, b: seq<string>, c: seq<string>)
    ensures Elements(a + b + c) == Elements(a) + Elements(b) + Elements(c)
  {
  }

  lemma StateOfPart(state: LocalState, job: Job, ids: set<string>, part: set<string>)
    requires StateOf(state, job, ids) && part <= ids
    ensures StateOf(state, job, part)
  {
  }

  lemma FailsOnKept(job: Job, kept: seq<WireRow>)
    requires forall row :: row in kept ==> StatementFor(job.tc, IdOf(row)) == Upserts(row)
    requires exists row :: row in kept && RowFails(job.table, LocalAt(job, IdOf(row)), row)
    ensures TableFails(job.table, job.rows, job.tc)
  {
    hide StatementFor, RowFails;
    var row :| row in kept && RowFails(job.table, LocalAt(job, IdOf(row)), row);
    assert StatesFailing(job.table, job.rows, job.tc, IdOf(row));
  }

  lemma NoneFails(job: Job, created: seq<WireRow>, updated: seq<WireRow>, deletes: seq<string>)
    requires forall row :: row in job.tc.created + job.tc.updated ==> HasUsableId(row) && DecodesBlobs(row, job.table)
    requires forall row :: row in updated ==> StatementFor(job.tc, IdOf(row)) == Upserts(row)
    requires forall row :: row in created ==> StatementFor(job.tc, IdOf(row)) == Upserts(row)
    requires forall id :: id in deletes ==> StatementFor(job.tc, id) == Deletes
    requires forall id :: id !in RowIds(updated) + RowIds(created) + Elements(deletes) ==> StatementFor(job.tc, id) == Silent
    requires forall row :: row in created ==> !RowFails(job.table, LocalAt(job, IdOf(row)), row)
    requires forall row :: row in updated ==> !RowFails(job.table, LocalAt(job, IdOf(row)), row)
    ensures !TableFails(job.table, job.rows, job.tc)
  {
    hide StatementFor, RowFails, DecodesBlobs;
    forall id ensures !StatesFailing(job.table, job.rows, job.tc, id) {
      if id in RowIds(updated) {
        var row :| row in updated && IdOf(row) == id;
      } else if id in RowIds(created) {
        var row :| row in created && IdOf(row) == id;
      } else if id in deletes {
        assert StatementFor(job.tc, id) == Deletes;
      } else {
        assert StatementFor(job.tc, id) == Silent;
      }
    }
  }

  // ----- all tables, one batch -----

  ghost predicate PlansTables(schema: Schema, rows: LocalRows, changes: Changes, replacement: bool, ops: seq<Op>, done: set<string>) {
    && TouchesOnce(ops)
    && InsertsAbsent(rows, ops)
    && (forall op :: op in ops ==> KeyOf(op).table in done)
    && (forall k: Key :: k.table in done ==> OutcomeAt(rows, ops, k) == ResolvedAt(schema, rows, changes, replacement, k))
  }

  lemma {:induction false} OpAtConcat(a: seq<Op>, b: seq<Op>, key: Key)
    ensures OpAt(a + b, key) == if OpAt(b, key).Some? then OpAt(b, key) else OpAt(a, key)
  {
    if |b| == 0 {
      assert a + b == a;
    } else {
      assert (a + b)[..|a + b| - 1] == a + b[..|b| - 1];
      OpAtConcat(a, b[..|b| - 1], key);
    }
  }

  lemma PlanTableMore(schema: Schema, rows: LocalRows, changes: Changes, replacement: bool, ops: seq<Op>, done: set<string>,
                      t: string, more: seq<Op>, handled: set<string>)
    requires PlansTables(schema, rows, changes, replacement, ops, done) && t !in done
    requires t in schema && t in changes && schema[t].name == t
    requires Plans(Job(schema[t], rows, changes[t], replacement), more, handled)
    requires Settles(Job(schema[t], rows, changes[t], replacement), handled)
    ensures PlansTables(schema, rows, changes, replacement, ops + more, done + {t})
  {
    hide Resolve, StatementFor, Outcome;
    var job := Job(schema[t], rows, changes[t], replacement);
    var all := ops + more;
    forall i, j | 0 <= i < j < |all| ensures KeyOf(all[i]) != KeyOf(all[j]) {
      assert i < |ops| ==> all[i] in ops;
      assert i >= |ops| ==> all[i] == more[i - |ops|];
      assert j >= |ops| ==> all[j] == more[j - |ops|] && all[j] in more;
    }
    forall k: Key | k.table in done + {t} ensures OutcomeAt(rows, all, k) == ResolvedAt(schema, rows, changes, replacement, k) {
      OpAtConcat(ops, more, k);
      OpAtFinds(more, k);
      OpAtFinds(ops, k);
      if k.table == t {
        assert k == Key(job.table.name, k.id);
        assert OutcomeAt(rows, more, k) == Target(job, k.id);
      }
    }
  }

  lemma PlanTableSkip(schema: Schema, rows: LocalRows, changes: Changes, replacement: bool, ops: seq<Op>, done: set<string>, t: string)
    requires PlansTables(schema, rows, changes, replacement, ops, done) && t !in done && t !in schema
    ensures PlansTables(schema, rows, changes, replacement, ops, done + {t})
  {
    hide Resolve, Outcome;
    forall k: Key | k.table == t ensures OpAt(ops, k).None? {
      OpAtFinds(ops, k);
    }
  }

  /** Once every changed table is planned, the batch is the whole apply. */
  lemma BatchApplies(schema: Schema, rows: LocalRows, changes: Changes, replacement: bool, ops: seq<Op>)
    requires PlansTables(schema, rows, changes, replacement, ops, changes.Keys)
    ensures ExecAll(rows, ops).Some?
    ensures IsApplied(schema, rows, changes, replacement, ExecAll(rows, ops).value)
  {
    hide Resolve, Outcome;
    BatchOutcome(rows, ops);
    forall k: Key ensures Lookup(ExecAll(rows, ops).value, k) == ResolvedAt(schema, rows, changes, replacement, k) {
      OpAtFinds(ops, k);
    }
  }

  method PlanRemoteChanges(schema: Schema, rows: LocalRows, changes: Changes, replacement: bool) returns (ops: Option<seq<Op>>)
    requires ValidSchema(schema) && KeyedById(rows)
    ensures ops.None? <==> ApplyFails(schema, rows, changes)
    ensures ops.Some? ==> PlansTables(schema, rows, changes, replacement, ops.value, changes.Keys)
  {
    hide TableFails, PlansTables, Plans, Settles, ValidTable, KeyedById;
    var planned: seq<Op> := [];
    var todo := changes.Keys;
    PlansNoTable(schema, rows, changes, replacement);
    assert changes.Keys - todo == {};
    while todo != {}
      invariant todo <= changes.Keys
      invariant PlansTables(schema, rows, changes, replacement, planned, changes.Keys - todo)
      invariant forall t :: t in changes && t !in todo && t in schema ==>
                  !schema[t].localOnly && !TableFails(schema[t], rows, changes[t])
      decreases |todo|
    {
      var t :| t in todo;
      assert changes.Keys - (todo - {t}) == (changes.Keys - todo) + {t};
      if t !in schema {
        PlanTableSkip(schema, rows, changes, replacement, planned, changes.Keys - todo, t);
      } else {
        if schema[t].localOnly { return None; }
        var more := PlanTable(schema[t], rows, changes[t], replacement);
        if more.None? { return None; }
        ghost var job := Job(schema[t], rows, changes[t], replacement);
        ghost var handled :| Plans(job, more.value, handled) && Settles(job, handled);
        PlanTableMore(schema, rows, changes, replacement, planned, changes.Keys - todo, t, more.value, handled);
        planned := planned + more.value;
      }
      todo := todo - {t};
    }
    assert changes.Keys - {} == changes.Keys;
    ops := Some(planned);
  }

  lemma PlansNoTable(schema: Schema, rows: LocalRows, changes: Changes, replacement: bool)
    ensures PlansTables(schema, rows, changes, replacement, [], {})
  {
  }

  /**
   * One atomic batch: every stored row becomes what the change set makes of
   * it, or the apply throws and no row changes.
   */
  method ApplyRemoteChanges(database: LocalDatabase, changes: Changes, replacement: bool) returns (ok: bool)
    requires database.Valid()
    modifies database`rows
    ensures database.Valid()
    ensures ok <==> !ApplyFails(database.schema, old(database.rows), changes)
    ensures ok ==> IsApplied(database.schema, old(database.rows), changes, replacement, database.rows)
    ensures !ok ==> database.rows == old(database.rows)
  {
    hide PlansTables, ApplyFails, IsApplied, RawOk, ValidTable;
    ghost var before := database.rows;
    var ops := PlanRemoteChanges(database.schema, database.rows, changes, replacement);
    if ops.None? { return false; }
    BatchApplies(database.schema, before, changes, replacement, ops.value);
    AppliedRowsOk(database.schema, before, changes, replacement, ExecAll(before, ops.value).value);
    var committed := database.Batch(ops.value);
    ok := true;
  }

  lemma ResolvedOk(table: Table, local: Option<Raw>, s: Statement, id: string, replacement: bool)
    requires ValidTable(table)
    requires local.Some? ==> RawOk(local.value, table) && local.value.id == id && id != ""
    requires s.Upserts? ==> id != ""
    ensures var r := Resolve(table, local, s, id, replacement);
            r.Some? ==> RawOk(r.value, table) && r.value.id == id && id != ""
  {
    if s.Upserts? && SanitizeColumns(s.row, table.columns).Some? {
      SanitizeIdempotent(s.row, table);
      if local.Some? { MergedWellTyped(local.value, s.row, table); }
    }
  }

  lemma AppliedRowsOk(schema: Schema, rows: LocalRows, changes: Changes, replacement: bool, after: LocalRows)
    requires ValidSchema(schema) && RowsOk(rows, schema) && !ApplyFails(schema, rows, changes)
    requires IsApplied(schema, rows, changes, replacement, after)
    ensures RowsOk(after, schema)
  {
    hide RawOk, Resolve, StatementFor, ValidTable, DecodesBlobs;
    forall k | k in after ensures k.table in schema && after[k].id == k.id && k.id != "" && RawOk(after[k], schema[k.table]) {
      assert Lookup(after, k) == ResolvedAt(schema, rows, changes, replacement, k);
      if k.table in changes && k.table in schema {
        var tc := changes[k.table];
        NamedIsStated(tc, k.id);
        ResolvedOk(schema[k.table], Lookup(rows, k), StatementFor(tc, k.id), k.id, replacement);
      }
    }
  }

  // ----- when an apply throws -----

  /** A stated row that misses a column of its table throws: nothing fills it in. */
  lemma SparseRowThrows(schema: Schema, rows: LocalRows, changes: Changes, t: string, id: string, column: Column)
    requires t in changes && t in schema && column in schema[t].columns
    requires StatementFor(changes[t], id).Upserts? && column.name !in StatementFor(changes[t], id).row
    ensures ApplyFails(schema, rows, changes)
  {
    hide StatementFor;
    assert StatesFailing(schema[t], rows, changes[t], id);
  }

  /** So does a stated number no double holds exactly, unless the row lies under a tombstone. */
  lemma UnsafeRowThrows(schema: Schema, rows: LocalRows, changes: Changes, t: string, id: string, column: Column)
    requires ValidSchema(schema) && t in changes && t in schema && column in schema[t].columns && StatementFor(changes[t], id).Upserts?
    requires SanitizeValue(Get(StatementFor(changes[t], id).row, column.name), column).None?
    requires var local := Lookup(rows, Key(t, id)); local.Some? ==> local.value.status != Deleted
    ensures ApplyFails(schema, rows, changes)
  {
    SanitizesIff(StatementFor(changes[t], id).row, schema[t].columns);
    hide StatementFor, SanitizeColumns;
    assert StatesFailing(schema[t], rows, changes[t], id);
  }

  /** A blob that is neither absent, null nor decodable throws, wherever it stands. */
  lemma BadBlobThrows(schema: Schema, rows: LocalRows, changes: Changes, t: string, row: DirtyRaw, column: Column)
    requires t in changes && t in schema && column in schema[t].columns && column.ctype == BlobColumn
    requires row in changes[t].created + changes[t].updated
    requires var v := Get(row, column.name); v != Undefined && v != Null && !v.Bytes?
    ensures ApplyFails(schema, rows, changes)
  {
    assert !DecodesBlobs(row, schema[t]);
  }

  /** Whole, safe and decodable rows under usable ids never throw. */
  lemma WholeRowsApply(schema: Schema, rows: LocalRows, changes: Changes)
    requires ValidSchema(schema)
    requires forall t :: t in changes && t in schema ==> !schema[t].localOnly
    requires forall t: string, row: DirtyRaw, column: Column :: t in changes && t in schema && row in changes[t].created + changes[t].updated && column in schema[t].columns ==>
               && column.name in row && SanitizeValue(row[column.name], column).Some?
               && (column.ctype == BlobColumn ==> row[column.name] == Undefined || row[column.name] == Null || row[column.name].Bytes?)
    requires forall t: string, row: DirtyRaw :: t in changes && t in schema && row in changes[t].created + changes[t].updated ==> HasUsableId(row)
    ensures !ApplyFails(schema, rows, changes)
  {
    forall t | t in changes && t in schema ensures !TableFails(schema[t], rows, changes[t]) {
      forall id ensures !StatesFailing(schema[t], rows, changes[t], id) {
        LastRowFinds(changes[t].created + changes[t].updated, id);
        var s := StatementFor(changes[t], id);
        hide StatementFor, SanitizeValue;
        if s.Upserts? { SanitizesIff(s.row, schema[t].columns); }
      }
    }
  }

  // ----- what an apply keeps -----

  lemma ResolveTwice(table: Table, local: Option<Raw>, s: Statement, id: string, replacement: bool)
    requires s.Upserts? ==> !RowFails(table, local, s.row)
    ensures var once := Resolve(table, local, s, id, replacement);
            && Resolve(table, once, s, id, replacement) == once
            && (s.Upserts? ==> !RowFails(table, once, s.row))
  {
    if s.Upserts? && SanitizeColumns(s.row, table.columns).Some? {
      if local.Some? {
        MergeIdempotent(local.value, s.row, table);
      } else {
        var base := SanitizeColumns(s.row, table.columns).value;
        assert Overlay(base, base, []) == base;
      }
    }
  }

  /** Applying the same change set twice is applying it once, in both modes, and it cannot fail the second time. */
  lemma ApplyIdempotent(schema: Schema, rows: LocalRows, changes: Changes, replacement: bool, once: LocalRows, twice: LocalRows)
    requires ValidSchema(schema)
    requires !ApplyFails(schema, rows, changes) && IsApplied(schema, rows, changes, replacement, once)
    requires IsApplied(schema, once, changes, replacement, twice)
    ensures twice == once && !ApplyFails(schema, once, changes)
  {
    hide Resolve, StatementFor, DecodesBlobs, RowFails, ValidTable;
    forall k: Key ensures Lookup(twice, k) == Lookup(once, k) {
      ResolvedTwice(schema, rows, changes, replacement, once, k);
      assert Lookup(twice, k) == ResolvedAt(schema, once, changes, replacement, k);
    }
    SameLookupsSameMap(twice, once);
    forall t | t in changes && t in schema ensures !schema[t].localOnly && !TableFails(schema[t], once, changes[t]) {
      assert !TableFails(schema[t], rows, changes[t]);
      forall id ensures !StatesFailing(schema[t], once, changes[t], id) {
        assert !StatesFailing(schema[t], rows, changes[t], id);
        ResolvedTwice(schema, rows, changes, replacement, once, Key(t, id));
      }
    }
  }

  lemma ResolvedTwice(schema: Schema, rows: LocalRows, changes: Changes, replacement: bool, once: LocalRows, k: Key)
    requires ValidSchema(schema)
    requires !ApplyFails(schema, rows, changes) && IsApplied(schema, rows, changes, replacement, once)
    ensures ResolvedAt(schema, once, changes, replacement, k) == Lookup(once, k)
    ensures k.table in changes && k.table in schema ==>
              var s := StatementFor(changes[k.table], k.id);
              s.Upserts? ==> !RowFails(schema[k.table], Lookup(once, k), s.row)
  {
    hide Resolve, StatementFor, DecodesBlobs, RowFails, ValidTable;
    if k.table in changes && k.table in schema {
      assert !StatesFailing(schema[k.table], rows, changes[k.table], k.id);
      assert k == Key(schema[k.table].name, k.id);
      ResolveTwice(schema[k.table], Lookup(rows, k), StatementFor(changes[k.table], k.id), k.id, replacement);
    }
  }

  lemma SameLookupsSameMap<K, V>(a: map<K, V>, b: map<K, V>)
    requires forall k :: Lookup(a, k) == Lookup(b, k)
    ensures a == b
  {
    forall k | k in a ensures k in b && a[k] == b[k] {
      assert Lookup(a, k) == Lookup(b, k);
    }
    forall k | k in b ensures k in a {
      assert Lookup(a, k) == Lookup(b, k);
    }
  }

  /**
   * What local work survives an apply: a tombstone and a dirty row go only
   * by a remote deletion; a dirty row keeps its status, its list and every
   * listed column.
   */
  lemma ApplyKeepsLocalWork(schema: Schema, rows: LocalRows, changes: Changes, replacement: bool, after: LocalRows, k: Key)
    requires ValidSchema(schema) && RowsOk(rows, schema) && !ApplyFails(schema, rows, changes)
    requires IsApplied(schema, rows, changes, replacement, after)
    requires k in rows && IsDirty(rows[k]) && k.table in schema
    ensures k !in after <==> k.table in changes && StatementFor(changes[k.table], k.id) == Deletes
    ensures k in after && rows[k].status == Deleted ==> after[k] == rows[k]
    ensures k in after ==> after[k].status == rows[k].status && after[k].changed == rows[k].changed
    ensures k in after ==> forall c :: c in ChangedSet(rows[k]) ==> ValueOf(after[k].values, c) == ValueOf(rows[k].values, c)
  {
    hide StatementFor, SanitizeColumns, Overlay, ChangedColumns, RawOk, DecodesBlobs;
    assert Lookup(after, k) == ResolvedAt(schema, rows, changes, replacement, k);
    if k.table in changes {
      var s := StatementFor(changes[k.table], k.id);
      if s.Upserts? && Merged(rows[k], s.row, schema[k.table]).Some? {
        MergeKeepsLocalEdits(rows[k], s.row, schema[k.table]);
      }
    }
  }
}
