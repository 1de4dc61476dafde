/**
 * The pieces of a push (packages/server/src/engine.ts): how a request is split
 * into rows, deletions and rejections, and what a sequence of store writes
 * with gcs in between leaves at every key.
 */
module PushParts {
  import opened RawRecords
  import opened MemoryStores
  import opened SyncTypes
  import opened SyncContracts
  import opened Rowsets
  import opened Cursors

  /** One table's share of a push request. */
  datatype Parsed = Parsed(table: string, rows: seq<WireRow>, deletes: seq<string>, allIds: seq<string>)

  // ----- filtering -----

  function Dropped(p: Parsed, drop: set<string>): Parsed {
    p.(rows := DropRows(p.rows, drop), deletes := DropIds(p.deletes, drop))
  }

  // ----- the partition of a request -----

  /**
   * The rows, the deletions and the rejected ids split what the change set
   * names; rows and deletions say what the change set says.
   */
  ghost predicate PartOf(p: Parsed, rejected: set<string>, tc: TableChanges) {
    && DistinctIds(p.rows)
    && (forall row :: row in p.rows ==> StatementFor(tc, IdOf(row)) == Upserts(row))
    && (forall id :: id in p.deletes ==> StatementFor(tc, id) == Deletes)
    && (forall id :: StatementFor(tc, id) != Silent <==> id in RowIds(p.rows) || id in p.deletes || id in rejected)
    && rejected !! RowIds(p.rows)
    && rejected !! Elements(p.deletes)
    && RowIds(p.rows) <= Elements(p.allIds)
    && Elements(p.deletes) <= Elements(p.allIds)
    && (forall id :: id in p.allIds ==> StatementFor(tc, id) != Silent)
  }

  lemma DroppedKeepsPart(p: Parsed, rejected: set<string>, tc: TableChanges, drop: set<string>)
    requires PartOf(p, rejected, tc)
    requires forall id :: id in drop ==> StatementFor(tc, id) != Silent
    ensures PartOf(Dropped(p, drop), rejected + drop, tc)
  {
    DropRowsKeeps(p.rows, drop);
    DropIdsKeeps(p.deletes, drop);
  }

  ghost predicate Partitioned(parsed: seq<Parsed>, tables: seq<string>, rejected: Rejections, changes: Changes) {
    && |parsed| == |tables|
    && (forall t :: t in rejected ==> t in tables)
    && forall j :: 0 <= j < |tables| ==>
         && parsed[j].table == tables[j]
         && PartOf(parsed[j], RejectedIn(rejected, tables[j]), ChangesFor(changes, tables[j]))
  }

  function Reject(rejected: Rejections, table: string, ids: seq<string>): Rejections {
    rejected[table := (if table in rejected then rejected[table] else []) + ids]
  }

  lemma RejectAdds(rejected: Rejections, table: string, ids: seq<string>)
    ensures RejectedIn(Reject(rejected, table, ids), table) == RejectedIn(rejected, table) + Elements(ids)
    ensures forall t :: t != table ==> RejectedIn(Reject(rejected, table, ids), t) == RejectedIn(rejected, t)
  {
  }

  lemma RejectKeepsPartition(parsed: seq<Parsed>, tables: seq<string>, rejected: Rejections, changes: Changes,
                             i: nat, ids: seq<string>, p: Parsed)
    requires DistinctTables(tables) && Partitioned(parsed, tables, rejected, changes) && i < |tables|
    requires forall id :: id in ids ==> StatementFor(ChangesFor(changes, tables[i]), id) != Silent
    requires p.table == tables[i]
    requires PartOf(p, RejectedIn(rejected, tables[i]) + Elements(ids), ChangesFor(changes, tables[i]))
    ensures Partitioned(parsed[i := p], tables, Reject(rejected, tables[i], ids), changes)
  {
    RejectAdds(rejected, tables[i], ids);
  }

  // ----- parsing -----

  method ParseTable(table: string, tc: TableChanges) returns (p: Option<Parsed>)
    ensures p.None? <==> !AllUsable(tc)
    ensures p.Some? ==> p.value.table == table && PartOf(p.value, {}, tc)
    ensures p.Some? ==> forall id :: StatementFor(tc, id) != Silent ==> id in p.value.allIds
  {
    var stated := LastById(tc.created + tc.updated);
    if stated.None? { return None; }
    var deletes := Dedup(tc.deleted);
    var rows := DropRows(stated.value, Elements(deletes));
    var ids := IdsOf(rows);
    DedupKeeps(tc.deleted);
    DropRowsKeeps(stated.value, Elements(deletes));
    p := Some(Parsed(table, rows, deletes, ids + deletes));
    ParsedIsPart(p.value, tc, stated.value);
  }

  lemma ParsedIsPart(p: Parsed, tc: TableChanges, stated: seq<WireRow>)
    requires forall row :: row in stated <==> LastRow(tc.created + tc.updated, IdOf(row)) == Some(row)
    requires forall id :: LastRow(tc.created + tc.updated, id).Some? ==> id in RowIds(stated)
    requires DistinctIds(p.rows)
    requires forall row :: row in p.rows <==> row in stated && IdOf(row) !in Elements(p.deletes)
    requires Elements(p.deletes) == Elements(tc.deleted)
    requires Elements(p.allIds) == RowIds(p.rows) + Elements(p.deletes)
    ensures PartOf(p, {}, tc)
    ensures forall id :: StatementFor(tc, id) != Silent ==> id in p.allIds
  {
    hide LastRow;
    assert forall id :: id in p.deletes <==> id in Elements(p.deletes);
    assert forall id :: id in tc.deleted <==> id in Elements(tc.deleted);
    assert forall id :: id in p.allIds <==> id in Elements(p.allIds);
    forall id | id in RowIds(stated) && id !in p.deletes ensures id in RowIds(p.rows) {
      var row :| row in stated && IdOf(row) == id;
      assert row in p.rows;
    }
  }

  // ----- what writes leave in the store -----

  /** What has been applied so far, by key. */
  type Said = map<RowKey, Statement>

  function SaidOf(said: Said, k: RowKey): Statement {
    if k in said then said[k] else Silent
  }

  ghost predicate Wrote(before: Db, after: Db, said: Said) {
    && before.rev <= after.rev && before.floor <= after.floor <= after.rev
    && forall k: RowKey :: EntryAfter(Lookup(before.rows, k), Lookup(after.rows, k), SaidOf(said, k), before.rev, after.floor)
  }

  lemma WroteNothing(db: Db)
    requires ValidDb(db)
    ensures Wrote(db, db, map[])
  {
  }

  lemma WroteThenGc(before: Db, mid: Db, after: Db, said: Said)
    requires ValidDb(mid) && Wrote(before, mid, said) && GcOnly(mid, after)
    ensures Wrote(before, after, said)
  {
    forall k: RowKey ensures EntryAfter(Lookup(before.rows, k), Lookup(after.rows, k), SaidOf(said, k), before.rev, after.floor) {
      GcOnlyEntry(mid, after, k);
    }
  }

  lemma GcThenWrote(before: Db, mid: Db, after: Db, said: Said)
    requires ValidDb(before) && GcOnly(before, mid) && Wrote(mid, after, said)
    ensures Wrote(before, after, said)
  {
    forall k: RowKey ensures EntryAfter(Lookup(before.rows, k), Lookup(after.rows, k), SaidOf(said, k), before.rev, after.floor) {
      GcOnlyEntry(before, mid, k);
    }
  }

  function SaidRows(scope: string, table: string, rows: seq<WireRow>): Said {
    map k | k in KeysOf(scope, table, RowIds(rows)) :: Upserts(RowWithId(rows, k.key.id))
  }

  function KeysOf(scope: string, table: string, ids: set<string>): (keys: set<RowKey>)
    ensures forall k :: k in keys <==> k.scope == scope && k.key.table == table && k.key.id in ids
  {
    var keys := set id | id in ids :: RowKey(scope, Key(table, id));
    assert forall k: RowKey :: k.scope == scope && k.key.table == table ==> k == RowKey(scope, Key(table, k.key.id));
    keys
  }

  function RowWithId(rows: seq<WireRow>, id: string): DirtyRaw {
    if |rows| == 0 then map[]
    else if IdOf(rows[|rows| - 1]) == id then rows[|rows| - 1] else RowWithId(rows[..|rows| - 1], id)
  }

  lemma {:induction false} RowWithIdFinds(rows: seq<WireRow>, i: nat)
    requires DistinctIds(rows) && i < |rows|
    ensures RowWithId(rows, IdOf(rows[i])) == rows[i]
  {
    if i < |rows| - 1 {
      RowWithIdFinds(rows[..|rows| - 1], i);
    }
  }

  function SaidDeletes(scope: string, table: string, ids: seq<string>): Said {
    map k | k in KeysOf(scope, table, Elements(ids)) :: Deletes
  }

  /** No key of the table has been written yet, and none the rows name is dead. */
  ghost predicate Writable(db: Db, said: Said, scope: string, table: string, ids: set<string>) {
    forall id :: id in ids ==>
      var k := RowKey(scope, Key(table, id));
      k !in said && !(k in db.rows && db.rows[k].deleted)
  }

  ghost predicate RefusedBy(refused: set<string>, table: string, rows: seq<WireRow>, refuses: (string, WireRow) -> bool) {
    forall id :: id in refused <==> exists row :: row in rows && IdOf(row) == id && refuses(table, row)
  }

  /** What is said about the i-th row's key once the refused rows are dropped. */
  lemma SaidRowsAt(scope: string, table: string, rows: seq<WireRow>, refuses: (string, WireRow) -> bool,
                   refused: set<string>, i: nat)
    requires DistinctIds(rows) && RefusedBy(refused, table, rows, refuses) && i < |rows|
    ensures SaidOf(SaidRows(scope, table, DropRows(rows, refused)), RowKey(scope, Key(table, IdOf(rows[i]))))
              == if refuses(table, rows[i]) then Silent else Upserts(rows[i])
  {
    var kept := DropRows(rows, refused);
    var id := IdOf(rows[i]);
    DropRowsKeeps(rows, refused);
    if refuses(table, rows[i]) {
      assert id in refused;
      assert id !in RowIds(kept);
    } else {
      forall row | row in rows && IdOf(row) == id ensures row == rows[i] {
        var j :| 0 <= j < |rows| && rows[j] == row;
      }
      assert rows[i] in kept;
      var j :| 0 <= j < |kept| && kept[j] == rows[i];
      RowWithIdFinds(kept, j);
    }
  }

  lemma SaidRowsElsewhere(scope: string, table: string, rows: seq<WireRow>, refused: set<string>, k: RowKey)
    requires !(k.scope == scope && k.key.table == table && k.key.id in RowIds(rows))
    ensures k !in SaidRows(scope, table, DropRows(rows, refused))
  {
    DropRowsKeeps(rows, refused);
  }

  lemma PutEntry(before: Db, mid: Db, said: Said, scope: string, table: string, rows: seq<WireRow>,
                 refuses: (string, WireRow) -> bool, refused: set<string>, k: RowKey)
    requires Wrote(before, mid, said) && DistinctIds(rows)
    requires Writable(mid, said, scope, table, RowIds(rows))
    requires RefusedBy(refused, table, rows, refuses)
    ensures EntryAfter(Lookup(before.rows, k), Lookup(PutRows(mid.rows, scope, table, mid.rev + 1, rows, refuses), k),
                       SaidOf(said + SaidRows(scope, table, DropRows(rows, refused)), k), before.rev, mid.floor)
  {
    hide PutRows, SaidRows, DropRows, DistinctIds;
    assert EntryAfter(Lookup(before.rows, k), Lookup(mid.rows, k), SaidOf(said, k), before.rev, mid.floor);
    if k.scope == scope && k.key.table == table && k.key.id in RowIds(rows) {
      var i :| 0 <= i < |rows| && IdOf(rows[i]) == k.key.id;
      assert k == RowKey(scope, Key(table, IdOf(rows[i])));
      PutRowsAt(mid.rows, scope, table, mid.rev + 1, rows, refuses, i);
      SaidRowsAt(scope, table, rows, refuses, refused, i);
    } else {
      PutRowsElsewhere(mid.rows, scope, table, mid.rev + 1, rows, refuses, k);
      SaidRowsElsewhere(scope, table, rows, refused, k);
    }
  }

  lemma WroteThenPut(before: Db, mid: Db, said: Said, scope: string, table: string, rows: seq<WireRow>,
                     refuses: (string, WireRow) -> bool, refused: set<string>)
    requires ValidDb(mid) && Wrote(before, mid, said) && DistinctIds(rows)
    requires Writable(mid, said, scope, table, RowIds(rows))
    requires RefusedBy(refused, table, rows, refuses)
    ensures Wrote(before, Db(PutRows(mid.rows, scope, table, mid.rev + 1, rows, refuses), mid.rev + 1, mid.floor),
                  said + SaidRows(scope, table, DropRows(rows, refused)))
  {
    hide PutRows, SaidRows, DropRows, DistinctIds, Writable, RefusedBy, EntryAfter, Lookup;
    var after := Db(PutRows(mid.rows, scope, table, mid.rev + 1, rows, refuses), mid.rev + 1, mid.floor);
    var saying := said + SaidRows(scope, table, DropRows(rows, refused));
    forall k: RowKey ensures EntryAfter(Lookup(before.rows, k), Lookup(after.rows, k), SaidOf(saying, k), before.rev, after.floor) {
      PutEntry(before, mid, said, scope, table, rows, refuses, refused, k);
    }
  }

  lemma KillEntry(before: Db, mid: Db, said: Said, scope: string, table: string, ids: seq<string>, k: RowKey)
    requires ValidDb(mid) && Wrote(before, mid, said)
    requires forall id :: id in ids ==> RowKey(scope, Key(table, id)) !in said
    ensures EntryAfter(Lookup(before.rows, k), Lookup(KillRows(mid.rows, scope, table, mid.rev + 1, ids), k),
                       SaidOf(said + SaidDeletes(scope, table, ids), k), before.rev, mid.floor)
  {
    hide KillRows;
    KillRowsLookup(mid.rows, scope, table, mid.rev + 1, ids);
    assert EntryAfter(Lookup(before.rows, k), Lookup(mid.rows, k), SaidOf(said, k), before.rev, mid.floor);
    assert k in SaidDeletes(scope, table, ids) <==> k.scope == scope && k.key.table == table && k.key.id in ids;
    if k in SaidDeletes(scope, table, ids) { assert k == RowKey(scope, Key(table, k.key.id)); }
  }

  lemma WroteThenKill(before: Db, mid: Db, said: Said, scope: string, table: string, ids: seq<string>)
    requires ValidDb(mid) && Wrote(before, mid, said)
    requires forall id :: id in ids ==> RowKey(scope, Key(table, id)) !in said
    ensures Wrote(before, Db(KillRows(mid.rows, scope, table, mid.rev + 1, ids), mid.rev + 1, mid.floor),
                  said + SaidDeletes(scope, table, ids))
  {
    hide KillRows, SaidDeletes, EntryAfter, Lookup;
    var after := Db(KillRows(mid.rows, scope, table, mid.rev + 1, ids), mid.rev + 1, mid.floor);
    var saying := said + SaidDeletes(scope, table, ids);
    forall k: RowKey ensures EntryAfter(Lookup(before.rows, k), Lookup(after.rows, k), SaidOf(saying, k), before.rev, after.floor) {
      KillEntry(before, mid, said, scope, table, ids, k);
    }
  }

  // ----- which keys have been written -----

  ghost predicate RowOf(kept: seq<Parsed>, n: nat, key: Key)
    requires n <= |kept|
  {
    exists j :: 0 <= j < n && kept[j].table == key.table && key.id in RowIds(kept[j].rows)
  }

  ghost predicate DeleteOf(kept: seq<Parsed>, n: nat, key: Key)
    requires n <= |kept|
  {
    exists j :: 0 <= j < n && kept[j].table == key.table && key.id in kept[j].deletes
  }

  /** What has been said so far: the rows of the first tables, then the deletions of the first tables. */
  ghost predicate SaysFirst(said: Said, scope: string, kept: seq<Parsed>, rows: nat, deletes: nat, changes: Changes)
    requires rows <= |kept| && deletes <= |kept|
  {
    && (forall k: RowKey :: k in said <==> k.scope == scope && (RowOf(kept, rows, k.key) || DeleteOf(kept, deletes, k.key)))
    && (forall k: RowKey :: k in said ==> said[k] == StatementFor(ChangesFor(changes, k.key.table), k.key.id))
  }

  ghost predicate SharesTables(kept: seq<Parsed>, tables: seq<string>) {
    |kept| == |tables| && DistinctTables(tables) && forall j :: 0 <= j < |tables| ==> kept[j].table == tables[j]
  }

  lemma SaysMoreRows(said: Said, scope: string, kept: seq<Parsed>, tables: seq<string>, i: nat, changes: Changes, p: Parsed)
    requires SharesTables(kept, tables) && i < |kept| && p.table == tables[i]
    requires SaysFirst(said, scope, kept, i, 0, changes)
    requires DistinctIds(p.rows)
    requires forall row :: row in p.rows ==> StatementFor(ChangesFor(changes, p.table), IdOf(row)) == Upserts(row)
    ensures SaysFirst(said + SaidRows(scope, p.table, p.rows), scope, kept[i := p], i + 1, 0, changes)
  {
    var more := SaidRows(scope, p.table, p.rows);
    var kept' := kept[i := p];
    forall k: RowKey
      ensures k in more <==> k.scope == scope && k.key.table == p.table && k.key.id in RowIds(p.rows)
      ensures k in more ==> more[k] == StatementFor(ChangesFor(changes, p.table), k.key.id)
    {
      if k in more {
        var n :| 0 <= n < |p.rows| && k == RowKey(scope, Key(p.table, IdOf(p.rows[n])));
        RowWithIdFinds(p.rows, n);
      }
    }
    forall key: Key ensures RowOf(kept', i + 1, key) <==> RowOf(kept, i, key) || (key.table == p.table && key.id in RowIds(p.rows)) {
      if RowOf(kept, i, key) {
        var j :| 0 <= j < i && kept[j].table == key.table && key.id in RowIds(kept[j].rows);
        assert kept'[j] == kept[j];
      }
      if key.table == p.table && key.id in RowIds(p.rows) {
        assert kept'[i] == p;
      }
    }
  }

  lemma SaysMoreDeletes(said: Said, scope: string, kept: seq<Parsed>, tables: seq<string>, i: nat, changes: Changes)
    requires SharesTables(kept, tables) && i < |kept|
    requires SaysFirst(said, scope, kept, |kept|, i, changes)
    requires forall id :: id in kept[i].deletes ==> StatementFor(ChangesFor(changes, kept[i].table), id) == Deletes
    ensures SaysFirst(said + SaidDeletes(scope, kept[i].table, kept[i].deletes), scope, kept, |kept|, i + 1, changes)
  {
    forall key: Key ensures DeleteOf(kept, i + 1, key) <==> DeleteOf(kept, i, key) || (key.table == kept[i].table && key.id in kept[i].deletes) {
      if DeleteOf(kept, i, key) {
        var j :| 0 <= j < i && kept[j].table == key.table && key.id in kept[j].deletes;
      }
    }
  }

  /** Rows of a later table are untouched so far. */
  lemma LaterTableUnsaid(said: Said, scope: string, kept: seq<Parsed>, tables: seq<string>, rows: nat, deletes: nat,
                         changes: Changes, i: nat, id: string)
    requires SharesTables(kept, tables) && rows <= |kept| && deletes <= i < |kept|
    requires SaysFirst(said, scope, kept, rows, deletes, changes)
    requires rows <= i || id !in RowIds(kept[i].rows)
    ensures RowKey(scope, Key(tables[i], id)) !in said
  {
    assert !RowOf(kept, rows, Key(tables[i], id));
    assert !DeleteOf(kept, deletes, Key(tables[i], id));
  }

  lemma TableDecides(kept: seq<Parsed>, tables: seq<string>, j: nat, id: string)
    requires SharesTables(kept, tables) && j < |tables|
    ensures RowOf(kept, |kept|, Key(tables[j], id)) <==> id in RowIds(kept[j].rows)
    ensures DeleteOf(kept, |kept|, Key(tables[j], id)) <==> id in kept[j].deletes
  {
    hide RowIds;
  }

  lemma PartDecides(p: Parsed, rejected: set<string>, tc: TableChanges, id: string)
    requires PartOf(p, rejected, tc)
    ensures id in rejected ==> id !in RowIds(p.rows) && id !in p.deletes
    ensures id !in rejected ==> (StatementFor(tc, id) != Silent <==> id in RowIds(p.rows) || id in p.deletes)
  {
    hide StatementFor, DistinctIds;
    assert id in p.deletes <==> id in Elements(p.deletes);
  }

  /** At the end, what was said is exactly what the push says outside its rejections. */
  lemma SaidIsAccepted(said: Said, scope: string, kept: seq<Parsed>, tables: seq<string>, changes: Changes,
                       rejected: Rejections, k: RowKey)
    requires SharesTables(kept, tables) && Partitioned(kept, tables, rejected, changes)
    requires SaysFirst(said, scope, kept, |kept|, |kept|, changes)
    ensures SaidOf(said, k) == AcceptedStatement(tables, scope, changes, rejected, k)
  {
    hide StatementFor, PartOf, RowOf, DeleteOf;
    if k.scope == scope && k.key.table in tables {
      var j :| 0 <= j < |tables| && tables[j] == k.key.table;
      assert k.key == Key(tables[j], k.key.id);
      TableDecides(kept, tables, j, k.key.id);
      PartDecides(kept[j], RejectedIn(rejected, tables[j]), ChangesFor(changes, tables[j]), k.key.id);
    } else {
      UnconfiguredUnsaid(kept, tables, k.key);
    }
  }

  lemma UnconfiguredUnsaid(kept: seq<Parsed>, tables: seq<string>, key: Key)
    requires SharesTables(kept, tables)
    ensures key.table !in tables ==> !RowOf(kept, |kept|, key) && !DeleteOf(kept, |kept|, key)
  {
  }

  // ----- replies -----

  function ChangeWithId(stored: seq<StoredChange>, id: string): Option<StoredChange> {
    if |stored| == 0 then None
    else if stored[|stored| - 1].id == id then Some(stored[|stored| - 1])
    else ChangeWithId(stored[..|stored| - 1], id)
  }

  function ListedStatement(stored: seq<StoredChange>, exclude: set<string>, id: string): Statement {
    if id in exclude then Silent
    else match ChangeWithId(stored, id)
      case None => Silent
      case Some(c) => if c.row.None? then Deletes else Upserts(c.row.value)
  }

  predicate ListsOnce(stored: seq<StoredChange>) {
    && (forall i, j :: 0 <= i < j < |stored| ==> stored[i].id != stored[j].id)
    && forall c :: c in stored && c.row.Some? ==> IdOf(c.row.value) == c.id
  }

  lemma {:induction false} ChangeWithIdFinds(stored: seq<StoredChange>, id: string)
    ensures ChangeWithId(stored, id).Some? ==> ChangeWithId(stored, id).value in stored && ChangeWithId(stored, id).value.id == id
    ensures ChangeWithId(stored, id).None? ==> forall c :: c in stored ==> c.id != id
  {
    if |stored| > 0 {
      ChangeWithIdFinds(stored[..|stored| - 1], id);
      assert stored == stored[..|stored| - 1] + [stored[|stored| - 1]];
    }
  }

  /** A delivery under construction: it says exactly what the listing's first part says. */
  ghost predicate Delivers(tc: TableChanges, stored: seq<StoredChange>, exclude: set<string>) {
    && WellFormedDelivery(tc)
    && forall id :: StatementFor(tc, id) == ListedStatement(stored, exclude, id)
  }

  lemma DeliversSkip(tc: TableChanges, stored: seq<StoredChange>, exclude: set<string>, c: StoredChange)
    requires Delivers(tc, stored, exclude) && c.id in exclude
    ensures Delivers(tc, stored + [c], exclude)
  {
    assert (stored + [c])[..|stored|] == stored;
  }

  lemma SilentMeansUnnamed(tc: TableChanges, id: string)
    requires StatementFor(tc, id) == Silent
    ensures id !in tc.deleted
    ensures forall row :: row in tc.created + tc.updated ==> Get(row, "id") != Str(id)
  {
    LastRowFinds(tc.created + tc.updated, id);
  }

  lemma StatementAfterDelete(tc: TableChanges, deleted: string, id: string)
    ensures StatementFor(tc.(deleted := tc.deleted + [deleted]), id) == if id == deleted then Deletes else StatementFor(tc, id)
  {
    assert tc.(deleted := tc.deleted + [deleted]).created + tc.updated == tc.created + tc.updated;
  }

  lemma StatementAfterRow(tc: TableChanges, row: WireRow, id: string)
    ensures StatementFor(tc.(updated := tc.updated + [row]), id)
              == if IdOf(row) == id && id !in tc.deleted then Upserts(row) else StatementFor(tc, id)
  {
    assert tc.created + (tc.updated + [row]) == (tc.created + tc.updated) + [row];
    LastRowAppend(tc.created + tc.updated, row, id);
  }

  /** The next listed change names an id the listing has not named. */
  lemma NextIsNew(stored: seq<StoredChange>, c: StoredChange)
    requires ListsOnce(stored + [c])
    ensures ChangeWithId(stored, c.id).None?
    ensures c.row.Some? ==> IdOf(c.row.value) == c.id
    ensures forall exclude, id :: ListedStatement(stored + [c], exclude, id)
              == if id == c.id then (if id in exclude then Silent else if c.row.None? then Deletes else Upserts(c.row.value))
                 else ListedStatement(stored, exclude, id)
  {
    assert (stored + [c])[..|stored|] == stored;
    assert c in stored + [c];
    ChangeWithIdFinds(stored, c.id);
    forall other | other in stored ensures other.id != c.id {
      var i :| 0 <= i < |stored| && stored[i] == other;
      assert (stored + [c])[i] == other && (stored + [c])[|stored|] == c;
    }
  }

  lemma DeliversDelete(tc: TableChanges, stored: seq<StoredChange>, exclude: set<string>, c: StoredChange)
    requires Delivers(tc, stored, exclude) && c.id !in exclude && c.row.None?
    requires ListsOnce(stored + [c])
    ensures Delivers(tc.(deleted := tc.deleted + [c.id]), stored + [c], exclude)
  {
    hide StatementFor, ListedStatement, ListsOnce;
    NextIsNew(stored, c);
    UnlistedIsSilent(tc, stored, exclude, c.id);
    var tc' := tc.(deleted := tc.deleted + [c.id]);
    forall row | row in tc'.created + tc'.updated ensures HasUsableId(row) && Get(row, "id").s !in tc'.deleted {
      assert row in tc.created + tc.updated;
    }
    forall id ensures StatementFor(tc', id) == ListedStatement(stored + [c], exclude, id) {
      StatementAfterDelete(tc, c.id, id);
      assert StatementFor(tc, id) == ListedStatement(stored, exclude, id);
    }
  }

  lemma UnlistedIsSilent(tc: TableChanges, stored: seq<StoredChange>, exclude: set<string>, id: string)
    requires Delivers(tc, stored, exclude) && ChangeWithId(stored, id).None?
    ensures StatementFor(tc, id) == Silent && id !in tc.deleted
    ensures forall row :: row in tc.created + tc.updated ==> Get(row, "id") != Str(id)
  {
    assert StatementFor(tc, id) == ListedStatement(stored, exclude, id);
    SilentMeansUnnamed(tc, id);
  }

  lemma DeliversRow(tc: TableChanges, stored: seq<StoredChange>, exclude: set<string>, c: StoredChange)
    requires Delivers(tc, stored, exclude) && c.id !in exclude && c.row.Some?
    requires ListsOnce(stored + [c])
    ensures Delivers(tc.(updated := tc.updated + [c.row.value]), stored + [c], exclude)
  {
    hide StatementFor, ListedStatement, ListsOnce;
    var row := c.row.value;
    NextIsNew(stored, c);
    UnlistedIsSilent(tc, stored, exclude, c.id);
    var tc' := tc.(updated := tc.updated + [row]);
    assert tc'.created + tc'.updated == (tc.created + tc.updated) + [row];
    forall id ensures StatementFor(tc', id) == ListedStatement(stored + [c], exclude, id) {
      StatementAfterRow(tc, row, id);
      assert StatementFor(tc, id) == ListedStatement(stored, exclude, id);
    }
  }

  /** One table of toChanges: every listed change outside the exclusion, once. */
  method ToTableChanges(stored: seq<StoredChange>, exclude: set<string>) returns (tc: TableChanges)
    requires ListsOnce(stored)
    ensures Delivers(tc, stored, exclude)
  {
    tc := NO_CHANGES;
    var i := 0;
    while i < |stored|
      invariant 0 <= i <= |stored|
      invariant Delivers(tc, stored[..i], exclude)
    {
      var change := stored[i];
      assert stored[..i + 1] == stored[..i] + [change];
      assert ListsOnce(stored[..i + 1]);
      if change.id in exclude {
        DeliversSkip(tc, stored[..i], exclude, change);
      } else if change.row.None? {
        DeliversDelete(tc, stored[..i], exclude, change);
        tc := tc.(deleted := tc.deleted + [change.id]);
      } else {
        DeliversRow(tc, stored[..i], exclude, change);
        tc := tc.(updated := tc.updated + [change.row.value]);
      }
      i := i + 1;
    }
    assert stored[..i] == stored;
  }

  method ToChanges(byTable: map<string, seq<StoredChange>>, exclude: map<string, set<string>>) returns (changes: Changes)
    requires forall t :: t in byTable ==> ListsOnce(byTable[t])
    ensures changes.Keys == byTable.Keys
    ensures forall t :: t in byTable ==> Delivers(changes[t], byTable[t], if t in exclude then exclude[t] else {})
  {
    hide Delivers, ListsOnce;
    changes := map[];
    var todo := byTable.Keys;
    while todo != {}
      invariant todo <= byTable.Keys && changes.Keys == byTable.Keys - todo
      invariant forall t :: t in changes ==> Delivers(changes[t], byTable[t], if t in exclude then exclude[t] else {})
      decreases |todo|
    {
      var t :| t in todo;
      todo := todo - {t};
      var tc := ToTableChanges(byTable[t], if t in exclude then exclude[t] else {});
      changes := changes[t := tc];
    }
  }

  /** A listing of the window says of each id what the window holds. */
  lemma WindowListed(stored: seq<StoredChange>, db: Db, scope: string, table: string, since: nat, exclude: set<string>, id: string)
    requires ListsWindow(stored, db, scope, table, since)
    ensures ListedStatement(stored, exclude, id) == if id in exclude then Silent else WindowStatement(db, scope, Key(table, id), since)
  {
    ChangeWithIdFinds(stored, id);
    var k := RowKey(scope, Key(table, id));
    assert id in Window(db, scope, table, since) <==> k in db.rows && db.rows[k].rev > since by {
      assert forall k' :: k' in db.rows && k'.scope == scope && k'.key.table == table && k'.key.id == id ==> k' == k;
    }
    assert id in ChangeIds(stored) <==> ChangeWithId(stored, id).Some?;
  }

  lemma WindowListsOnce(stored: seq<StoredChange>, db: Db, scope: string, table: string, since: nat)
    requires ValidDb(db) && ListsWindow(stored, db, scope, table, since)
    ensures ListsOnce(stored)
  {
  }

  /** Pruning at or below the cursor leaves its window alone. */
  lemma WindowAfterGc(stored: seq<StoredChange>, a: Db, b: Db, scope: string, table: string, since: nat)
    requires GcOnly(a, b) && b.floor <= since && ListsWindow(stored, a, scope, table, since)
    ensures ListsWindow(stored, b, scope, table, since)
  {
    forall c | c in stored
      ensures var k := RowKey(scope, Key(table, c.id)); k in b.rows && c == ChangeOf(c.id, b.rows[k])
    {
      assert c.id in ChangeIds(stored);
      assert c.id in Window(a, scope, table, since);
    }
    assert Window(b, scope, table, since) == Window(a, scope, table, since);
  }
}
