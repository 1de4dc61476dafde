/**
 * The in-memory SyncStore (packages/server/src/memoryStore.ts): rows and
 * tombstones of every scope under one revision counter, and the gc floor. The
 * source's nested maps scope -> table -> id are one map keyed by the triple:
 * an empty inner map is never observable.
 */
module MemoryStores {
  import opened RawRecords

  predicate UsableId(id: Js) {
    id.Str? && id.s != ""
  }

  predicate HasUsableId(row: DirtyRaw) {
    UsableId(Get(row, "id"))
  }

  /** A row with a usable id. */
  type WireRow = row: DirtyRaw | HasUsableId(row) witness map["id" := Str("a")]

  function IdOf(row: WireRow): string {
    Get(row, "id").s
  }

  datatype Key = Key(table: string, id: string)
  datatype RowKey = RowKey(scope: string, key: Key)
  datatype Stored = Stored(row: WireRow, rev: nat, deleted: bool)

  type Rows = map<RowKey, Stored>

  /** A store's whole contents. */
  datatype Db = Db(rows: Rows, rev: nat, floor: nat)

  function Entry(db: Db, scope: string, key: Key): Option<Stored> {
    Lookup(db.rows, RowKey(scope, key))
  }

  function Lookup<K, V>(m: map<K, V>, k: K): Option<V> {
    if k in m then Some(m[k]) else None
  }

  /** Every stamp was handed out, and no tombstone is at or below the floor. */
  predicate ValidDb(db: Db) {
    && db.floor <= db.rev
    && forall k :: k in db.rows ==>
         && 1 <= db.rows[k].rev <= db.rev
         && IdOf(db.rows[k].row) == k.key.id
         && (db.rows[k].deleted ==> db.rows[k].rev > db.floor)
  }

  predicate Collectable(s: Stored, floor: nat) {
    s.deleted && s.rev <= floor
  }

  /** The contents after tombstones at or below a floor are pruned. */
  function Pruned(db: Db, floor: nat): Db {
    Db(map k | k in db.rows && !Collectable(db.rows[k], floor) :: db.rows[k], db.rev, floor)
  }

  function PrunedEntry(entry: Option<Stored>, floor: nat): Option<Stored> {
    if entry.Some? && Collectable(entry.value, floor) then None else entry
  }

  predicate IsMaxRev(db: Db, scope: string, max: nat) {
    && (forall k :: k in db.rows && k.scope == scope ==> db.rows[k].rev <= max)
    && (max == 0 || exists k :: k in db.rows && k.scope == scope && db.rows[k].rev == max)
  }

  datatype StoredChange = StoredChange(id: string, rev: nat, row: Option<WireRow>)

  function ChangeOf(id: string, s: Stored): StoredChange {
    StoredChange(id, s.rev, if s.deleted then None else Some(s.row))
  }

  /** Ids of a table whose entry in the scope is stamped above a revision. */
  function Window(db: Db, scope: string, table: string, since: nat): set<string> {
    set k | k in db.rows && k.scope == scope && k.key.table == table && db.rows[k].rev > since :: k.key.id
  }

  function ChangeIds(changes: seq<StoredChange>): set<string> {
    set c | c in changes :: c.id
  }

  /** A listing of exactly the window, each id once, with its current entry. */
  predicate ListsWindow(changes: seq<StoredChange>, db: Db, scope: string, table: string, since: nat) {
    && (forall i, j :: 0 <= i < j < |changes| ==> changes[i].id != changes[j].id)
    && ChangeIds(changes) == Window(db, scope, table, since)
    && forall c :: c in changes ==>
         var k := RowKey(scope, Key(table, c.id));
         k in db.rows && c == ChangeOf(c.id, db.rows[k])
  }

  /** Upserts of one batch in order: tombstones stay dead, refused rows leave no trace. */
  function PutRows(rows: Rows, scope: string, table: string, stamp: nat, put: seq<WireRow>,
                   refuses: (string, WireRow) -> bool): Rows
  {
    if |put| == 0 then rows
    else
      var before := PutRows(rows, scope, table, stamp, put[..|put| - 1], refuses);
      var row := put[|put| - 1];
      var k := RowKey(scope, Key(table, IdOf(row)));
      if (k in before && before[k].deleted) || refuses(table, row) then before
      else before[k := Stored(row, stamp, false)]
  }

  function KillRows(rows: Rows, scope: string, table: string, stamp: nat, ids: seq<string>): Rows {
    if |ids| == 0 then rows
    else
      var before := KillRows(rows, scope, table, stamp, ids[..|ids| - 1]);
      var k := RowKey(scope, Key(table, ids[|ids| - 1]));
      if k !in before || before[k].deleted then before
      else before[k := before[k].(rev := stamp, deleted := true)]
  }

  predicate DistinctIds(rows: seq<WireRow>) {
    forall i, j :: 0 <= i < j < |rows| ==> IdOf(rows[i]) != IdOf(rows[j])
  }

  function RowIds(rows: seq<WireRow>): set<string> {
    set row | row in rows :: IdOf(row)
  }

  lemma {:induction false} PutRowsElsewhere(rows: Rows, scope: string, table: string, stamp: nat, put: seq<WireRow>,
                                            refuses: (string, WireRow) -> bool, k: RowKey)
    requires !(k.scope == scope && k.key.table == table && k.key.id in RowIds(put))
    ensures Lookup(PutRows(rows, scope, table, stamp, put, refuses), k) == Lookup(rows, k)
  {
    if |put| > 0 {
      var prefix := put[..|put| - 1];
      assert forall row :: row in prefix ==> row in put;
      PutRowsElsewhere(rows, scope, table, stamp, prefix, refuses, k);
      assert IdOf(put[|put| - 1]) in RowIds(put);
    }
  }

  /** What one upsert batch of distinct ids leaves at the i-th row's key. */
  lemma {:induction false} PutRowsAt(rows: Rows, scope: string, table: string, stamp: nat, put: seq<WireRow>,
                                     refuses: (string, WireRow) -> bool, i: nat)
    requires DistinctIds(put) && i < |put|
    ensures var k := RowKey(scope, Key(table, IdOf(put[i])));
            Lookup(PutRows(rows, scope, table, stamp, put, refuses), k)
              == if (k in rows && rows[k].deleted) || refuses(table, put[i]) then Lookup(rows, k)
                 else Some(Stored(put[i], stamp, false))
  {
    var prefix := put[..|put| - 1];
    var k := RowKey(scope, Key(table, IdOf(put[i])));
    if i == |put| - 1 {
      PutRowsElsewhere(rows, scope, table, stamp, prefix, refuses, k);
    } else {
      PutRowsAt(rows, scope, table, stamp, prefix, refuses, i);
    }
  }

  /** What one tombstone batch leaves at every key: unknown and dead ids are no-ops. */
  lemma {:induction false} KillRowsLookup(rows: Rows, scope: string, table: string, stamp: nat, ids: seq<string>)
    ensures var after := KillRows(rows, scope, table, stamp, ids);
            forall k: RowKey :: Lookup(after, k) ==
              if k.scope == scope && k.key.table == table && k.key.id in ids && k in rows && !rows[k].deleted
              then Some(rows[k].(rev := stamp, deleted := true)) else Lookup(rows, k)
  {
    if |ids| > 0 {
      KillRowsLookup(rows, scope, table, stamp, ids[..|ids| - 1]);
      assert ids == ids[..|ids| - 1] + [ids[|ids| - 1]];
    }
  }

  /** A listing of the window's visited part. */
  ghost predicate ListsVisited(changes: seq<StoredChange>, rows: Rows, todo: set<RowKey>,
                               scope: string, table: string, since: nat)
  {
    && (forall i, j :: 0 <= i < j < |changes| ==> changes[i].id != changes[j].id)
    && (forall c :: c in changes ==>
          var k := RowKey(scope, Key(table, c.id));
          k in rows && k !in todo && rows[k].rev > since && c == ChangeOf(c.id, rows[k]))
    && (forall k :: k in rows && k !in todo && k.scope == scope && k.key.table == table && rows[k].rev > since
          ==> ChangeOf(k.key.id, rows[k]) in changes)
  }

  lemma ListsOneMore(changes: seq<StoredChange>, rows: Rows, todo: set<RowKey>,
                     scope: string, table: string, since: nat, k: RowKey)
    requires ListsVisited(changes, rows, todo + {k}, scope, table, since)
    requires k in rows && k !in todo && k.scope == scope && k.key.table == table && rows[k].rev > since
    ensures ListsVisited(changes + [ChangeOf(k.key.id, rows[k])], rows, todo, scope, table, since)
  {
    var more := changes + [ChangeOf(k.key.id, rows[k])];
    assert k == RowKey(scope, Key(table, k.key.id));
    forall i | 0 <= i < |changes| ensures changes[i].id != k.key.id {
      assert changes[i] in changes;
    }
    forall c | c in more ensures c in changes || c == ChangeOf(k.key.id, rows[k]) {
    }
    assert more[|changes|] == ChangeOf(k.key.id, rows[k]);
    forall c | c in changes ensures c in more {
      var i :| 0 <= i < |changes| && changes[i] == c;
      assert more[i] == c;
    }
  }

  lemma ListedWhole(changes: seq<StoredChange>, db: Db, scope: string, table: string, since: nat)
    requires ListsVisited(changes, db.rows, {}, scope, table, since)
    ensures ChangeIds(changes) == Window(db, scope, table, since)
  {
    forall id | id in Window(db, scope, table, since) ensures id in ChangeIds(changes) {
      assert ChangeOf(id, db.rows[RowKey(scope, Key(table, id))]) in changes;
    }
    forall id | id in ChangeIds(changes) ensures id in Window(db, scope, table, since) {
      assert RowKey(scope, Key(table, id)) in db.rows;
    }
  }

  class MemoryStore {
    var rows: Rows
    var rev: nat
    var floor: nat

    /**
     * Rows the storage itself refuses, as the seam allows. The memory store
     * refuses nothing; nothing below depends on that.
     */
    const refuses: (string, WireRow) -> bool

    constructor (refuses: (string, WireRow) -> bool)
      ensures Contents() == Db(map[], 0, 0) && this.refuses == refuses
      ensures ValidDb(Contents())
    {
      rows, rev, floor := map[], 0, 0;
      this.refuses := refuses;
    }

    ghost function Contents(): Db
      reads this
    {
      Db(rows, rev, floor)
    }

    method ChangedSince(table: string, scope: string, since: nat) returns (changes: seq<StoredChange>)
      requires ValidDb(Contents())
      ensures ListsWindow(changes, Contents(), scope, table, since)
    {
      changes := [];
      var todo := rows.Keys;
      while todo != {}
        invariant todo <= rows.Keys
        invariant ListsVisited(changes, rows, todo, scope, table, since)
        decreases |todo|
      {
        var k :| k in todo;
        assert todo == (todo - {k}) + {k};
        todo := todo - {k};
        var stored := rows[k];
        if k.scope != scope || k.key.table != table || stored.rev <= since { continue; }
        ListsOneMore(changes, rows, todo, scope, table, since, k);
        changes := changes + [StoredChange(IdOf(stored.row), stored.rev, if stored.deleted then None else Some(stored.row))];
      }
      ListedWhole(changes, Contents(), scope, table, since);
    }

    method MaxRev(scope: string) returns (max: nat)
      ensures IsMaxRev(Contents(), scope, max)
    {
      max := 0;
      var todo := rows.Keys;
      while todo != {}
        invariant todo <= rows.Keys
        invariant forall k :: k in rows && k !in todo && k.scope == scope ==> rows[k].rev <= max
        invariant max == 0 || exists k :: k in rows && k.scope == scope && rows[k].rev == max
        decreases |todo|
      {
        var k :| k in todo;
        todo := todo - {k};
        if k.scope == scope && rows[k].rev > max {
          max := rows[k].rev;
        }
      }
    }

    method CurrentRevs(table: string, scope: string, ids: seq<string>) returns (revs: map<string, nat>)
      ensures revs.Keys == set id | id in ids && RowKey(scope, Key(table, id)) in rows
      ensures forall id :: id in revs ==> revs[id] == rows[RowKey(scope, Key(table, id))].rev
    {
      revs := map[];
      for i := 0 to |ids|
        invariant revs.Keys == set id | id in ids[..i] && RowKey(scope, Key(table, id)) in rows
        invariant forall id :: id in revs ==> revs[id] == rows[RowKey(scope, Key(table, id))].rev
      {
        assert ids[..i + 1] == ids[..i] + [ids[i]];
        var k := RowKey(scope, Key(table, ids[i]));
        if k in rows {
          revs := revs[ids[i] := rows[k].rev];
        }
      }
      assert ids[..|ids|] == ids;
    }

    method TombstonedIds(table: string, scope: string, ids: seq<string>) returns (dead: seq<string>)
      ensures forall id :: id in dead <==>
                id in ids && RowKey(scope, Key(table, id)) in rows && rows[RowKey(scope, Key(table, id))].deleted
    {
      dead := [];
      for i := 0 to |ids|
        invariant forall id :: id in dead <==>
                    id in ids[..i] && RowKey(scope, Key(table, id)) in rows && rows[RowKey(scope, Key(table, id))].deleted
      {
        assert ids[..i + 1] == ids[..i] + [ids[i]];
        var k := RowKey(scope, Key(table, ids[i]));
        if k in rows && rows[k].deleted {
          dead := dead + [ids[i]];
        }
      }
      assert ids[..|ids|] == ids;
    }

    /** Ids among ids held by any other scope, tombstones included. */
    method ForeignIds(table: string, scope: string, ids: seq<string>) returns (foreign: seq<string>)
      ensures forall id :: id in foreign <==> id in ids && ForeignTo(Contents(), scope, Key(table, id))
    {
      foreign := [];
      var todo := rows.Keys;
      while todo != {}
        invariant todo <= rows.Keys
        invariant forall id :: id in foreign <==>
                    id in ids && exists k :: k in rows && k !in todo && k.scope != scope && k.key == Key(table, id)
        decreases |todo|
      {
        var k :| k in todo;
        todo := todo - {k};
        if k.scope != scope && k.key.table == table && k.key.id in ids {
          foreign := foreign + [k.key.id];
        }
      }
    }

    method Upsert(table: string, scope: string, put: seq<WireRow>) returns (refused: seq<string>)
      modifies this`rows, this`rev
      ensures rev == old(rev) + 1
      ensures rows == PutRows(old(rows), scope, table, rev, put, refuses)
      ensures forall id :: id in refused <==> exists row :: row in put && IdOf(row) == id && refuses(table, row)
    {
      rev := rev + 1;
      refused := [];
      for i := 0 to |put|
        invariant rev == old(rev) + 1
        invariant rows == PutRows(old(rows), scope, table, rev, put[..i], refuses)
        invariant forall id :: id in refused <==> exists row :: row in put[..i] && IdOf(row) == id && refuses(table, row)
      {
        assert put[..i + 1][..i] == put[..i];
        assert put[..i + 1] == put[..i] + [put[i]];
        var row := put[i];
        var k := RowKey(scope, Key(table, IdOf(row)));
        if refuses(table, row) {
          refused := refused + [IdOf(row)];
          continue;
        }
        if k in rows && rows[k].deleted { continue; }
        rows := rows[k := Stored(row, rev, false)];
      }
      assert put[..|put|] == put;
    }

    method Tombstone(table: string, scope: string, ids: seq<string>)
      modifies this`rows, this`rev
      ensures rev == old(rev) + 1
      ensures rows == KillRows(old(rows), scope, table, rev, ids)
    {
      rev := rev + 1;
      for i := 0 to |ids|
        invariant rev == old(rev) + 1
        invariant rows == KillRows(old(rows), scope, table, rev, ids[..i])
      {
        assert ids[..i + 1][..i] == ids[..i];
        var k := RowKey(scope, Key(table, ids[i]));
        if k !in rows || rows[k].deleted { continue; }
        rows := rows[k := rows[k].(rev := rev, deleted := true)];
      }
      assert ids[..|ids|] == ids;
    }

    /** A floor that is negative or outside the safe integers throws and changes nothing. */
    method Gc(newFloor: int) returns (ok: bool)
      modifies this`rows, this`floor
      ensures ok <==> 0 <= newFloor <= MAX_SAFE
      ensures !ok ==> Contents() == old(Contents())
      ensures ok ==> Contents() == Pruned(old(Contents()), if newFloor > old(floor) then newFloor else old(floor))
    {
      if !(0 <= newFloor <= MAX_SAFE) { return false; }
      if newFloor > floor { floor := newFloor; }
      var todo := rows.Keys;
      while todo != {}
        invariant todo <= rows.Keys <= old(rows).Keys
        invariant floor == if newFloor > old(floor) then newFloor else old(floor)
        invariant forall k :: k in old(rows) ==>
                    (k in rows <==> k in todo || !Collectable(old(rows)[k], floor))
        invariant forall k :: k in rows ==> rows[k] == old(rows)[k]
        decreases |todo|
      {
        var k :| k in todo;
        todo := todo - {k};
        if rows[k].deleted && rows[k].rev <= floor {
          rows := map k' | k' in rows && k' != k :: rows[k'];
        }
      }
      ok := true;
    }
  }

  /** Some other scope holds the id. */
  ghost predicate ForeignTo(db: Db, scope: string, key: Key) {
    exists k :: k in db.rows && k.scope != scope && k.key == key
  }

  // ----- what every store operation keeps -----

  lemma PruneKeepsValid(db: Db, floor: nat)
    requires ValidDb(db) && floor <= db.rev
    ensures ValidDb(Pruned(db, floor))
  {
  }

  lemma PutKeepsValid(db: Db, scope: string, table: string, put: seq<WireRow>, refuses: (string, WireRow) -> bool)
    requires ValidDb(db)
    ensures ValidDb(Db(PutRows(db.rows, scope, table, db.rev + 1, put, refuses), db.rev + 1, db.floor))
  {
    if |put| > 0 {
      PutKeepsValid(db, scope, table, put[..|put| - 1], refuses);
    }
  }

  lemma KillKeepsValid(db: Db, scope: string, table: string, ids: seq<string>)
    requires ValidDb(db)
    ensures ValidDb(Db(KillRows(db.rows, scope, table, db.rev + 1, ids), db.rev + 1, db.floor))
  {
    if |ids| > 0 {
      KillKeepsValid(db, scope, table, ids[..|ids| - 1]);
    }
  }
}
