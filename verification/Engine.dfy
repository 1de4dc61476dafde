/**
 * The protocol engine (packages/server/src/engine.ts) over the memory store.
 * Every store call of a push is an await in the source, where a gc may run:
 * Await stands for that point.
 */
module Engines {
  import opened RawRecords
  import opened MemoryStores
  import opened SyncTypes
  import opened SyncContracts
  import opened PushParts
  import opened Rowsets
  import opened Cursors

  /** What a push throws instead of answering. */
  datatype PushError = UnusableId | HookFault

  /** Ids still in play belong to the scope; the others are rejected as foreign. */
  ghost predicate Owned(pre: Db, db: Db, scope: string, p: Parsed, tc: TableChanges) {
    && (forall id :: id in p.allIds ==> !ForeignTo(db, scope, Key(p.table, id)))
    && (forall id :: StatementFor(tc, id) != Silent && id !in p.allIds ==> ForeignTo(pre, scope, Key(p.table, id)))
  }

  ghost predicate AllOwned(pre: Db, db: Db, scope: string, parsed: seq<Parsed>, changes: Changes) {
    forall j :: 0 <= j < |parsed| ==> Owned(pre, db, scope, parsed[j], ChangesFor(changes, parsed[j].table))
  }

  /** No entry of an id in play was stamped after the cursor. */
  ghost predicate SeenBy(db: Db, scope: string, p: Parsed, since: nat) {
    forall id :: id in p.allIds ==>
      var e := Entry(db, scope, Key(p.table, id));
      e.Some? ==> e.value.rev <= since
  }

  ghost predicate AllSeen(db: Db, scope: string, parsed: seq<Parsed>, since: nat) {
    forall j :: 0 <= j < |parsed| ==> SeenBy(db, scope, parsed[j], since)
  }

  /** The rows still standing aim at no tombstone and, append-only, at nothing stored. */
  ghost predicate Landable(pre: Db, floor: nat, scope: string, p: Parsed, appendOnly: bool) {
    forall row :: row in p.rows ==>
      var e := PrunedEntry(Entry(pre, scope, Key(p.table, IdOf(row))), floor);
      e.Some? ==> !e.value.deleted && !appendOnly
  }

  lemma OwnedAfterGc(pre: Db, a: Db, b: Db, scope: string, parsed: seq<Parsed>, changes: Changes)
    requires GcOnly(a, b) && AllOwned(pre, a, scope, parsed, changes)
    ensures AllOwned(pre, b, scope, parsed, changes)
  {
    forall j | 0 <= j < |parsed| ensures Owned(pre, b, scope, parsed[j], ChangesFor(changes, parsed[j].table)) {
      forall id | id in parsed[j].allIds ensures !ForeignTo(b, scope, Key(parsed[j].table, id)) {
        assert !ForeignTo(a, scope, Key(parsed[j].table, id));
      }
    }
  }

  lemma SeenAfterGc(a: Db, b: Db, scope: string, parsed: seq<Parsed>, since: nat)
    requires GcOnly(a, b) && AllSeen(a, scope, parsed, since)
    ensures AllSeen(b, scope, parsed, since)
  {
    forall j, id | 0 <= j < |parsed| && id in parsed[j].allIds
      ensures var e := Entry(b, scope, Key(parsed[j].table, id)); e.Some? ==> e.value.rev <= since
    {
      GcOnlyEntry(a, b, RowKey(scope, Key(parsed[j].table, id)));
      assert SeenBy(a, scope, parsed[j], since);
    }
  }

  lemma LandableLater(pre: Db, floor: nat, later: nat, scope: string, p: Parsed, once: bool)
    requires floor <= later && Landable(pre, floor, scope, p, once)
    ensures Landable(pre, later, scope, p, once)
  {
  }

  /** Everything the change set names is in play. */
  ghost predicate Covered(p: Parsed, tc: TableChanges) {
    forall id :: StatementFor(tc, id) != Silent ==> id in p.allIds
  }

  ghost predicate AllCovered(parsed: seq<Parsed>, changes: Changes) {
    forall j :: 0 <= j < |parsed| ==> Covered(parsed[j], ChangesFor(changes, parsed[j].table))
  }

  lemma ForeignDropKeepsPart(p: Parsed, tc: TableChanges, drop: set<string>)
    requires PartOf(p, {}, tc) && drop <= Elements(p.allIds)
    ensures PartOf(Dropped(p, drop).(allIds := DropIds(p.allIds, drop)), {} + drop, tc)
    ensures forall id :: id in drop ==> StatementFor(tc, id) != Silent
  {
    DroppedKeepsPart(p, {}, tc, drop);
    DropIdsKeeps(p.allIds, drop);
    DropRowsKeeps(p.rows, drop);
    DropIdsKeeps(p.deletes, drop);
    assert Elements(DropIds(p.allIds, drop)) == Elements(p.allIds) - drop;
    assert Elements(DropIds(p.deletes, drop)) == Elements(p.deletes) - drop;
    var q := Dropped(p, drop);
    assert PartOf(q, {} + drop, tc);
  }

  lemma {:induction false} DropRowsNothing(rows: seq<WireRow>)
    ensures DropRows(rows, {}) == rows
  {
    if |rows| > 0 {
      DropRowsNothing(rows[..|rows| - 1]);
      assert rows == rows[..|rows| - 1] + [rows[|rows| - 1]];
    }
  }

  lemma {:induction false} DropIdsNothing(ids: seq<string>)
    ensures DropIds(ids, {}) == ids
  {
    if |ids| > 0 {
      DropIdsNothing(ids[..|ids| - 1]);
      assert ids == ids[..|ids| - 1] + [ids[|ids| - 1]];
    }
  }

  lemma DropNothing(p: Parsed)
    ensures Dropped(p, {}) == p
  {
    DropRowsNothing(p.rows);
    DropIdsNothing(p.deletes);
  }

  /** What the row hook sees. */
  function RowsByTable(parsed: seq<Parsed>): map<string, seq<WireRow>> {
    if |parsed| == 0 then map[]
    else RowsByTable(parsed[..|parsed| - 1])[parsed[|parsed| - 1].table := parsed[|parsed| - 1].rows]
  }

  /** What the change-set hook sees. */
  function ChangesByTable(parsed: seq<Parsed>): map<string, (seq<WireRow>, seq<string>)> {
    if |parsed| == 0 then map[]
    else
      var last := parsed[|parsed| - 1];
      ChangesByTable(parsed[..|parsed| - 1])[last.table := (last.rows, last.deletes)]
  }

  type RevsByTable = map<string, map<string, nat>>

  function RevsOf(revsByTable: RevsByTable, table: string): map<string, nat> {
    if table in revsByTable then revsByTable[table] else map[]
  }

  /** The scan's answer: it lists every id in play still stored, and only ids the push found stored. */
  ghost predicate Known(pre: Db, db: Db, scope: string, p: Parsed, revs: map<string, nat>) {
    forall id :: id in p.allIds ==>
      && (Entry(db, scope, Key(p.table, id)).Some? ==> id in revs)
      && (id in revs ==> Entry(pre, scope, Key(p.table, id)).Some?)
  }

  ghost predicate AllKnown(pre: Db, db: Db, scope: string, parsed: seq<Parsed>, revsByTable: RevsByTable) {
    forall j :: 0 <= j < |parsed| ==> Known(pre, db, scope, parsed[j], RevsOf(revsByTable, parsed[j].table))
  }

  lemma KnownAfterGc(pre: Db, a: Db, b: Db, scope: string, parsed: seq<Parsed>, revsByTable: RevsByTable)
    requires GcOnly(a, b) && AllKnown(pre, a, scope, parsed, revsByTable)
    ensures AllKnown(pre, b, scope, parsed, revsByTable)
  {
    forall j, id | 0 <= j < |parsed| && id in parsed[j].allIds && Entry(b, scope, Key(parsed[j].table, id)).Some?
      ensures id in RevsOf(revsByTable, parsed[j].table)
    {
      GcOnlyEntry(a, b, RowKey(scope, Key(parsed[j].table, id)));
      assert Known(pre, a, scope, parsed[j], RevsOf(revsByTable, parsed[j].table));
    }
  }

  /** The same shares of the request, judged further: fewer rows, the same ids in play. */
  ghost predicate Shrunk(after: seq<Parsed>, before: seq<Parsed>) {
    && |after| == |before|
    && forall j :: 0 <= j < |before| ==>
         && after[j].table == before[j].table
         && after[j].allIds == before[j].allIds
         && forall row :: row in after[j].rows ==> row in before[j].rows
  }

  lemma ShrunkTrans(a: seq<Parsed>, b: seq<Parsed>, c: seq<Parsed>)
    requires Shrunk(b, a) && Shrunk(c, b)
    ensures Shrunk(c, a)
  {
  }

  lemma ShrunkCarries(pre: Db, db: Db, scope: string, before: seq<Parsed>, after: seq<Parsed>, changes: Changes,
                      since: nat, revsByTable: RevsByTable)
    requires Shrunk(after, before)
    requires AllOwned(pre, db, scope, before, changes) && AllSeen(db, scope, before, since)
    requires AllKnown(pre, db, scope, before, revsByTable)
    ensures AllOwned(pre, db, scope, after, changes) && AllSeen(db, scope, after, since)
    ensures AllKnown(pre, db, scope, after, revsByTable)
  {
    forall j | 0 <= j < |after|
      ensures Owned(pre, db, scope, after[j], ChangesFor(changes, after[j].table))
      ensures SeenBy(db, scope, after[j], since)
      ensures Known(pre, db, scope, after[j], RevsOf(revsByTable, after[j].table))
    {
      assert Owned(pre, db, scope, before[j], ChangesFor(changes, before[j].table));
      assert SeenBy(db, scope, before[j], since);
      assert Known(pre, db, scope, before[j], RevsOf(revsByTable, before[j].table));
    }
  }

  /** The rows and deletions are all that is stated of the ids in play. */
  ghost predicate Unjudged(p: Parsed, tc: TableChanges) {
    && DistinctIds(p.rows)
    && (forall row: WireRow :: row in p.rows <==> StatementFor(tc, IdOf(row)) == Upserts(row) && IdOf(row) in p.allIds)
    && (forall id :: id in p.deletes <==> StatementFor(tc, id) == Deletes && id in p.allIds)
  }

  ghost predicate AllUnjudged(parsed: seq<Parsed>, changes: Changes) {
    forall j :: 0 <= j < |parsed| ==> Unjudged(parsed[j], ChangesFor(changes, parsed[j].table))
  }

  lemma WholePartIsUnjudged(p: Parsed, tc: TableChanges)
    requires PartOf(p, {}, tc) && Covered(p, tc)
    ensures Unjudged(p, tc)
  {
    forall row: WireRow | StatementFor(tc, IdOf(row)) == Upserts(row) ensures row in p.rows {
      assert IdOf(row) in RowIds(p.rows);
    }
  }

  lemma ForeignDropUnjudged(p: Parsed, tc: TableChanges, drop: set<string>)
    requires Unjudged(p, tc)
    ensures Unjudged(Dropped(p, drop).(allIds := DropIds(p.allIds, drop)), tc)
  {
    DropRowsKeeps(p.rows, drop);
    DropIdsKeeps(p.deletes, drop);
    DropIdsKeeps(p.allIds, drop);
  }

  /** The rows that pass validation, and the deletions, are all that stands of what is in play. */
  ghost predicate Standing(p: Parsed, tc: TableChanges, config: Config) {
    && DistinctIds(p.rows)
    && (forall row: WireRow :: row in p.rows <==>
          StatementFor(tc, IdOf(row)) == Upserts(row) && IdOf(row) in p.allIds && config.valid(p.table, row))
    && (forall id :: id in p.deletes <==> StatementFor(tc, id) == Deletes && id in p.allIds)
  }

  ghost predicate AllStanding(parsed: seq<Parsed>, changes: Changes, config: Config) {
    forall j :: 0 <= j < |parsed| ==> Standing(parsed[j], ChangesFor(changes, parsed[j].table), config)
  }

  lemma InvalidDropStands(p: Parsed, tc: TableChanges, config: Config, bad: seq<string>)
    requires Unjudged(p, tc)
    requires forall row :: row in p.rows && IdOf(row) !in bad ==> config.valid(p.table, row)
    requires forall id :: id in bad ==> exists row :: row in p.rows && IdOf(row) == id && !config.valid(p.table, row)
    ensures Standing(Dropped(p, Elements(bad)), tc, config)
  {
    DropRowsKeeps(p.rows, Elements(bad));
    DropIdsKeeps(p.deletes, Elements(bad));
  }

  /** The ids in play, by table. */
  ghost function IdsByTable(parsed: seq<Parsed>): map<string, set<string>> {
    if |parsed| == 0 then map[]
    else IdsByTable(parsed[..|parsed| - 1])[parsed[|parsed| - 1].table := Elements(parsed[|parsed| - 1].allIds)]
  }

  function TablesOf(parsed: seq<Parsed>): set<string> {
    set p | p in parsed :: p.table
  }

  predicate DistinctShares(parsed: seq<Parsed>) {
    forall i, j :: 0 <= i < j < |parsed| ==> parsed[i].table != parsed[j].table
  }

  lemma {:induction false} ByTableKeys(parsed: seq<Parsed>)
    ensures RowsByTable(parsed).Keys == ChangesByTable(parsed).Keys == IdsByTable(parsed).Keys == TablesOf(parsed)
  {
    if |parsed| > 0 {
      var before, last := parsed[..|parsed| - 1], parsed[|parsed| - 1];
      ByTableKeys(before);
      assert parsed == before + [last];
      assert TablesOf(parsed) == TablesOf(before) + {last.table};
    }
  }

  lemma {:induction false} ByTableAt(parsed: seq<Parsed>, j: nat)
    requires DistinctShares(parsed) && j < |parsed|
    ensures var t := parsed[j].table;
            && t in TablesOf(parsed) && TablesOf(parsed) == RowsByTable(parsed).Keys == ChangesByTable(parsed).Keys == IdsByTable(parsed).Keys
            && RowsByTable(parsed)[t] == parsed[j].rows
            && ChangesByTable(parsed)[t] == (parsed[j].rows, parsed[j].deletes)
            && IdsByTable(parsed)[t] == Elements(parsed[j].allIds)
  {
    ByTableKeys(parsed);
    assert parsed[j] in parsed;
    if j < |parsed| - 1 {
      ByTableAt(parsed[..|parsed| - 1], j);
    }
  }

  /** Nothing once rejected is taken back. */
  ghost predicate Grew(before: Rejections, after: Rejections) {
    forall t :: RejectedIn(before, t) <= RejectedIn(after, t)
  }

  lemma CausesStay(config: Config, pre: Db, scope: string, changes: Changes, rejected: Rejections, before: Option<Hooks>, after: Hooks)
    requires Caused(config, pre, scope, changes, rejected, before)
    requires before.Some? ==> forall key :: HookNames(before.value, key) ==> HookNames(after, key)
    ensures Caused(config, pre, scope, changes, rejected, Some(after))
  {
    forall t, id | t in config.tables && id in RejectedIn(rejected, t)
      ensures Refusable(config, pre, scope, changes, Key(t, id), Some(after))
    {
      assert Refusable(config, pre, scope, changes, Key(t, id), before);
    }
  }

  lemma ShareDecides(parsed: seq<Parsed>, table: string, ids: set<string>)
    requires DistinctShares(parsed)
    ensures (table in IdsByTable(parsed) && ids <= IdsByTable(parsed)[table])
            <==> exists j :: 0 <= j < |parsed| && parsed[j].table == table && ids <= Elements(parsed[j].allIds)
  {
    hide IdsByTable, RowsByTable, ChangesByTable;
    ByTableKeys(parsed);
    forall j | 0 <= j < |parsed| && parsed[j].table == table
      ensures table in IdsByTable(parsed) && IdsByTable(parsed)[table] == Elements(parsed[j].allIds)
    {
      ByTableAt(parsed, j);
    }
    if table in IdsByTable(parsed) {
      var p :| p in parsed && p.table == table;
      var j :| 0 <= j < |parsed| && parsed[j] == p;
    }
  }

  /** The parsed shares lie in the tables' order. */
  ghost predicate InOrderOf(parsed: seq<Parsed>, tables: seq<string>) {
    && DistinctTables(tables) && |parsed| == |tables|
    && forall j :: 0 <= j < |tables| ==> parsed[j].table == tables[j]
  }

  lemma OrderedTables(parsed: seq<Parsed>, tables: seq<string>)
    requires InOrderOf(parsed, tables)
    ensures DistinctShares(parsed) && TablesOf(parsed) == (set t | t in tables)
  {
    forall t | t in tables ensures t in TablesOf(parsed) {
      var j :| 0 <= j < |tables| && tables[j] == t;
      assert parsed[j] in parsed && parsed[j].table == t;
    }
  }

  lemma ShareIsShown(config: Config, pre: Db, scope: string, tc: TableChanges, p: Parsed, h: Hooks, t: string)
    requires t == p.table && Standing(p, tc, config) && Owned(pre, h.db, scope, p, tc)
    requires forall id :: id in p.allIds ==> StatementFor(tc, id) != Silent
    requires t in h.inPlay && h.inPlay[t] == Elements(p.allIds) && t in h.rows && h.rows[t] == p.rows
    ensures InPlay(pre, scope, tc, h, t) && ShownRows(config, tc, h, t)
  {
    hide StatementFor, ForeignTo;
  }

  /** Before any hook: what is in play and what the first one is shown. */
  lemma RequestIsShown(config: Config, pre: Db, scope: string, changes: Changes, request: seq<Parsed>, h: Hooks)
    requires InOrderOf(request, config.tables)
    requires AllStanding(request, changes, config) && AllOwned(pre, h.db, scope, request, changes)
    requires forall j :: 0 <= j < |request| ==>
               forall id :: id in request[j].allIds ==> StatementFor(ChangesFor(changes, request[j].table), id) != Silent
    requires h.inPlay == IdsByTable(request) && h.rows == RowsByTable(request)
    ensures RowsShown(config, pre, scope, changes, h)
  {
    hide StatementFor, InPlay, ShownRows, Standing, Owned, RowsByTable, IdsByTable, ChangesByTable;
    OrderedTables(request, config.tables);
    ByTableKeys(request);
    forall t | t in config.tables
      ensures InPlay(pre, scope, ChangesFor(changes, t), h, t) && ShownRows(config, ChangesFor(changes, t), h, t)
    {
      var j :| 0 <= j < |config.tables| && config.tables[j] == t;
      ByTableAt(request, j);
      ShareIsShown(config, pre, scope, ChangesFor(changes, t), request[j], h, t);
    }
  }

  lemma ShareLeft(config: Config, tc: TableChanges, p: Parsed, left: Parsed, h: Hooks, t: string)
    requires t == p.table && Standing(p, tc, config) && left == Dropped(p, RejectedIn(h.rowsAnswer, t))
    requires t in h.inPlay && h.inPlay[t] == Elements(p.allIds) && t in h.rows && h.rows[t] == p.rows
    requires t in h.left && h.left[t] == (left.rows, left.deletes)
    ensures ShownChanges(tc, h, t)
  {
    hide StatementFor;
    DropRowsKeeps(p.rows, RejectedIn(h.rowsAnswer, t));
    DropIdsKeeps(p.deletes, RejectedIn(h.rowsAnswer, t));
  }

  /** After the first hook: what the second one is shown. */
  lemma LeftIsShown(config: Config, changes: Changes, request: seq<Parsed>, parsed: seq<Parsed>, h: Hooks)
    requires InOrderOf(request, config.tables) && |parsed| == |request|
    requires AllStanding(request, changes, config)
    requires h.inPlay == IdsByTable(request) && h.rows == RowsByTable(request) && h.left == ChangesByTable(parsed)
    requires forall j :: 0 <= j < |request| ==> parsed[j] == Dropped(request[j], RejectedIn(h.rowsAnswer, config.tables[j]))
    ensures ChangesShown(config, changes, h)
  {
    hide StatementFor, ShownChanges, Standing, RowsByTable, IdsByTable, ChangesByTable;
    assert InOrderOf(parsed, config.tables);
    hide Dropped;
    OrderedTables(request, config.tables);
    OrderedTables(parsed, config.tables);
    ByTableKeys(request);
    ByTableKeys(parsed);
    forall t | t in config.tables
      ensures ShownChanges(ChangesFor(changes, t), h, t)
    {
      var j :| 0 <= j < |config.tables| && config.tables[j] == t;
      ByTableAt(request, j);
      ByTableAt(parsed, j);
      ShareLeft(config, ChangesFor(changes, t), request[j], parsed[j], h, t);
    }
  }

  class SyncEngine {
    const store: MemoryStore
    const tables: seq<string>
    const validate: map<string, WireRow -> bool>
    const appendOnly: set<string>
    const crossValidate: Option<(Db, string, map<string, seq<WireRow>>) -> Rejections>
    const crossValidateChanges: Option<(Db, string, map<string, (seq<WireRow>, seq<string>)>) -> Rejections>
    /** What the hooks of the push at hand were asked, once they were. */
    ghost var hooks: Option<Hooks>

    constructor (store: MemoryStore, tables: seq<string>, validate: map<string, WireRow -> bool>, appendOnly: set<string>,
                 crossValidate: Option<(Db, string, map<string, seq<WireRow>>) -> Rejections>,
                 crossValidateChanges: Option<(Db, string, map<string, (seq<WireRow>, seq<string>)>) -> Rejections>)
      requires DistinctTables(tables) && ValidDb(store.Contents())
      ensures Valid() && this.store == store && this.tables == tables
      ensures this.crossValidate == crossValidate && this.crossValidateChanges == crossValidateChanges
    {
      this.store, this.tables, this.validate, this.appendOnly := store, tables, validate, appendOnly;
      this.crossValidate, this.crossValidateChanges := crossValidate, crossValidateChanges;
      this.hooks := None;
    }

    ghost predicate Valid()
      reads store
    {
      DistinctTables(tables) && ValidDb(store.Contents())
    }

    ghost function Rules(): Config {
      Config(tables,
             (t: string, row: WireRow) => t in validate ==> validate[t](row),
             appendOnly, store.refuses, crossValidate, crossValidateChanges)
    }

    /** An await inside a push: a gc may run before the next store call. */
    method Await()
      requires Valid()
      modifies store`rows, store`floor
      ensures Valid() && GcOnly(old(store.Contents()), store.Contents())
      ensures old(store.floor) <= store.floor
    {
      var newFloor: int := *;
      GcOnlyRefl(store.Contents());
      if newFloor <= store.rev {
        ghost var before := store.Contents();
        var ok := store.Gc(newFloor);
        if ok {
          PruneKeepsValid(before, store.floor);
        }
      }
    }

    /** What every stage before the writes keeps about its share of the push. */
    ghost predicate Judging(pre: Db, scope: string, changes: Changes, parsed: seq<Parsed>, rejected: Rejections)
      reads this, store
    {
      && Valid()
      && GcOnly(pre, store.Contents())
      && Partitioned(parsed, tables, rejected, changes)
      && RejectedForCause(pre, scope, changes, rejected)
    }

    ghost predicate RejectedForCause(pre: Db, scope: string, changes: Changes, rejected: Rejections)
      reads this
    {
      Caused(Rules(), pre, scope, changes, rejected, hooks)
    }

    method ParseRequest(changes: Changes) returns (parsed: Option<seq<Parsed>>)
      ensures parsed.None? <==> exists t :: t in tables && !AllUsable(ChangesFor(changes, t))
      ensures parsed.Some? ==> Partitioned(parsed.value, tables, map[], changes)
      ensures parsed.Some? ==> AllCovered(parsed.value, changes)
    {
      var entries: seq<Parsed> := [];
      for i := 0 to |tables|
        invariant |entries| == i
        invariant forall j :: 0 <= j < i ==> AllUsable(ChangesFor(changes, tables[j]))
        invariant forall j :: 0 <= j < i ==>
                    entries[j].table == tables[j] && PartOf(entries[j], {}, ChangesFor(changes, tables[j]))
        invariant forall j :: 0 <= j < i ==> Covered(entries[j], ChangesFor(changes, tables[j]))
      {
        var entry := ParseTable(tables[i], ChangesFor(changes, tables[i]));
        if entry.None? {
          return None;
        }
        entries := entries + [entry.value];
      }
      parsed := Some(entries);
    }

    /** Ownership first: a foreign row's revision is incomparable to a scope's cursor. */
    method RejectForeign(ghost pre: Db, scope: string, ghost changes: Changes, request: seq<Parsed>)
      returns (parsed: seq<Parsed>, rejected: Rejections)
      requires Judging(pre, scope, changes, request, map[])
      requires AllCovered(request, changes)
      modifies store`rows, store`floor
      ensures old(store.floor) <= store.floor
      ensures Judging(pre, scope, changes, parsed, rejected)
      ensures AllOwned(pre, store.Contents(), scope, parsed, changes)
      ensures AllUnjudged(parsed, changes)
    {
      hide PartOf, Owned, Refusable, Unjudged, StatementFor;
      parsed, rejected := request, map[];
      var i := 0;
      while i < |parsed|
        invariant 0 <= i <= |parsed| && old(store.floor) <= store.floor
        invariant Judging(pre, scope, changes, parsed, rejected)
        invariant AllOwned(pre, store.Contents(), scope, parsed[..i], changes)
        invariant AllUnjudged(parsed[..i], changes)
        invariant forall j :: i <= j < |tables| ==> parsed[j] == request[j] && tables[j] !in rejected
      {
        ghost var before := store.Contents();
        ghost var was := parsed;
        parsed, rejected := RejectForeignIn(pre, scope, changes, parsed, rejected, i);
        OwnedAfterGc(pre, before, store.Contents(), scope, was[..i], changes);
        assert parsed[..i + 1] == was[..i] + [parsed[i]];
        i := i + 1;
      }
      assert parsed[..i] == parsed;
    }

    method RejectForeignIn(ghost pre: Db, scope: string, ghost changes: Changes, request: seq<Parsed>, refused: Rejections, i: nat)
      returns (parsed: seq<Parsed>, rejected: Rejections)
      requires Judging(pre, scope, changes, request, refused)
      requires i < |tables| && tables[i] !in refused && Covered(request[i], ChangesFor(changes, tables[i]))
      modifies store`rows, store`floor
      ensures Judging(pre, scope, changes, parsed, rejected)
      ensures GcOnly(old(store.Contents()), store.Contents())
      ensures parsed == request[i := parsed[i]]
      ensures Owned(pre, store.Contents(), scope, parsed[i], ChangesFor(changes, tables[i]))
      ensures Unjudged(parsed[i], ChangesFor(changes, tables[i]))
      ensures forall t :: t != tables[i] ==> (t in rejected <==> t in refused)
    {
      hide PartOf, Refusable, Unjudged;
      parsed, rejected := request, refused;
      var entry := parsed[i];
      ghost var tc := ChangesFor(changes, tables[i]);
      assert RejectedIn(refused, tables[i]) == {};
      WholePartIsUnjudged(entry, tc);
      GcOnlyRefl(store.Contents());
      if |entry.allIds| == 0 { return; }
      Await();
      GcOnlyTrans(pre, old(store.Contents()), store.Contents());
      var foreign := store.ForeignIds(entry.table, scope, entry.allIds);
      ForeignStays(pre, store.Contents(), scope, entry.table, foreign);
      if |foreign| == 0 { return; }
      var drop := Elements(foreign);
      parsed := parsed[i := Dropped(entry, drop).(allIds := DropIds(entry.allIds, drop))];
      rejected := Reject(rejected, entry.table, foreign);
      ForeignDropUnjudged(entry, tc, drop);
      ForeignDropKeepsPart(entry, tc, drop);
      RejectKeepsPartition(request, tables, refused, changes, i, foreign, parsed[i]);
      RejectAdds(refused, tables[i], foreign);
      DropIdsKeeps(entry.allIds, drop);
      ForeignIsCause(pre, scope, changes, refused, entry.table, foreign);
    }

    lemma ForeignIsCause(pre: Db, scope: string, changes: Changes, refused: Rejections, table: string, foreign: seq<string>)
      requires RejectedForCause(pre, scope, changes, refused)
      requires forall id :: id in foreign ==> ForeignTo(pre, scope, Key(table, id))
      ensures RejectedForCause(pre, scope, changes, Reject(refused, table, foreign))
    {
      RejectAdds(refused, table, foreign);
    }

    lemma ForeignStays(pre: Db, db: Db, scope: string, table: string, foreign: seq<string>)
      requires GcOnly(pre, db)
      requires forall id :: id in foreign ==> ForeignTo(db, scope, Key(table, id))
      ensures forall id :: id in foreign ==> ForeignTo(pre, scope, Key(table, id))
    {
      forall id | id in foreign ensures ForeignTo(pre, scope, Key(table, id)) {
        var k :| k in db.rows && k.scope != scope && k.key == Key(table, id);
        assert k in pre.rows;
      }
    }

    /** Conflict dominates: every id in play, even one a later check would reject. */
    method ScanForNewer(ghost pre: Db, scope: string, ghost changes: Changes, parsed: seq<Parsed>, ghost rejected: Rejections, since: nat)
      returns (newer: bool, revsByTable: RevsByTable)
      requires Judging(pre, scope, changes, parsed, rejected)
      requires AllOwned(pre, store.Contents(), scope, parsed, changes)
      modifies store`rows, store`floor
      ensures old(store.floor) <= store.floor
      ensures Judging(pre, scope, changes, parsed, rejected)
      ensures AllOwned(pre, store.Contents(), scope, parsed, changes)
      ensures newer ==> NamesNewer(Rules(), pre, store.Contents(), scope, changes, since)
      ensures !newer ==> AllSeen(store.Contents(), scope, parsed, since)
      ensures !newer ==> AllKnown(pre, store.Contents(), scope, parsed, revsByTable)
    {
      hide PartOf, Owned, Refusable, SeenBy, Known;
      newer, revsByTable := false, map[];
      var i := 0;
      while i < |parsed|
        invariant 0 <= i <= |parsed| && old(store.floor) <= store.floor
        invariant Judging(pre, scope, changes, parsed, rejected)
        invariant AllOwned(pre, store.Contents(), scope, parsed, changes)
        invariant AllSeen(store.Contents(), scope, parsed[..i], since)
        invariant AllKnown(pre, store.Contents(), scope, parsed[..i], revsByTable)
      {
        assert parsed[..i + 1] == parsed[..i] + [parsed[i]];
        ghost var before := store.Contents();
        var revs: map<string, nat>;
        newer, revs := ScanTable(pre, scope, changes, parsed, rejected, since, i);
        OwnedAfterGc(pre, before, store.Contents(), scope, parsed, changes);
        if newer { return; }
        SeenAfterGc(before, store.Contents(), scope, parsed[..i], since);
        KnownAfterGc(pre, before, store.Contents(), scope, parsed[..i], revsByTable);
        KnownElsewhere(pre, store.Contents(), scope, parsed[..i], revsByTable, parsed[i].table, revs);
        revsByTable := revsByTable[parsed[i].table := revs];
        i := i + 1;
      }
      assert parsed[..i] == parsed;
    }

    lemma KnownElsewhere(pre: Db, db: Db, scope: string, parsed: seq<Parsed>, revsByTable: RevsByTable, table: string, revs: map<string, nat>)
      requires AllKnown(pre, db, scope, parsed, revsByTable)
      requires forall j :: 0 <= j < |parsed| ==> parsed[j].table != table
      ensures AllKnown(pre, db, scope, parsed, revsByTable[table := revs])
    {
      forall j | 0 <= j < |parsed| ensures Known(pre, db, scope, parsed[j], RevsOf(revsByTable[table := revs], parsed[j].table)) {
        assert Known(pre, db, scope, parsed[j], RevsOf(revsByTable, parsed[j].table));
      }
    }

    method ScanTable(ghost pre: Db, scope: string, ghost changes: Changes, parsed: seq<Parsed>, ghost rejected: Rejections, since: nat, i: nat)
      returns (newer: bool, revs: map<string, nat>)
      requires Judging(pre, scope, changes, parsed, rejected) && i < |tables|
      requires AllOwned(pre, store.Contents(), scope, parsed, changes)
      modifies store`rows, store`floor
      ensures Judging(pre, scope, changes, parsed, rejected)
      ensures GcOnly(old(store.Contents()), store.Contents())
      ensures newer ==> NamesNewer(Rules(), pre, store.Contents(), scope, changes, since)
      ensures !newer ==> SeenBy(store.Contents(), scope, parsed[i], since)
      ensures Known(pre, store.Contents(), scope, parsed[i], revs)
    {
      var entry := parsed[i];
      newer, revs := false, map[];
      GcOnlyRefl(store.Contents());
      if |entry.allIds| == 0 { return; }
      Await();
      GcOnlyTrans(pre, old(store.Contents()), store.Contents());
      revs := store.CurrentRevs(entry.table, scope, entry.allIds);
      forall id | id in entry.allIds
        ensures id in revs <==> Entry(store.Contents(), scope, Key(entry.table, id)).Some?
        ensures id in revs ==> Entry(pre, scope, Key(entry.table, id)).Some?
      {
        GcOnlyEntry(pre, store.Contents(), RowKey(scope, Key(entry.table, id)));
      }
      if id :| id in revs && revs[id] > since {
        var k := RowKey(scope, Key(entry.table, id));
        GcOnlyEntry(pre, store.Contents(), k);
        OwnedAfterGc(pre, old(store.Contents()), store.Contents(), scope, parsed, changes);
        OwnedIsNative(pre, store.Contents(), scope, entry, ChangesFor(changes, entry.table), id);
        assert NewerNamed(Rules(), pre, store.Contents(), scope, changes, since, k);
        newer := true;
      }
    }

    // ----- refusals -----

    /** What holds from the conflict scan to the first write. */
    ghost predicate Judged(pre: Db, scope: string, changes: Changes, parsed: seq<Parsed>, rejected: Rejections,
                           since: nat, revs: RevsByTable)
      reads this, store
    {
      && Judging(pre, scope, changes, parsed, rejected)
      && AllOwned(pre, store.Contents(), scope, parsed, changes)
      && AllSeen(store.Contents(), scope, parsed, since)
      && AllKnown(pre, store.Contents(), scope, parsed, revs)
    }

    ghost predicate Refusals(pre: Db, scope: string, changes: Changes, p: Parsed, ids: seq<string>)
      reads this
    {
      forall id :: id in ids ==> id in p.allIds && Refusable(Rules(), pre, scope, changes, Key(p.table, id), hooks)
    }

    lemma InPlayIsNamed(p: Parsed, rejected: set<string>, tc: TableChanges, ids: seq<string>)
      requires PartOf(p, rejected, tc) && forall id :: id in ids ==> id in p.allIds
      ensures forall id :: id in ids ==> StatementFor(tc, id) != Silent
    {
    }

    /** Dropping ids with a cause from one table's share keeps everything judged so far. */
    lemma DropKeepsJudged(pre: Db, scope: string, changes: Changes, parsed: seq<Parsed>, rejected: Rejections,
                          since: nat, revs: RevsByTable, i: nat, ids: seq<string>)
      requires Judged(pre, scope, changes, parsed, rejected, since, revs) && i < |tables|
      requires Refusals(pre, scope, changes, parsed[i], ids)
      ensures Judged(pre, scope, changes, parsed[i := Dropped(parsed[i], Elements(ids))],
                     Reject(rejected, tables[i], ids), since, revs)
      ensures Shrunk(parsed[i := Dropped(parsed[i], Elements(ids))], parsed)
    {
      hide PartOf, Owned, SeenBy, Known, Refusable, GcOnly, ValidDb, StatementFor;
      var tc := ChangesFor(changes, tables[i]);
      var p := Dropped(parsed[i], Elements(ids));
      InPlayIsNamed(parsed[i], RejectedIn(rejected, tables[i]), tc, ids);
      DroppedKeepsPart(parsed[i], RejectedIn(rejected, tables[i]), tc, Elements(ids));
      RejectKeepsPartition(parsed, tables, rejected, changes, i, ids, p);
      RejectAdds(rejected, tables[i], ids);
      DropRowsKeeps(parsed[i].rows, Elements(ids));
      ShrunkCarries(pre, store.Contents(), scope, parsed, parsed[i := p], changes, since, revs);
    }

    lemma JudgedAfterGc(pre: Db, a: Db, scope: string, changes: Changes, parsed: seq<Parsed>, rejected: Rejections,
                        since: nat, revs: RevsByTable)
      requires Valid() && GcOnly(pre, a) && GcOnly(a, store.Contents())
      requires Partitioned(parsed, tables, rejected, changes) && RejectedForCause(pre, scope, changes, rejected)
      requires AllOwned(pre, a, scope, parsed, changes) && AllSeen(a, scope, parsed, since)
      requires AllKnown(pre, a, scope, parsed, revs)
      ensures Judged(pre, scope, changes, parsed, rejected, since, revs)
    {
      hide PartOf, Owned, SeenBy, Known, Refusable;
      GcOnlyTrans(pre, a, store.Contents());
      OwnedAfterGc(pre, a, store.Contents(), scope, parsed, changes);
      SeenAfterGc(a, store.Contents(), scope, parsed, since);
      KnownAfterGc(pre, a, store.Contents(), scope, parsed, revs);
    }

    ghost predicate AllValid(parsed: seq<Parsed>) {
      forall j, row :: 0 <= j < |parsed| && row in parsed[j].rows ==> Rules().valid(parsed[j].table, row)
    }

    method RejectInvalid(ghost pre: Db, scope: string, ghost changes: Changes, request: seq<Parsed>, refused: Rejections,
                         ghost since: nat, ghost revs: RevsByTable)
      returns (parsed: seq<Parsed>, rejected: Rejections)
      requires Judged(pre, scope, changes, request, refused, since, revs)
      requires AllUnjudged(request, changes)
      ensures Judged(pre, scope, changes, parsed, rejected, since, revs)
      ensures AllValid(parsed)
      ensures AllStanding(parsed, changes, Rules())
    {
      hide PartOf, Owned, SeenBy, Known, Refusable, Unjudged, Standing, StatementFor, Caused, GcOnly, ValidDb, AllOwned, AllSeen,
           AllKnown, Reject, DropRows, DropIds, AllValid;
      parsed, rejected := request, refused;
      var i := 0;
      while i < |parsed|
        invariant 0 <= i <= |parsed|
        invariant Judged(pre, scope, changes, parsed, rejected, since, revs)
        invariant AllStanding(parsed[..i], changes, Rules())
        invariant forall j :: i <= j < |parsed| ==> parsed[j] == request[j]
      {
        ghost var was := parsed;
        var entry := parsed[i];
        ghost var tc := ChangesFor(changes, entry.table);
        if entry.table !in validate {
          UncheckedStands(entry, tc);
        } else {
          var bad := InvalidIds(pre, scope, changes, parsed, rejected, i);
          if |bad| > 0 {
            DropKeepsJudged(pre, scope, changes, parsed, rejected, since, revs, i, bad);
            parsed := parsed[i := Dropped(entry, Elements(bad))];
            rejected := Reject(rejected, entry.table, bad);
          } else {
            assert Elements(bad) == {};
            DropNothing(entry);
          }
          InvalidDropStands(entry, tc, Rules(), bad);
        }
        assert parsed[..i + 1] == was[..i] + [parsed[i]];
        i := i + 1;
      }
      assert parsed[..i] == parsed;
      StandingIsValid(parsed, changes);
    }

    lemma StandingIsValid(parsed: seq<Parsed>, changes: Changes)
      requires AllStanding(parsed, changes, Rules())
      ensures AllValid(parsed)
    {
      hide StatementFor;
      forall j, row | 0 <= j < |parsed| && row in parsed[j].rows ensures Rules().valid(parsed[j].table, row) {
        assert Standing(parsed[j], ChangesFor(changes, parsed[j].table), Rules());
      }
    }

    lemma UncheckedStands(p: Parsed, tc: TableChanges)
      requires Unjudged(p, tc) && p.table !in validate
      ensures Standing(p, tc, Rules())
    {
    }

    method InvalidIds(ghost pre: Db, scope: string, ghost changes: Changes, parsed: seq<Parsed>, ghost rejected: Rejections, i: nat)
      returns (bad: seq<string>)
      requires Partitioned(parsed, tables, rejected, changes)
      requires i < |tables| && tables[i] in validate
      ensures Refusals(pre, scope, changes, parsed[i], bad)
      ensures forall row :: row in parsed[i].rows && IdOf(row) !in bad ==> Rules().valid(parsed[i].table, row)
      ensures forall id :: id in bad ==> exists row :: row in parsed[i].rows && IdOf(row) == id && !Rules().valid(parsed[i].table, row)
    {
      bad := [];
      var entry := parsed[i];
      for n := 0 to |entry.rows|
        invariant Refusals(pre, scope, changes, entry, bad)
        invariant forall row :: row in entry.rows[..n] && IdOf(row) !in bad ==> Rules().valid(entry.table, row)
        invariant forall id :: id in bad ==> exists row :: row in entry.rows && IdOf(row) == id && !Rules().valid(entry.table, row)
      {
        var row := entry.rows[n];
        assert entry.rows[..n + 1] == entry.rows[..n] + [row];
        if !validate[entry.table](row) {
          assert PartOf(entry, RejectedIn(rejected, tables[i]), ChangesFor(changes, tables[i]));
          assert IdOf(row) in RowIds(entry.rows);
          bad := bad + [IdOf(row)];
        }
      }
      assert entry.rows[..|entry.rows|] == entry.rows;
    }

    /**
     * A hook may only reject ids in play of a configured table; anything else
     * is a server bug. What it names is rejected and dropped, and nothing else.
     */
    method ApplyExtraRejections(ghost pre: Db, scope: string, ghost changes: Changes, request: seq<Parsed>, refused: Rejections,
                                ghost since: nat, ghost revs: RevsByTable, extra: Rejections)
      returns (ok: bool, parsed: seq<Parsed>, rejected: Rejections)
      requires Judged(pre, scope, changes, request, refused, since, revs)
      requires hooks.Some? && forall t, id :: id in RejectedIn(extra, t) ==> HookNames(hooks.value, Key(t, id))
      ensures Judged(pre, scope, changes, parsed, rejected, since, revs)
      ensures Shrunk(parsed, request)
      ensures ok <==> NamesInPlay(extra, IdsByTable(request))
      ensures ok ==> |parsed| == |request| == |tables|
      ensures ok ==> forall j :: 0 <= j < |tables| ==> parsed[j] == Dropped(request[j], RejectedIn(extra, tables[j]))
      ensures ok ==> forall t :: RejectedIn(rejected, t) == RejectedIn(refused, t) + RejectedIn(extra, t)
    {
      hide PartOf, Owned, SeenBy, Known, Dropped, StatementFor, Refusable, HookNames, Refusals, Caused, GcOnly, ValidDb, Reject,
           IdsByTable, Heeded, AllOwned, AllSeen, AllKnown, Partitioned;
      ok, parsed, rejected := true, request, refused;
      SharesTablesOf(request, refused, changes);
      var todo := extra.Keys;
      NothingHeeded(request, refused, extra);
      while todo != {}
        invariant todo <= extra.Keys
        invariant Judged(pre, scope, changes, parsed, rejected, since, revs) && Shrunk(parsed, request)
        invariant Heeded(request, parsed, refused, rejected, extra, todo)
        decreases |todo|
      {
        var table :| table in todo;
        ghost var before := todo;
        todo := todo - {table};
        var ids := extra[table];
        if |ids| == 0 {
          EmptyHeeded(request, parsed, refused, rejected, extra, before, table);
          continue;
        }
        var i, all := FindRequested(parsed, table, ids);
        if !all {
          ok := false;
          NotInPlay(request, extra, table);
          return;
        }
        NamedIsCause(pre, scope, changes, parsed[i], extra, ids);
        DropKeepsJudged(pre, scope, changes, parsed, rejected, since, revs, i, ids);
        MoreHeeded(request, parsed, refused, rejected, extra, before, i);
        ghost var was := parsed;
        rejected := Reject(rejected, table, ids);
        parsed := parsed[i := Dropped(parsed[i], Elements(ids))];
        ShrunkTrans(request, was, parsed);
      }
      AllHeeded(request, parsed, refused, rejected, extra);
    }

    /** The tables of the answer not in todo are done: all in play, dropped and rejected. */
    ghost predicate Heeded(request: seq<Parsed>, parsed: seq<Parsed>, refused: Rejections, rejected: Rejections,
                           extra: Rejections, todo: set<string>) {
      && |parsed| == |request| == |tables|
      && (forall t :: t in extra && t !in todo && |extra[t]| > 0 ==>
            exists j :: 0 <= j < |request| && request[j].table == t && RejectedIn(extra, t) <= Elements(request[j].allIds))
      && (forall j :: 0 <= j < |tables| ==> parsed[j] == Dropped(request[j], NamedOf(extra, todo, tables[j])))
      && (forall t :: RejectedIn(rejected, t) == RejectedIn(refused, t) + NamedOf(extra, todo, t))
    }

    lemma NothingHeeded(request: seq<Parsed>, refused: Rejections, extra: Rejections)
      requires |request| == |tables|
      ensures Heeded(request, request, refused, refused, extra, extra.Keys)
    {
      hide Dropped;
      DropNothings(request);
    }

    lemma EmptyHeeded(request: seq<Parsed>, parsed: seq<Parsed>, refused: Rejections, rejected: Rejections,
                      extra: Rejections, todo: set<string>, table: string)
      requires Heeded(request, parsed, refused, rejected, extra, todo) && table in extra && extra[table] == []
      ensures Heeded(request, parsed, refused, rejected, extra, todo - {table})
    {
      hide Dropped;
      forall t ensures NamedOf(extra, todo - {table}, t) == NamedOf(extra, todo, t) {
      }
    }

    lemma MoreHeeded(request: seq<Parsed>, parsed: seq<Parsed>, refused: Rejections, rejected: Rejections,
                     extra: Rejections, todo: set<string>, i: nat)
      requires Heeded(request, parsed, refused, rejected, extra, todo)
      requires InOrderOf(request, tables) && i < |tables| && tables[i] in extra && tables[i] in todo
      requires RejectedIn(extra, tables[i]) <= Elements(parsed[i].allIds) && parsed[i].allIds == request[i].allIds
      ensures var ids := extra[tables[i]];
              Heeded(request, parsed[i := Dropped(parsed[i], Elements(ids))], refused, Reject(rejected, tables[i], ids),
                     extra, todo - {tables[i]})
    {
      hide Dropped, Reject;
      var table, ids := tables[i], extra[tables[i]];
      RejectAdds(rejected, table, ids);
      DropOnce(request[i], NamedOf(extra, todo, table), Elements(ids));
      forall t ensures NamedOf(extra, todo - {table}, t) == if t == table then Elements(ids) else NamedOf(extra, todo, t) {
      }
    }

    lemma AllHeeded(request: seq<Parsed>, parsed: seq<Parsed>, refused: Rejections, rejected: Rejections, extra: Rejections)
      requires InOrderOf(request, tables) && Heeded(request, parsed, refused, rejected, extra, {})
      ensures NamesInPlay(extra, IdsByTable(request))
      ensures |parsed| == |request| == |tables|
      ensures forall j :: 0 <= j < |tables| ==> parsed[j] == Dropped(request[j], RejectedIn(extra, tables[j]))
      ensures forall t :: RejectedIn(rejected, t) == RejectedIn(refused, t) + RejectedIn(extra, t)
    {
      hide Dropped, IdsByTable;
      AllInPlay(request, extra);
    }

    /** What the answer names under the tables already handled. */
    ghost function NamedOf(extra: Rejections, todo: set<string>, table: string): set<string> {
      if table in todo then {} else RejectedIn(extra, table)
    }

    lemma NamedIsCause(pre: Db, scope: string, changes: Changes, p: Parsed, extra: Rejections, ids: seq<string>)
      requires p.table in extra && ids == extra[p.table] && forall id :: id in ids ==> id in p.allIds
      requires hooks.Some? && forall t, id :: id in RejectedIn(extra, t) ==> HookNames(hooks.value, Key(t, id))
      ensures Refusals(pre, scope, changes, p, ids)
    {
      hide HookNames;
      forall id | id in ids ensures Refusable(Rules(), pre, scope, changes, Key(p.table, id), hooks) {
        assert id in RejectedIn(extra, p.table);
      }
    }

    lemma DropNothings(request: seq<Parsed>)
      ensures forall j :: 0 <= j < |request| ==> Dropped(request[j], {}) == request[j]
    {
      forall j | 0 <= j < |request| ensures Dropped(request[j], {}) == request[j] {
        DropNothing(request[j]);
      }
    }

    lemma DropOnce(p: Parsed, none: set<string>, drop: set<string>)
      requires none == {}
      ensures Dropped(Dropped(p, none), drop) == Dropped(p, drop)
    {
      DropNothing(p);
    }

    lemma NotInPlay(request: seq<Parsed>, extra: Rejections, table: string)
      requires InOrderOf(request, tables)
      requires table in extra && |extra[table]| > 0
      requires forall j :: 0 <= j < |request| && request[j].table == table ==> exists id :: id in extra[table] && id !in request[j].allIds
      ensures !NamesInPlay(extra, IdsByTable(request))
    {
      hide RowsByTable, ChangesByTable, IdsByTable;
      OrderedTables(request, tables);
      ByTableKeys(request);
      if table in IdsByTable(request) {
        var p :| p in request && p.table == table;
        var j :| 0 <= j < |request| && request[j] == p;
        ByTableAt(request, j);
        var id :| id in extra[table] && id !in request[j].allIds;
        assert id in RejectedIn(extra, table) && id !in Elements(request[j].allIds);
      }
    }

    lemma AllInPlay(request: seq<Parsed>, extra: Rejections)
      requires InOrderOf(request, tables)
      requires forall t :: t in extra && |extra[t]| > 0 ==>
                 exists j :: 0 <= j < |request| && request[j].table == t && RejectedIn(extra, t) <= Elements(request[j].allIds)
      ensures NamesInPlay(extra, IdsByTable(request))
    {
      forall t | t in extra && |extra[t]| > 0
        ensures t in IdsByTable(request) && RejectedIn(extra, t) <= IdsByTable(request)[t]
      {
        ShareDecides(request, t, RejectedIn(extra, t));
      }
    }

    method FindRequested(parsed: seq<Parsed>, table: string, ids: seq<string>) returns (i: nat, all: bool)
      requires |parsed| == |tables| && forall j :: 0 <= j < |tables| ==> parsed[j].table == tables[j]
      requires DistinctTables(tables)
      ensures all ==> i < |parsed| && parsed[i].table == table && forall id :: id in ids ==> id in parsed[i].allIds
      ensures !all ==> forall j :: 0 <= j < |parsed| && parsed[j].table == table ==> exists id :: id in ids && id !in parsed[j].allIds
    {
      i := 0;
      while i < |parsed| && parsed[i].table != table
        invariant 0 <= i <= |parsed|
        invariant forall j :: 0 <= j < i ==> parsed[j].table != table
      {
        i := i + 1;
      }
      if i == |parsed| { return i, false; }
      for n := 0 to |ids|
        invariant forall id :: id in ids[..n] ==> id in parsed[i].allIds
      {
        assert ids[..n + 1] == ids[..n] + [ids[n]];
        if ids[n] !in parsed[i].allIds { return i, false; }
      }
      assert ids[..|ids|] == ids;
      all := true;
    }

    /**
     * Both hooks, in order, each shown what stands when it runs; false is a
     * hook naming what is not in play. What they name is rejected.
     */
    method RunHooks(ghost pre: Db, scope: string, ghost changes: Changes, request: seq<Parsed>, refused: Rejections,
                    ghost since: nat, ghost revs: RevsByTable)
      returns (ok: bool, parsed: seq<Parsed>, rejected: Rejections)
      requires Judged(pre, scope, changes, request, refused, since, revs)
      requires AllStanding(request, changes, Rules()) && hooks == None
      modifies this`hooks
      ensures Judged(pre, scope, changes, parsed, rejected, since, revs)
      ensures Shrunk(parsed, request)
      ensures hooks.Some? && hooks.value.db == store.Contents()
      ensures HooksAsked(Rules(), pre, scope, changes, hooks.value)
      ensures ok <==> !HooksFail(hooks.value)
      ensures ok ==> HooksHeeded(tables, rejected, hooks.value)
    {
      hide PartOf, Partitioned, GcOnly, ValidDb, Refusable, Owned, SeenBy, Known, RowsShown, ChangesShown, AllStanding,
           Caused, IdsByTable, RowsByTable, ChangesByTable, StatementFor, Dropped, AllOwned, AllSeen, AllKnown;
      ok, parsed, rejected := true, request, refused;
      ghost var blank := Hooks(store.Contents(), IdsByTable(request), RowsByTable(request), map[], map[], map[]);
      InPlayStated(pre, scope, changes, request, refused);
      RequestIsShown(Rules(), pre, scope, changes, request, blank);
      DropNothings(request);
      var rowsAnswer: Rejections := map[];
      if crossValidate.Some? {
        rowsAnswer := crossValidate.value(Db(store.rows, store.rev, store.floor), scope, RowsByTable(parsed));
        ghost var asked := blank.(rowsAnswer := rowsAnswer);
        CausesStay(Rules(), pre, scope, changes, refused, None, asked);
        SameShown(Rules(), pre, scope, changes, blank, asked);
        hooks := Some(asked);
        ok, parsed, rejected := ApplyExtraRejections(pre, scope, changes, parsed, rejected, since, revs, rowsAnswer);
        if !ok { return; }
      }
      ghost var left := blank.(rowsAnswer := rowsAnswer, left := ChangesByTable(parsed));
      LeftIsShown(Rules(), changes, request, parsed, left);
      if crossValidateChanges.Some? {
        ghost var was, before := parsed, rejected;
        var answer := crossValidateChanges.value(Db(store.rows, store.rev, store.floor), scope, ChangesByTable(parsed));
        ghost var asked := left.(changesAnswer := answer);
        CausesStay(Rules(), pre, scope, changes, rejected, hooks, asked);
        SameShown(Rules(), pre, scope, changes, blank, asked);
        SameLeft(Rules(), changes, left, asked);
        hooks := Some(asked);
        ok, parsed, rejected := ApplyExtraRejections(pre, scope, changes, parsed, rejected, since, revs, answer);
        ShrunkTrans(request, was, parsed);
        SameIds(request, was);
      } else {
        CausesStay(Rules(), pre, scope, changes, rejected, hooks, left);
        SameShown(Rules(), pre, scope, changes, blank, left);
        hooks := Some(left);
      }
    }

    lemma InPlayStated(pre: Db, scope: string, changes: Changes, parsed: seq<Parsed>, rejected: Rejections)
      requires DistinctTables(tables) && Partitioned(parsed, tables, rejected, changes)
      ensures InOrderOf(parsed, tables)
      ensures forall j :: 0 <= j < |parsed| ==>
                forall id :: id in parsed[j].allIds ==> StatementFor(ChangesFor(changes, parsed[j].table), id) != Silent
    {
      hide StatementFor;
      forall j | 0 <= j < |parsed|
        ensures forall id :: id in parsed[j].allIds ==> StatementFor(ChangesFor(changes, parsed[j].table), id) != Silent
      {
        assert PartOf(parsed[j], RejectedIn(rejected, tables[j]), ChangesFor(changes, tables[j]));
      }
    }

    lemma SameShown(config: Config, pre: Db, scope: string, changes: Changes, a: Hooks, b: Hooks)
      requires RowsShown(config, pre, scope, changes, a)
      requires b.db == a.db && b.inPlay == a.inPlay && b.rows == a.rows
      ensures RowsShown(config, pre, scope, changes, b)
    {
      hide StatementFor, ForeignTo;
      forall t | t in config.tables
        ensures InPlay(pre, scope, ChangesFor(changes, t), b, t) && ShownRows(config, ChangesFor(changes, t), b, t)
      {
        assert InPlay(pre, scope, ChangesFor(changes, t), a, t);
      }
    }

    lemma SameLeft(config: Config, changes: Changes, a: Hooks, b: Hooks)
      requires ChangesShown(config, changes, a)
      requires b == a.(changesAnswer := b.changesAnswer)
      ensures ChangesShown(config, changes, b)
    {
      hide StatementFor;
      forall t | t in config.tables ensures ShownChanges(ChangesFor(changes, t), b, t) {
        assert ShownChanges(ChangesFor(changes, t), a, t);
      }
    }

    lemma SameIds(a: seq<Parsed>, b: seq<Parsed>)
      requires Shrunk(b, a)
      ensures IdsByTable(b) == IdsByTable(a)
      decreases |a|
    {
      if |a| > 0 { SameIds(a[..|a| - 1], b[..|b| - 1]); }
    }

    /** Writes that would silently no-op must be visible in rejected. */
    method RejectDead(ghost pre: Db, scope: string, ghost changes: Changes, request: seq<Parsed>, refused: Rejections,
                      ghost since: nat, revs: RevsByTable)
      returns (parsed: seq<Parsed>, rejected: Rejections)
      requires Judged(pre, scope, changes, request, refused, since, revs)
      modifies store`rows, store`floor
      ensures old(store.floor) <= store.floor
      ensures Judged(pre, scope, changes, parsed, rejected, since, revs)
      ensures Shrunk(parsed, request)
      ensures AllLandable(pre, scope, parsed)
      ensures Grew(refused, rejected)
    {
      hide PartOf, Partitioned, Owned, SeenBy, Known, Refusable, Landable, LandableBut, GcOnly, ValidDb, RejectedForCause, Reject, Dropped;
      parsed, rejected := request, refused;
      var i := 0;
      while i < |parsed|
        invariant 0 <= i <= |parsed| && old(store.floor) <= store.floor
        invariant Judged(pre, scope, changes, parsed, rejected, since, revs)
        invariant Shrunk(parsed, request)
        invariant AllLandable(pre, scope, parsed[..i])
        invariant Grew(refused, rejected)
      {
        ghost var was := parsed;
        ghost var before := store.Contents();
        SharesTablesOf(parsed, rejected, changes);
        var drop := DeadIds(pre, scope, changes, parsed, rejected, since, revs, i);
        LandableAfterGc(pre, before.floor, scope, parsed[..i]);
        if |drop| > 0 {
          DropKeepsJudged(pre, scope, changes, parsed, rejected, since, revs, i, drop);
          RejectAdds(rejected, parsed[i].table, drop);
          rejected := Reject(rejected, parsed[i].table, drop);
          parsed := parsed[i := Dropped(parsed[i], Elements(drop))];
          ShrunkTrans(request, was, parsed);
        }
        DropIsLandable(pre, scope, was[i], drop);
        assert parsed[..i + 1] == was[..i] + [parsed[i]];
        i := i + 1;
      }
      assert parsed[..i] == parsed;
    }

    ghost predicate AllLandable(pre: Db, scope: string, parsed: seq<Parsed>)
      reads store
    {
      forall j :: 0 <= j < |parsed| ==> Landable(pre, store.floor, scope, parsed[j], parsed[j].table in appendOnly)
    }

    lemma LandableAfterGc(pre: Db, floor: nat, scope: string, parsed: seq<Parsed>)
      requires floor <= store.floor
      requires forall j :: 0 <= j < |parsed| ==> Landable(pre, floor, scope, parsed[j], parsed[j].table in appendOnly)
      ensures AllLandable(pre, scope, parsed)
    {
    }

    /** Every row outside drop aims at something it may replace. */
    ghost predicate LandableBut(pre: Db, floor: nat, scope: string, p: Parsed, drop: set<string>, once: bool) {
      forall row :: row in p.rows && IdOf(row) !in drop ==>
        var e := PrunedEntry(Entry(pre, scope, Key(p.table, IdOf(row))), floor);
        e.Some? ==> !e.value.deleted && !once
    }

    lemma DropIsLandable(pre: Db, scope: string, p: Parsed, drop: seq<string>)
      requires LandableBut(pre, store.floor, scope, p, Elements(drop), p.table in appendOnly)
      ensures Landable(pre, store.floor, scope, Dropped(p, Elements(drop)), p.table in appendOnly)
      ensures |drop| == 0 ==> Landable(pre, store.floor, scope, p, p.table in appendOnly)
    {
      DropRowsKeeps(p.rows, Elements(drop));
    }

    method DeadIds(ghost pre: Db, scope: string, ghost changes: Changes, parsed: seq<Parsed>, ghost rejected: Rejections,
                   ghost since: nat, revs: RevsByTable, i: nat)
      returns (drop: seq<string>)
      requires Judged(pre, scope, changes, parsed, rejected, since, revs) && i < |tables|
      modifies store`rows, store`floor
      ensures Judged(pre, scope, changes, parsed, rejected, since, revs)
      ensures store.floor >= old(store.floor)
      ensures Refusals(pre, scope, changes, parsed[i], drop)
      ensures LandableBut(pre, store.floor, scope, parsed[i], Elements(drop), parsed[i].table in appendOnly)
    {
      hide Owned, SeenBy, Refusable, GcOnly, PartOf, Caused, ValidDb, StatementFor;
      drop := [];
      var entry := parsed[i];
      if |entry.rows| == 0 { return; }
      Await();
      JudgedAfterGc(pre, old(store.Contents()), scope, changes, parsed, rejected, since, revs);
      var ids := IdsOf(entry.rows);
      var dead := store.TombstonedIds(entry.table, scope, ids);
      assert PartOf(entry, RejectedIn(rejected, tables[i]), ChangesFor(changes, tables[i]));
      drop := dead;
      DeadIsCause(pre, scope, changes, entry, dead);
      KnownIsCause(pre, scope, changes, entry, RejectedIn(rejected, tables[i]), RevsOf(revs, entry.table));
      if entry.table in appendOnly {
        var known := RevsOf(revs, entry.table);
        assert Known(pre, store.Contents(), scope, entry, known);
        for n := 0 to |entry.rows|
          invariant Refusals(pre, scope, changes, entry, drop)
          invariant forall id :: id in dead ==> id in drop
          invariant forall row :: row in entry.rows[..n] && IdOf(row) in known ==> IdOf(row) in drop
        {
          var row := entry.rows[n];
          assert entry.rows[..n + 1] == entry.rows[..n] + [row];
          assert row in entry.rows;
          if IdOf(row) in known { drop := drop + [IdOf(row)]; }
        }
        assert entry.rows[..|entry.rows|] == entry.rows;
      }
      forall row | row in entry.rows && IdOf(row) !in Elements(drop)
        ensures var e := PrunedEntry(Entry(pre, scope, Key(entry.table, IdOf(row))), store.floor);
                e.Some? ==> !e.value.deleted && entry.table !in appendOnly
      {
        GcOnlyEntry(pre, store.Contents(), RowKey(scope, Key(entry.table, IdOf(row))));
        assert IdOf(row) in RowIds(entry.rows);
      }
    }

    /** A row of an append-only table whose id the scan found stored. */
    lemma KnownIsCause(pre: Db, scope: string, changes: Changes, p: Parsed, rejected: set<string>, revs: map<string, nat>)
      requires PartOf(p, rejected, ChangesFor(changes, p.table)) && Known(pre, store.Contents(), scope, p, revs)
      ensures forall row :: row in p.rows ==> IdOf(row) in p.allIds
      ensures p.table in appendOnly ==>
                forall row :: row in p.rows && IdOf(row) in revs ==> Refusable(Rules(), pre, scope, changes, Key(p.table, IdOf(row)), hooks)
    {
      forall row | row in p.rows ensures IdOf(row) in p.allIds {
        assert IdOf(row) in RowIds(p.rows);
      }
    }

    lemma DeadIsCause(pre: Db, scope: string, changes: Changes, p: Parsed, dead: seq<string>)
      requires Valid() && GcOnly(pre, store.Contents())
      requires PartOf(p, {}, ChangesFor(changes, p.table)) || exists r :: PartOf(p, r, ChangesFor(changes, p.table))
      requires forall id :: id in dead ==>
                 id in RowIds(p.rows) && RowKey(scope, Key(p.table, id)) in store.rows && store.rows[RowKey(scope, Key(p.table, id))].deleted
      ensures Refusals(pre, scope, changes, p, dead)
    {
      forall id | id in dead ensures id in p.allIds && Refusable(Rules(), pre, scope, changes, Key(p.table, id), hooks) {
        var row :| row in p.rows && IdOf(row) == id;
        assert StatementFor(ChangesFor(changes, p.table), id) == Upserts(row);
        GcOnlyEntry(pre, store.Contents(), RowKey(scope, Key(p.table, id)));
      }
    }

    // ----- writes -----

    /** What holds while the accepted statements are being written. */
    ghost predicate Writing(pre: Db, scope: string, changes: Changes, parsed: seq<Parsed>, kept: seq<Parsed>,
                            rejected: Rejections, said: Said, rows: nat, deletes: nat)
      reads this, store
    {
      && Valid()
      && Wrote(pre, store.Contents(), said)
      && Partitioned(kept, tables, rejected, changes)
      && RejectedForCause(pre, scope, changes, rejected)
      && rows <= |kept| && deletes <= |kept|
      && SaysFirst(said, scope, kept, rows, deletes, changes)
      && SharesShape(parsed, kept)
    }

    /** The request's shares and the shares that survive storage refusals. */
    ghost predicate SharesShape(parsed: seq<Parsed>, kept: seq<Parsed>) {
      && |parsed| == |kept|
      && forall j :: 0 <= j < |kept| ==>
           && parsed[j].table == kept[j].table
           && parsed[j].deletes == kept[j].deletes
           && RowIds(kept[j].rows) <= RowIds(parsed[j].rows)
    }

    ghost predicate AllAccepted(kept: seq<Parsed>, n: nat)
      requires n <= |kept|
    {
      forall j, row :: 0 <= j < n && row in kept[j].rows ==> !store.refuses(kept[j].table, row)
    }

    method ApplyRows(ghost pre: Db, scope: string, ghost changes: Changes, request: seq<Parsed>, refused: Rejections)
      returns (parsed: seq<Parsed>, rejected: Rejections, ghost kept: seq<Parsed>, ghost said: Said)
      requires Judging(pre, scope, changes, request, refused)
      requires ValidDb(pre) && AllLandable(pre, scope, request)
      modifies store
      ensures Writing(pre, scope, changes, parsed, kept, rejected, said, |kept|, 0)
      ensures AllAccepted(kept, |kept|)
      ensures Shrunk(kept, request)
      ensures NamesSame(parsed, rejected, changes)
      ensures Grew(refused, rejected)
      ensures old(store.floor) <= store.floor
    {
      hide PartOf, Refusable, EntryAfter, Landable, ValidDb, Wrote, GcOnly, StatementFor;
      parsed, rejected := request, refused;
      kept, said := request, map[];
      WroteNothing(store.Contents());
      GcThenWrote(pre, store.Contents(), store.Contents(), map[]);
      var i := 0;
      while i < |parsed|
        invariant 0 <= i <= |parsed|
        invariant Writing(pre, scope, changes, parsed, kept, rejected, said, i, 0)
        invariant old(store.floor) <= store.floor
        invariant AllLandable(pre, scope, request)
        invariant AllAccepted(kept, i)
        invariant Shrunk(kept, request)
        invariant forall j :: i <= j < |parsed| ==> parsed[j] == kept[j] == request[j]
        invariant NamesFirst(parsed, rejected, changes, i)
        invariant Grew(refused, rejected)
      {
        parsed, rejected, kept, said := ApplyRowsIn(pre, scope, changes, request, parsed, rejected, kept, said, i);
        i := i + 1;
      }
    }

    /** Rows, deletions and rejections together still name what the change set names. */
    ghost predicate NamesFirst(parsed: seq<Parsed>, rejected: Rejections, changes: Changes, n: nat)
      requires n <= |parsed|
    {
      forall j :: 0 <= j < n ==>
        forall id :: StatementFor(ChangesFor(changes, parsed[j].table), id) != Silent
          <==> id in RowIds(parsed[j].rows) || id in parsed[j].deletes || id in RejectedIn(rejected, parsed[j].table)
    }

    ghost predicate NamesSame(parsed: seq<Parsed>, rejected: Rejections, changes: Changes) {
      NamesFirst(parsed, rejected, changes, |parsed|)
    }

    method ApplyRowsIn(ghost pre: Db, scope: string, ghost changes: Changes, ghost request: seq<Parsed>,
                       shares: seq<Parsed>, refused: Rejections, ghost standing: seq<Parsed>, ghost saying: Said, i: nat)
      returns (parsed: seq<Parsed>, rejected: Rejections, ghost kept: seq<Parsed>, ghost said: Said)
      requires i < |shares|
      requires Writing(pre, scope, changes, shares, standing, refused, saying, i, 0)
      requires AllLandable(pre, scope, request) && |request| == |shares|
      requires AllAccepted(standing, i) && Shrunk(standing, request)
      requires forall j :: i <= j < |shares| ==> shares[j] == standing[j] == request[j]
      requires NamesFirst(shares, refused, changes, i)
      modifies store
      ensures Writing(pre, scope, changes, parsed, kept, rejected, said, i + 1, 0)
      ensures AllLandable(pre, scope, request)
      ensures AllAccepted(kept, i + 1) && Shrunk(kept, request)
      ensures |parsed| == |shares|
      ensures forall j :: i < j < |parsed| ==> parsed[j] == kept[j] == request[j]
      ensures NamesFirst(parsed, rejected, changes, i + 1)
      ensures Grew(refused, rejected)
      ensures old(store.floor) <= store.floor
    {
      hide PartOf, Partitioned, Refusable, EntryAfter, Landable, Wrote, PutRows, SaysFirst, DropRows, ValidDb, GcOnly,
           StatementFor, SharesShape, Shrunk, AllAccepted, RejectedForCause, Reject;
      StandingShape(shares, standing, refused, changes);
      var entry := shares[i];
      parsed, rejected := shares, refused;
      var refusedIds: seq<string> := [];
      if |entry.rows| > 0 {
        refusedIds := PutNext(pre, scope, changes, shares, refused, standing, saying, i);
        LandableAfterGc(pre, old(store.floor), scope, request);
      } else {
        NothingPut(scope, entry, saying);
      }
      ghost var gone := Elements(refusedIds);
      kept := standing[i := Dropped(entry, gone)];
      said := saying + SaidRows(scope, entry.table, DropRows(entry.rows, gone));
      RowsPut(pre, scope, changes, standing, refused, saying, i, refusedIds);
      ShrunkTrans(request, standing, kept);
      if |refusedIds| > 0 {
        RejectAdds(refused, tables[i], refusedIds);
        rejected := Reject(refused, entry.table, refusedIds);
        parsed := parsed[i := entry.(deletes := DropIds(entry.deletes, Elements(refusedIds)))];
      } else {
        assert gone == {};
        DropNothing(entry);
      }
      ShapeNext(shares, parsed, standing, kept, i);
      NamesNext(shares, parsed, refused, rejected, changes, i);
    }

    lemma StandingShape(parsed: seq<Parsed>, kept: seq<Parsed>, rejected: Rejections, changes: Changes)
      requires Partitioned(kept, tables, rejected, changes) && SharesShape(parsed, kept)
      ensures |parsed| == |kept| == |tables|
      ensures forall j :: 0 <= j < |tables| ==> parsed[j].table == kept[j].table == tables[j]
    {
    }

    lemma NothingPut(scope: string, p: Parsed, said: Said)
      requires |p.rows| == 0
      ensures said + SaidRows(scope, p.table, DropRows(p.rows, Elements([]))) == said
      ensures RefusedBy(Elements([]), p.table, p.rows, store.refuses)
    {
    }

    lemma ShapeNext(shares: seq<Parsed>, parsed: seq<Parsed>, standing: seq<Parsed>, kept: seq<Parsed>, i: nat)
      requires SharesShape(shares, standing) && |parsed| == |shares| && |kept| == |standing| && i < |shares|
      requires forall j :: 0 <= j < |shares| && j != i ==> parsed[j] == shares[j] && kept[j] == standing[j]
      requires parsed[i].table == kept[i].table && parsed[i].deletes == kept[i].deletes
      requires RowIds(kept[i].rows) <= RowIds(parsed[i].rows)
      ensures SharesShape(parsed, kept)
    {
    }

    method PutNext(ghost pre: Db, scope: string, ghost changes: Changes, shares: seq<Parsed>, ghost rejected: Rejections,
                   ghost standing: seq<Parsed>, ghost said: Said, i: nat)
      returns (refusedIds: seq<string>)
      requires i < |shares| && Writing(pre, scope, changes, shares, standing, rejected, said, i, 0)
      requires shares[i] == standing[i]
      requires Landable(pre, store.floor, scope, shares[i], shares[i].table in appendOnly)
      modifies store
      ensures Valid() && store.floor >= old(store.floor)
      ensures Wrote(pre, store.Contents(), said + SaidRows(scope, shares[i].table, DropRows(shares[i].rows, Elements(refusedIds))))
      ensures RefusedBy(Elements(refusedIds), shares[i].table, shares[i].rows, store.refuses)
    {
      hide PartOf, Refusable, EntryAfter, Landable, Wrote, PutRows, SaysFirst, SaidRows, DropRows, ValidDb, GcOnly;
      var entry := shares[i];
      RowsAreDistinct(changes, standing, rejected, i);
      Await();
      WroteThenGc(pre, old(store.Contents()), store.Contents(), said);
      ghost var mid := store.Contents();
      LandableLater(pre, old(store.floor), store.floor, scope, standing[i], standing[i].table in appendOnly);
      NextIsWritable(pre, scope, changes, standing, rejected, said, i);
      refusedIds := store.Upsert(entry.table, scope, entry.rows);
      PutKeepsValid(mid, scope, entry.table, entry.rows, store.refuses);
      WroteThenPut(pre, mid, said, scope, entry.table, entry.rows, store.refuses, Elements(refusedIds));
    }

    lemma RowsAreDistinct(changes: Changes, shares: seq<Parsed>, rejected: Rejections, i: nat)
      requires Partitioned(shares, tables, rejected, changes) && i < |shares|
      ensures DistinctIds(shares[i].rows)
    {
      assert PartOf(shares[i], RejectedIn(rejected, tables[i]), ChangesFor(changes, tables[i]));
    }

    /** The bookkeeping after one table's rows went in. */
    lemma RowsPut(pre: Db, scope: string, changes: Changes, standing: seq<Parsed>, refused: Rejections, saying: Said, i: nat,
                  refusedIds: seq<string>)
      requires DistinctTables(tables) && Partitioned(standing, tables, refused, changes) && i < |standing|
      requires RejectedForCause(pre, scope, changes, refused)
      requires SaysFirst(saying, scope, standing, i, 0, changes)
      requires AllAccepted(standing, i)
      requires RefusedBy(Elements(refusedIds), standing[i].table, standing[i].rows, store.refuses)
      ensures var entry := standing[i];
              var gone := Elements(refusedIds);
              var kept := standing[i := Dropped(entry, gone)];
              var rejected := if |refusedIds| > 0 then Reject(refused, entry.table, refusedIds) else refused;
              && Partitioned(kept, tables, rejected, changes)
              && RejectedForCause(pre, scope, changes, rejected)
              && SaysFirst(saying + SaidRows(scope, entry.table, DropRows(entry.rows, gone)), scope, kept, i + 1, 0, changes)
              && AllAccepted(kept, i + 1)
              && Shrunk(kept, standing)
              && RowIds(kept[i].rows) <= RowIds(entry.rows)
              && RowIds(entry.rows) <= RowIds(kept[i].rows) + RejectedIn(rejected, entry.table)
              && (forall id :: StatementFor(ChangesFor(changes, entry.table), id) != Silent
                    <==> id in RowIds(entry.rows) || id in kept[i].deletes || id in RejectedIn(rejected, entry.table))
    {
      hide Refusable, Caused, SaidRows, SaysFirst, StatementFor, DropRows, DropIds, Reject;
      var entry := standing[i];
      var tc := ChangesFor(changes, tables[i]);
      var gone := Elements(refusedIds);
      assert PartOf(entry, RejectedIn(refused, tables[i]), tc);
      DropRowsKeeps(entry.rows, gone);
      DropIdsKeeps(entry.deletes, gone);
      RefusedAreRows(entry, refusedIds);
      DroppedKeepsPart(entry, RejectedIn(refused, tables[i]), tc, gone);
      SaysMoreRows(saying, scope, standing, tables, i, changes, Dropped(entry, gone));
      if |refusedIds| > 0 {
        RefusedIsCause(pre, scope, changes, refused, entry, refusedIds);
        RejectKeepsPartition(standing, tables, refused, changes, i, refusedIds, Dropped(entry, gone));
        RejectAdds(refused, tables[i], refusedIds);
      } else {
        assert gone == {};
        DropNothing(entry);
        assert standing[i := entry] == standing;
      }
    }

    lemma RefusedAreRows(p: Parsed, refusedIds: seq<string>)
      requires RefusedBy(Elements(refusedIds), p.table, p.rows, store.refuses)
      ensures Elements(refusedIds) <= RowIds(p.rows)
      ensures forall row :: row in DropRows(p.rows, Elements(refusedIds)) ==> !store.refuses(p.table, row)
      ensures forall id :: id in refusedIds <==> exists row :: row in p.rows && IdOf(row) == id && store.refuses(p.table, row)
    {
      assert forall id :: id in refusedIds <==> id in Elements(refusedIds);
      DropRowsKeeps(p.rows, Elements(refusedIds));
    }

    lemma NamesNext(shares: seq<Parsed>, parsed: seq<Parsed>, refused: Rejections, rejected: Rejections, changes: Changes, i: nat)
      requires |parsed| == |shares| == |tables| && i < |shares|
      requires NamesFirst(shares, refused, changes, i)
      requires forall j :: 0 <= j < i ==> parsed[j] == shares[j] && RejectedIn(rejected, parsed[j].table) == RejectedIn(refused, parsed[j].table)
      requires forall id :: StatementFor(ChangesFor(changes, parsed[i].table), id) != Silent
                 <==> id in RowIds(parsed[i].rows) || id in parsed[i].deletes || id in RejectedIn(rejected, parsed[i].table)
      ensures NamesFirst(parsed, rejected, changes, i + 1)
    {
    }

    lemma NextIsWritable(pre: Db, scope: string, changes: Changes, kept: seq<Parsed>, rejected: Rejections, said: Said, i: nat)
      requires Valid() && Wrote(pre, store.Contents(), said)
      requires Partitioned(kept, tables, rejected, changes) && i < |kept|
      requires SaysFirst(said, scope, kept, i, 0, changes)
      requires Landable(pre, store.floor, scope, kept[i], kept[i].table in appendOnly)
      ensures Writable(store.Contents(), said, scope, kept[i].table, RowIds(kept[i].rows))
    {
      forall id | id in RowIds(kept[i].rows)
        ensures var k := RowKey(scope, Key(kept[i].table, id)); k !in said && !(k in store.rows && store.rows[k].deleted)
      {
        LaterTableUnsaid(said, scope, kept, tables, i, 0, changes, i, id);
        var row :| row in kept[i].rows && IdOf(row) == id;
        var k := RowKey(scope, Key(kept[i].table, id));
        assert EntryAfter(Lookup(pre.rows, k), Lookup(store.Contents().rows, k), SaidOf(said, k), pre.rev, store.floor);
      }
    }

    lemma RefusedIsCause(pre: Db, scope: string, changes: Changes, rejected: Rejections, p: Parsed, refused: seq<string>)
      requires RejectedForCause(pre, scope, changes, rejected)
      requires forall row :: row in p.rows ==> StatementFor(ChangesFor(changes, p.table), IdOf(row)) == Upserts(row)
      requires forall id :: id in refused <==> exists row :: row in p.rows && IdOf(row) == id && store.refuses(p.table, row)
      ensures RejectedForCause(pre, scope, changes, Reject(rejected, p.table, refused))
      ensures forall id :: id in refused ==> StatementFor(ChangesFor(changes, p.table), id) != Silent
    {
      RejectAdds(rejected, p.table, refused);
      forall id | id in refused
        ensures Refusable(Rules(), pre, scope, changes, Key(p.table, id), hooks)
        ensures StatementFor(ChangesFor(changes, p.table), id) != Silent
      {
        var row :| row in p.rows && IdOf(row) == id && store.refuses(p.table, row);
      }
    }

    method ApplyDeletes(ghost pre: Db, scope: string, ghost changes: Changes, parsed: seq<Parsed>, ghost rejected: Rejections,
                        ghost kept: seq<Parsed>, ghost saidRows: Said)
      returns (ghost said: Said)
      requires Writing(pre, scope, changes, parsed, kept, rejected, saidRows, |kept|, 0)
      modifies store
      ensures Writing(pre, scope, changes, parsed, kept, rejected, said, |kept|, |kept|)
      ensures old(store.floor) <= store.floor
    {
      hide PartOf, Refusable, EntryAfter;
      said := saidRows;
      var i := 0;
      while i < |parsed|
        invariant 0 <= i <= |parsed|
        invariant Writing(pre, scope, changes, parsed, kept, rejected, said, |kept|, i)
        invariant old(store.floor) <= store.floor
      {
        if |parsed[i].deletes| > 0 {
          KillNext(pre, scope, changes, parsed, rejected, kept, said, i);
        } else {
          assert SaidDeletes(scope, kept[i].table, kept[i].deletes) == map[];
          assert said + map[] == said;
        }
        DeletesSay(changes, kept, rejected, i);
        SaysMoreDeletes(said, scope, kept, tables, i, changes);
        said := said + SaidDeletes(scope, kept[i].table, kept[i].deletes);
        i := i + 1;
      }
    }

    lemma DeletesSay(changes: Changes, kept: seq<Parsed>, rejected: Rejections, i: nat)
      requires Partitioned(kept, tables, rejected, changes) && i < |kept|
      ensures forall id :: id in kept[i].deletes ==>
                StatementFor(ChangesFor(changes, kept[i].table), id) == Deletes && id !in RowIds(kept[i].rows)
    {
      assert PartOf(kept[i], RejectedIn(rejected, tables[i]), ChangesFor(changes, tables[i]));
    }

    method KillNext(ghost pre: Db, scope: string, ghost changes: Changes, parsed: seq<Parsed>, ghost rejected: Rejections,
                    ghost kept: seq<Parsed>, ghost said: Said, i: nat)
      requires i < |parsed| && Writing(pre, scope, changes, parsed, kept, rejected, said, |kept|, i)
      modifies store
      ensures Valid() && old(store.floor) <= store.floor
      ensures Wrote(pre, store.Contents(), said + SaidDeletes(scope, kept[i].table, kept[i].deletes))
    {
      hide PartOf, Refusable, EntryAfter, Wrote, KillRows, SaysFirst, SaidDeletes, ValidDb, GcOnly;
      var entry := parsed[i];
      Await();
      ghost var mid := store.Contents();
      WroteThenGc(pre, old(store.Contents()), mid, said);
      DeletesSay(changes, kept, rejected, i);
      forall id | id in entry.deletes ensures RowKey(scope, Key(entry.table, id)) !in said {
        LaterTableUnsaid(said, scope, kept, tables, |kept|, i, changes, i, id);
      }
      store.Tombstone(entry.table, scope, entry.deletes);
      KillKeepsValid(mid, scope, entry.table, entry.deletes);
      WroteThenKill(pre, mid, said, scope, entry.table, entry.deletes);
    }

    // ----- replies -----

    /** Every configured table's window, each table read at its own moment. */
    method CollectSince(scope: string, since: nat) returns (byTable: map<string, seq<StoredChange>>)
      requires Valid()
      modifies store`rows, store`floor
      ensures Valid() && GcOnly(old(store.Contents()), store.Contents())
      ensures byTable.Keys == (set t | t in tables)
      ensures forall t :: t in byTable ==> ListsOnce(byTable[t])
      ensures store.floor <= since ==>
                forall t :: t in byTable ==> ListsWindow(byTable[t], store.Contents(), scope, t, since)
    {
      hide ListsWindow, ListsOnce, GcOnly, ValidDb;
      byTable := map[];
      GcOnlyRefl(store.Contents());
      for i := 0 to |tables|
        invariant Valid() && GcOnly(old(store.Contents()), store.Contents())
        invariant byTable.Keys == (set t | t in tables[..i])
        invariant forall t :: t in byTable ==> ListsOnce(byTable[t])
        invariant store.floor <= since ==>
                    forall t :: t in byTable ==> ListsWindow(byTable[t], store.Contents(), scope, t, since)
      {
        assert tables[..i + 1] == tables[..i] + [tables[i]];
        ghost var before := store.Contents();
        Await();
        GcOnlyTrans(old(store.Contents()), before, store.Contents());
        forall t | t in byTable && store.floor <= since ensures ListsWindow(byTable[t], store.Contents(), scope, t, since) {
          WindowAfterGc(byTable[t], before, store.Contents(), scope, t, since);
        }
        var changes := store.ChangedSince(tables[i], scope, since);
        WindowListsOnce(changes, store.Contents(), scope, tables[i], since);
        byTable := byTable[tables[i] := changes];
      }
      assert tables[..|tables|] == tables;
    }

    /** A pull runs in one snapshot: no gc between its reads. */
    method CollectSnapshot(scope: string, since: nat) returns (byTable: map<string, seq<StoredChange>>)
      requires Valid()
      ensures byTable.Keys == (set t | t in tables)
      ensures forall t :: t in byTable ==> ListsOnce(byTable[t]) && ListsWindow(byTable[t], store.Contents(), scope, t, since)
    {
      hide ListsWindow, ListsOnce, ValidDb;
      byTable := map[];
      for i := 0 to |tables|
        invariant byTable.Keys == (set t | t in tables[..i])
        invariant forall t :: t in byTable ==> ListsOnce(byTable[t]) && ListsWindow(byTable[t], store.Contents(), scope, t, since)
      {
        assert tables[..i + 1] == tables[..i] + [tables[i]];
        var changes := store.ChangedSince(tables[i], scope, since);
        WindowListsOnce(changes, store.Contents(), scope, tables[i], since);
        byTable := byTable[tables[i] := changes];
      }
      assert tables[..|tables|] == tables;
    }

    method Pull(scope: string, args: PullArgs) returns (reply: PullReply)
      requires Valid()
      ensures PullContract(store.Contents(), scope, tables, args, reply)
    {
      hide ListsWindow, ListsOnce, WellFormedDelivery, ValidDb;
      var full := args.cursor.None?;
      var decoded := if full then Some(0) else DecodeCursor(args.cursor.value);
      var floor := store.floor;
      var max := store.MaxRev(scope);
      var effMax := if max > floor then max else floor;
      assert IsEffectiveMax(store.Contents(), scope, effMax);
      if decoded.None? || (!full && (decoded.value < floor || decoded.value > effMax)) {
        reply := ResyncRequired;
        assert PullAnswers(store.Contents(), scope, tables, args, reply, effMax);
        return;
      }
      var since := decoded.value;
      var effectiveSince := if args.migration then 0 else since;
      var byTable := CollectSnapshot(scope, effectiveSince);
      var changes := ToChanges(byTable, map[]);
      reply := Pulled(changes, EncodeCursor(if since > effMax then since else effMax));
      forall t | t in tables
        ensures WellFormedDelivery(changes[t])
        ensures forall id :: StatementFor(changes[t], id) == WindowStatement(store.Contents(), scope, Key(t, id), effectiveSince)
      {
        assert Delivers(changes[t], byTable[t], {});
        forall id ensures StatementFor(changes[t], id) == WindowStatement(store.Contents(), scope, Key(t, id), effectiveSince) {
          WindowListed(byTable[t], store.Contents(), scope, t, effectiveSince, {}, id);
        }
      }
      assert PullAnswers(store.Contents(), scope, tables, args, reply, effMax);
    }

    /** The ids the reply leaves out: everything this push named, table by table. */
    method RequestedIds(parsed: seq<Parsed>, rejected: Rejections, ghost changes: Changes) returns (requested: map<string, set<string>>)
      requires |parsed| == |tables| && forall j :: 0 <= j < |tables| ==> parsed[j].table == tables[j]
      requires DistinctTables(tables) && NamesSame(parsed, rejected, changes)
      ensures forall t :: t in tables ==> t in requested
      ensures forall t, id :: t in tables ==> (id in requested[t] <==> StatementFor(ChangesFor(changes, t), id) != Silent)
    {
      hide StatementFor;
      requested := map[];
      for i := 0 to |parsed|
        invariant forall j :: 0 <= j < i ==> tables[j] in requested
        invariant forall j, id :: 0 <= j < i ==>
                    (id in requested[tables[j]] <==> StatementFor(ChangesFor(changes, tables[j]), id) != Silent)
      {
        var entry := parsed[i];
        var ids := RowIds(entry.rows) + Elements(entry.deletes) + RejectedIn(rejected, entry.table);
        forall id ensures id in ids <==> StatementFor(ChangesFor(changes, tables[i]), id) != Silent {
          assert id in entry.deletes <==> id in Elements(entry.deletes);
        }
        requested := requested[entry.table := ids];
      }
    }

    // ----- the push contract -----

    lemma NotStale(pre: Db, db: Db, post: Db, scope: string, changes: Changes, parsed: seq<Parsed>, rejected: Rejections, since: nat)
      requires GcOnly(pre, db) && db.floor <= post.floor
      requires |parsed| == |tables| && forall j :: 0 <= j < |tables| ==> parsed[j].table == tables[j]
      requires AllOwned(pre, db, scope, parsed, changes) && AllSeen(db, scope, parsed, since)
      ensures NoStaleOverwrite(Rules(), pre, post, scope, changes, rejected, since)
    {
      hide StatementFor;
      forall k: RowKey | k in pre.rows && k.scope == scope && k.key.table in tables
                         && StatementFor(ChangesFor(changes, k.key.table), k.key.id) != Silent
                         && !ForeignTo(pre, scope, k.key)
        ensures pre.rows[k].rev <= since || Collectable(pre.rows[k], post.floor)
      {
        var j :| 0 <= j < |tables| && tables[j] == k.key.table;
        assert k.key == Key(parsed[j].table, k.key.id) && k == RowKey(scope, k.key);
        assert Owned(pre, db, scope, parsed[j], ChangesFor(changes, parsed[j].table));
        assert SeenBy(db, scope, parsed[j], since);
        GcOnlyEntry(pre, db, k);
      }
    }

    /** A foreign id seen after the writes was foreign before them. */
    lemma NotForeignAfter(pre: Db, db: Db, post: Db, scope: string, said: Said, key: Key)
      requires GcOnly(pre, db) && Wrote(pre, post, said) && db.floor <= post.floor
      requires forall k: RowKey :: k in said ==> k.scope == scope
      requires !ForeignTo(db, scope, key)
      ensures !ForeignTo(post, scope, key)
    {
      forall k: RowKey | k in post.rows && k.scope != scope ensures k in db.rows {
        assert EntryAfter(Lookup(pre.rows, k), Lookup(post.rows, k), SaidOf(said, k), pre.rev, post.floor);
        GcOnlyEntry(pre, db, k);
      }
    }

    lemma AcceptedIsAdmissible(pre: Db, db: Db, scope: string, changes: Changes, parsed: seq<Parsed>, kept: seq<Parsed>,
                               rejected: Rejections, said: Said, post: Db, k: RowKey)
      requires GcOnly(pre, db) && db.floor <= post.floor && Wrote(pre, post, said)
      requires DistinctTables(tables) && Partitioned(kept, tables, rejected, changes)
      requires SaysFirst(said, scope, kept, |kept|, |kept|, changes)
      requires AllOwned(pre, db, scope, parsed, changes) && AllValid(parsed) && Shrunk(kept, parsed)
      requires AllAccepted(kept, |kept|)
      requires forall j :: 0 <= j < |parsed| ==> Landable(pre, db.floor, scope, parsed[j], parsed[j].table in appendOnly)
      ensures var s := AcceptedStatement(tables, scope, changes, rejected, k);
              s.Upserts? ==> Admissible(Rules(), post, scope, k.key, s.row) && Replaceable(Rules(), pre, post.floor, scope, k.key)
    {
      hide PartOf, StatementFor, Owned, EntryAfter;
      var s := AcceptedStatement(tables, scope, changes, rejected, k);
      if s.Upserts? {
        var j :| 0 <= j < |tables| && tables[j] == k.key.table;
        var row := RowAccepted(kept[j], RejectedIn(rejected, tables[j]), ChangesFor(changes, tables[j]), k.key.id);
        assert row in parsed[j].rows;
        assert Rules().valid(parsed[j].table, row);
        assert !ForeignTo(db, scope, k.key) by {
          assert Owned(pre, db, scope, parsed[j], ChangesFor(changes, parsed[j].table));
          OwnedIsNative(pre, db, scope, parsed[j], ChangesFor(changes, parsed[j].table), k.key.id);
          assert k.key == Key(parsed[j].table, k.key.id);
        }
        NotForeignAfter(pre, db, post, scope, said, k.key);
        LandableLater(pre, db.floor, post.floor, scope, parsed[j], parsed[j].table in appendOnly);
      }
    }

    lemma OwnedIsNative(pre: Db, db: Db, scope: string, p: Parsed, tc: TableChanges, id: string)
      requires Owned(pre, db, scope, p, tc) && id in p.allIds
      ensures !ForeignTo(db, scope, Key(p.table, id))
    {
    }

    lemma RowAccepted(p: Parsed, rejected: set<string>, tc: TableChanges, id: string) returns (row: WireRow)
      requires PartOf(p, rejected, tc) && id !in rejected && StatementFor(tc, id).Upserts?
      ensures row in p.rows && IdOf(row) == id && StatementFor(tc, id) == Upserts(row) && id in p.allIds
    {
      hide DistinctIds;
      assert id in p.deletes <==> id in Elements(p.deletes);
      assert id in RowIds(p.rows);
      row :| row in p.rows && IdOf(row) == id;
      assert id in Elements(p.allIds);
    }

    lemma Assemble(pre: Db, db: Db, scope: string, changes: Changes, parsed: seq<Parsed>, kept: seq<Parsed>,
                   rejected: Rejections, said: Said)
      requires ValidDb(pre) && GcOnly(pre, db) && db.floor <= store.floor
      requires Valid() && Wrote(pre, store.Contents(), said)
      requires Partitioned(kept, tables, rejected, changes) && RejectedForCause(pre, scope, changes, rejected)
      requires SaysFirst(said, scope, kept, |kept|, |kept|, changes)
      requires AllOwned(pre, db, scope, parsed, changes) && AllValid(parsed) && Shrunk(kept, parsed)
      requires AllAccepted(kept, |kept|)
      requires forall j :: 0 <= j < |parsed| ==> Landable(pre, db.floor, scope, parsed[j], parsed[j].table in appendOnly)
      ensures AllOrNothing(Rules(), pre, store.Contents(), scope, changes, rejected)
    {
      hide PartOf, StatementFor, Owned, EntryAfter, ValidDb, GcOnly, SaysFirst, Admissible, Replaceable, Landable, Refusable;
      var post := store.Contents();
      forall k: RowKey
        ensures EntryAfter(Lookup(pre.rows, k), Lookup(post.rows, k), AcceptedStatement(tables, scope, changes, rejected, k), pre.rev, post.floor)
        ensures var s := AcceptedStatement(tables, scope, changes, rejected, k);
                s.Upserts? ==> Admissible(Rules(), post, scope, k.key, s.row) && Replaceable(Rules(), pre, post.floor, scope, k.key)
      {
        SaidIsAccepted(said, scope, kept, tables, changes, rejected, k);
        AcceptedIsAdmissible(pre, db, scope, changes, parsed, kept, rejected, said, post, k);
      }
      forall t, id | t in tables && id in RejectedIn(rejected, t)
        ensures StatementFor(ChangesFor(changes, t), id) != Silent
      {
        var j :| 0 <= j < |tables| && tables[j] == t;
        RejectedIsNamed(kept[j], RejectedIn(rejected, t), ChangesFor(changes, t), id);
      }
    }

    lemma RejectedIsNamed(p: Parsed, rejected: set<string>, tc: TableChanges, id: string)
      requires PartOf(p, rejected, tc) && id in rejected
      ensures StatementFor(tc, id) != Silent
    {
    }

    /** The window collected after the writes, without the requested ids, is the window from before them. */
    lemma InterleaveIsForeign(pre: Db, db: Db, scope: string, changes: Changes, said: Said, kept: seq<Parsed>, rejected: Rejections,
                              tc: TableChanges, stored: seq<StoredChange>, exclude: set<string>, table: string, since: nat)
      requires Wrote(pre, db, said) && db.floor <= since && table in tables
      requires DistinctTables(tables) && Partitioned(kept, tables, rejected, changes)
      requires SaysFirst(said, scope, kept, |kept|, |kept|, changes)
      requires ListsWindow(stored, db, scope, table, since) && Delivers(tc, stored, exclude)
      requires forall id :: id in exclude <==> StatementFor(ChangesFor(changes, table), id) != Silent
      ensures forall id ::
                StatementFor(tc, id) == if StatementFor(ChangesFor(changes, table), id) != Silent then Silent
                                        else WindowStatement(pre, scope, Key(table, id), since)
    {
      hide StatementFor, PartOf, ListsWindow, SaysFirst;
      forall id
        ensures StatementFor(tc, id) == if StatementFor(ChangesFor(changes, table), id) != Silent then Silent
                                        else WindowStatement(pre, scope, Key(table, id), since)
      {
        WindowListed(stored, db, scope, table, since, exclude, id);
        var k := RowKey(scope, Key(table, id));
        SaidIsAccepted(said, scope, kept, tables, changes, rejected, k);
        assert EntryAfter(Lookup(pre.rows, k), Lookup(db.rows, k), SaidOf(said, k), pre.rev, db.floor);
      }
    }

    /** The cursor is at or below what the scope can have served, or ahead of everything. */
    method CheckHorizon(ghost pre: Db, scope: string, since: nat) returns (reached: bool)
      requires Valid() && store.Contents() == pre
      modifies store`rows, store`floor
      ensures Valid() && GcOnly(pre, store.Contents())
      ensures !reached ==> AheadOf(pre, store.Contents(), scope, since)
      ensures reached ==> since <= store.floor || exists k :: k in pre.rows && k.scope == scope && pre.rows[k].rev >= since
    {
      Await();
      ghost var mid := store.Contents();
      var max := store.MaxRev(scope);
      Await();
      GcOnlyTrans(pre, mid, store.Contents());
      var floor := store.floor;
      reached := since <= if max > floor then max else floor;
      if !reached {
        forall k | k in pre.rows && k.scope == scope && !Collectable(pre.rows[k], store.floor) ensures pre.rows[k].rev < since {
          GcOnlyEntry(pre, mid, k);
        }
      }
    }

    lemma NothingRejected(pre: Db, scope: string, changes: Changes)
      ensures RejectedForCause(pre, scope, changes, map[])
    {
    }

    lemma ShrunkStaysValid(before: seq<Parsed>, after: seq<Parsed>)
      requires Shrunk(after, before) && AllValid(before)
      ensures AllValid(after)
    {
    }

    lemma SharesTablesOf(parsed: seq<Parsed>, rejected: Rejections, changes: Changes)
      requires Partitioned(parsed, tables, rejected, changes)
      ensures |parsed| == |tables| && forall j :: 0 <= j < |tables| ==> parsed[j].table == tables[j]
    {
    }

    /** The interleave is collected, then the floor is read: a racing gc turns into a degraded reply. */
    method Reply(ghost pre: Db, scope: string, args: PushArgs, since: nat, shares: seq<Parsed>, rejected: Rejections,
                 ghost kept: seq<Parsed>, ghost said: Said)
      returns (reply: PushReply, ghost floorSeen: nat)
      requires Writing(pre, scope, args.changes, shares, kept, rejected, said, |kept|, |kept|)
      requires NamesSame(shares, rejected, args.changes)
      modifies store`rows, store`floor
      ensures Valid() && Wrote(pre, store.Contents(), said) && old(store.floor) <= store.floor
      ensures reply.Pushed? && reply.rejected == rejected
      ensures CompleteReply(Rules(), pre, store.Contents(), scope, args, since, reply.cursor, reply.changes, floorSeen)
    {
      hide PartOf, RejectedForCause, StatementFor, ListsWindow, ListsOnce, SaysFirst, EntryAfter, ValidDb, Refusable,
           GcOnly, WellFormedDelivery, WindowStatement, NamesFirst, Wrote, SharesShape, Partitioned;
      var collected, floor := CollectThenFloor(pre, scope, since, said);
      floorSeen := floor;
      if since < floor {
        reply := Pushed(None, None, rejected);
        return;
      }
      ghost var seen := store.Contents();
      var changes := Interleave(pre, scope, args.changes, since, shares, rejected, kept, said, collected);
      Await();
      GcOnlyFloors(seen, store.Contents());
      WroteThenGc(pre, seen, store.Contents(), said);
      var max := store.MaxRev(scope);
      reply := Pushed(Some(EncodeCursor(if max > floor then max else floor)), Some(changes), rejected);
    }

    method CollectThenFloor(ghost pre: Db, scope: string, since: nat, ghost said: Said)
      returns (collected: map<string, seq<StoredChange>>, floor: nat)
      requires Valid() && Wrote(pre, store.Contents(), said)
      modifies store`rows, store`floor
      ensures Valid() && Wrote(pre, store.Contents(), said)
      ensures floor == store.floor && old(store.floor) <= floor && pre.floor <= floor
      ensures collected.Keys == (set t | t in tables)
      ensures forall t :: t in collected ==> ListsOnce(collected[t])
      ensures floor <= since ==> forall t :: t in collected ==> ListsWindow(collected[t], store.Contents(), scope, t, since)
    {
      hide ListsWindow, ListsOnce, EntryAfter, ValidDb, GcOnly;
      ghost var written := store.Contents();
      collected := CollectSince(scope, since);
      ghost var read := store.Contents();
      WroteThenGc(pre, written, read, said);
      Await();
      GcOnlyFloors(written, read);
      GcOnlyFloors(read, store.Contents());
      WroteThenGc(pre, read, store.Contents(), said);
      floor := store.floor;
      if floor <= since {
        WindowsAfterGc(collected, read, store.Contents(), scope, since);
      }
    }

    method Interleave(ghost pre: Db, scope: string, ghost request: Changes, since: nat, shares: seq<Parsed>, rejected: Rejections,
                      ghost kept: seq<Parsed>, ghost said: Said, collected: map<string, seq<StoredChange>>)
      returns (changes: Changes)
      requires Valid() && Wrote(pre, store.Contents(), said) && store.floor <= since
      requires Partitioned(kept, tables, rejected, request) && SharesShape(shares, kept)
      requires SaysFirst(said, scope, kept, |kept|, |kept|, request)
      requires NamesSame(shares, rejected, request)
      requires collected.Keys == (set t | t in tables)
      requires forall t :: t in collected ==> ListsOnce(collected[t]) && ListsWindow(collected[t], store.Contents(), scope, t, since)
      ensures changes.Keys == (set t | t in tables)
      ensures forall t :: t in tables ==>
                && WellFormedDelivery(changes[t])
                && forall id ::
                     StatementFor(changes[t], id) == if StatementFor(ChangesFor(request, t), id) != Silent then Silent
                                                     else WindowStatement(pre, scope, Key(t, id), since)
    {
      hide PartOf, StatementFor, ListsWindow, ListsOnce, SaysFirst, EntryAfter, ValidDb, WellFormedDelivery,
           WindowStatement, NamesFirst, Wrote;
      StandingShape(shares, kept, rejected, request);
      var requested := RequestedIds(shares, rejected, request);
      changes := ToChanges(collected, requested);
      forall t | t in tables
        ensures WellFormedDelivery(changes[t])
        ensures forall id ::
                  StatementFor(changes[t], id) == if StatementFor(ChangesFor(request, t), id) != Silent then Silent
                                                  else WindowStatement(pre, scope, Key(t, id), since)
      {
        InterleaveIsForeign(pre, store.Contents(), scope, request, said, kept, rejected, changes[t], collected[t], requested[t], t, since);
      }
    }

    lemma GcOnlyFloors(a: Db, b: Db)
      requires GcOnly(a, b)
      ensures a.floor <= b.floor && a.rev == b.rev
    {
    }

    lemma WindowsAfterGc(byTable: map<string, seq<StoredChange>>, a: Db, b: Db, scope: string, since: nat)
      requires GcOnly(a, b) && b.floor <= since
      requires forall t :: t in byTable ==> ListsWindow(byTable[t], a, scope, t, since)
      ensures forall t :: t in byTable ==> ListsWindow(byTable[t], b, scope, t, since)
    {
      hide ListsWindow, GcOnly;
      forall t | t in byTable ensures ListsWindow(byTable[t], b, scope, t, since) {
        WindowAfterGc(byTable[t], a, b, scope, t, since);
      }
    }

    /** How the judging of a push ends: an answer, an error, or statements to write. */
    method Judge(ghost pre: Db, scope: string, args: PushArgs, since: nat, request: seq<Parsed>)
      returns (verdict: Option<Result<PushReply, PushError>>, parsed: seq<Parsed>, rejected: Rejections)
      requires Valid() && store.Contents() == pre && hooks == None
      requires Partitioned(request, tables, map[], args.changes) && AllCovered(request, args.changes)
      modifies store`rows, store`floor, this`hooks
      ensures Valid() && GcOnly(pre, store.Contents())
      ensures verdict.Some? ==>
                || (verdict.value == Ok(Conflict) && hooks == None
                      && (AheadOf(pre, store.Contents(), scope, since) || NamesNewer(Rules(), pre, store.Contents(), scope, args.changes, since)))
                || (verdict.value == Err(HookFault) && hooks.Some? && HooksFail(hooks.value))
      ensures hooks.Some? ==> HooksAsked(Rules(), pre, scope, args.changes, hooks.value) && hooks.value.db.floor <= store.floor
      ensures verdict.None? ==>
                && Judging(pre, scope, args.changes, parsed, rejected)
                && AllOwned(pre, store.Contents(), scope, parsed, args.changes)
                && AllSeen(store.Contents(), scope, parsed, since)
                && AllLandable(pre, scope, parsed)
                && AllValid(parsed)
                && CursorReached(pre, store.Contents(), scope, since)
                && hooks.Some? && !HooksFail(hooks.value) && HooksHeeded(tables, rejected, hooks.value)
    {
      hide PartOf, Partitioned, StatementFor, Owned, Refusable, AllCovered, AllOwned, AllSeen, AllKnown,
           RejectedForCause, AllValid, AllLandable, Shrunk, NamesNewer, AheadOf, GcOnly, AllUnjudged, AllStanding,
           HooksAsked, HooksFail;
      verdict, parsed, rejected := None, [], map[];
      var reached := CheckHorizon(pre, scope, since);
      if !reached {
        return Some(Ok(Conflict)), [], map[];
      }
      ghost var horizon := store.Contents();
      NothingRejected(pre, scope, args.changes);
      parsed, rejected := RejectForeign(pre, scope, args.changes, request);
      var newer, revs := ScanForNewer(pre, scope, args.changes, parsed, rejected, since);
      if newer {
        return Some(Ok(Conflict)), [], map[];
      }
      parsed, rejected := RejectInvalid(pre, scope, args.changes, parsed, rejected, since, revs);
      ghost var valid := parsed;
      var ok;
      ok, parsed, rejected := RunHooks(pre, scope, args.changes, parsed, rejected, since, revs);
      if !ok {
        return Some(Err(HookFault)), [], map[];
      }
      ghost var hooked := parsed;
      parsed, rejected := RejectDead(pre, scope, args.changes, parsed, rejected, since, revs);
      ShrunkTrans(valid, hooked, parsed);
      ShrunkStaysValid(valid, parsed);
      verdict := None;
    }

    /**
     * A push. None of what it throws leaves a trace; what it answers meets the
     * push contract between the contents at its start and at its end. The
     * hooks were asked unless the push ended before, and it fails by them
     * exactly when one named what is not in play.
     */
    method Push(scope: string, args: PushArgs) returns (r: Result<PushReply, PushError>, ghost floorSeen: nat)
      requires Valid()
      modifies store, this`hooks
      ensures Valid()
      ensures r == Err(UnusableId) <==>
                DecodeCursor(args.cursor).Some? && exists t :: t in tables && !AllUsable(ChangesFor(args.changes, t))
      ensures r == Err(UnusableId) ==> store.Contents() == old(store.Contents())
      ensures hooks.None? <==> r == Ok(Conflict) || r == Err(UnusableId)
      ensures hooks.Some? ==> HooksAsked(Rules(), old(store.Contents()), scope, args.changes, hooks.value)
      ensures r == Err(HookFault) <==> hooks.Some? && HooksFail(hooks.value)
      ensures r == Err(HookFault) ==> GcOnly(old(store.Contents()), store.Contents())
      ensures r.Ok? && r.value.Pushed? ==>
                Judgement(Rules(), old(store.Contents()), store.Contents(), scope, args.changes, r.value.rejected, hooks.value)
      ensures r.Ok? ==> PushContract(Rules(), old(store.Contents()), store.Contents(), scope, args, r.value, floorSeen)
    {
      hide PartOf, Partitioned, StatementFor, Owned, EntryAfter, SaysFirst, Admissible, Refusable, AllOrNothing,
           NoStaleOverwrite, ListsWindow, ListsOnce, Wrote, AllUsable, AllCovered, AllOwned, AllSeen, AllKnown,
           NamesFirst, AllAccepted, AllValid, AllLandable, Shrunk, SharesShape, NamesNewer, AheadOf, Landable,
           CompleteReply, GcOnly, HooksAsked, HooksFail, Caused, HookNames;
      ghost var pre := store.Contents();
      hooks := None;
      floorSeen := store.floor;
      GcOnlyRefl(pre);
      var since := DecodeCursor(args.cursor);
      if since.None? {
        return Ok(Conflict), floorSeen;
      }
      var request := ParseRequest(args.changes);
      if request.None? {
        return Err(UnusableId), floorSeen;
      }
      var verdict, parsed, rejected := Judge(pre, scope, args, since.value, request.value);
      if verdict.Some? {
        return verdict.value, floorSeen;
      }
      ghost var db := store.Contents();
      LandableNow(pre, scope, parsed);
      var shares, refused, kept, saidRows := ApplyRows(pre, scope, args.changes, parsed, rejected);
      ghost var said := ApplyDeletes(pre, scope, args.changes, shares, refused, kept, saidRows);
      var reply: PushReply;
      reply, floorSeen := Reply(pre, scope, args, since.value, shares, refused, kept, said);
      r := Ok(reply);
      SharesTablesOf(parsed, rejected, args.changes);
      NotStale(pre, db, store.Contents(), scope, args.changes, parsed, refused, since.value);
      Assemble(pre, db, scope, args.changes, parsed, kept, refused, said);
      WroteFloors(pre, store.Contents(), said);
      assert Judgement(Rules(), pre, store.Contents(), scope, args.changes, refused, hooks.value);
    }

    lemma LandableNow(pre: Db, scope: string, parsed: seq<Parsed>)
      requires AllLandable(pre, scope, parsed)
      ensures forall j :: 0 <= j < |parsed| ==> Landable(pre, store.floor, scope, parsed[j], parsed[j].table in appendOnly)
    {
    }

    lemma WroteFloors(pre: Db, post: Db, said: Said)
      requires Wrote(pre, post, said)
      ensures pre.rev <= post.rev && pre.floor <= post.floor <= post.rev
    {
    }
  }
}
