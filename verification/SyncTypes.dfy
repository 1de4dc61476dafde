/**
 * The wire shapes of the sync protocol (packages/core/src/sync/types.ts) and
 * what one table's change set says about an id.
 */
module SyncTypes {
  import opened RawRecords
  import opened MemoryStores

  datatype TableChanges = TableChanges(created: seq<DirtyRaw>, updated: seq<DirtyRaw>, deleted: seq<string>)

  type Changes = map<string, TableChanges>

  const NO_CHANGES := TableChanges([], [], [])

  function ChangesFor(changes: Changes, table: string): TableChanges {
    if table in changes then changes[table] else NO_CHANGES
  }

  datatype PullArgs = PullArgs(cursor: Option<string>, migration: bool)

  datatype PullReply =
    | ResyncRequired
    | Pulled(changes: Changes, cursor: string)

  datatype PushArgs = PushArgs(changes: Changes, cursor: string)

  type Rejections = map<string, seq<string>>

  datatype PushReply =
    | Conflict
    | Pushed(cursor: Option<string>, changes: Option<Changes>, rejected: Rejections)

  function RejectedIn(rejected: Rejections, table: string): set<string> {
    if table in rejected then set id | id in rejected[table] else {}
  }

  /** What a change set says about one id: a deletion, a row, or nothing. */
  datatype Statement = Silent | Upserts(row: DirtyRaw) | Deletes

  function LastRow(rows: seq<DirtyRaw>, id: string): Option<DirtyRaw> {
    if |rows| == 0 then None
    else if Get(rows[|rows| - 1], "id") == Str(id) then Some(rows[|rows| - 1])
    else LastRow(rows[..|rows| - 1], id)
  }

  /**
   * Deleted supersedes updated supersedes created, and within a bucket the
   * last occurrence wins. The engine reads pushes by this rule and the client
   * reads pulls by it.
   */
  function StatementFor(tc: TableChanges, id: string): Statement {
    if id in tc.deleted then Deletes
    else match LastRow(tc.created + tc.updated, id)
      case Some(row) => Upserts(row)
      case None => Silent
  }

  predicate AllUsable(tc: TableChanges) {
    forall row :: row in tc.created + tc.updated ==> HasUsableId(row)
  }

  /** Every id a change set states something about. */
  function NamedIds(tc: TableChanges): set<string> {
    (set row | row in tc.created + tc.updated && HasUsableId(row) :: Get(row, "id").s) + (set id | id in tc.deleted)
  }

  lemma {:induction false} LastRowFinds(rows: seq<DirtyRaw>, id: string)
    ensures LastRow(rows, id).Some? ==> LastRow(rows, id).value in rows && Get(LastRow(rows, id).value, "id") == Str(id)
    ensures LastRow(rows, id).None? ==> forall row :: row in rows ==> Get(row, "id") != Str(id)
  {
    if |rows| > 0 {
      LastRowFinds(rows[..|rows| - 1], id);
      assert rows == rows[..|rows| - 1] + [rows[|rows| - 1]];
    }
  }

  lemma LastRowAppend(rows: seq<DirtyRaw>, row: DirtyRaw, id: string)
    ensures LastRow(rows + [row], id) == if Get(row, "id") == Str(id) then Some(row) else LastRow(rows, id)
  {
    assert (rows + [row])[..|rows|] == rows;
  }

  lemma NamedIsStated(tc: TableChanges, id: string)
    requires AllUsable(tc)
    ensures id in NamedIds(tc) <==> StatementFor(tc, id) != Silent
    ensures StatementFor(tc, id).Upserts? ==>
              HasUsableId(StatementFor(tc, id).row) && Get(StatementFor(tc, id).row, "id") == Str(id)
  {
    LastRowFinds(tc.created + tc.updated, id);
  }

  /** A row standing alone under its id in the bucket is the last one. */
  lemma {:induction false} LastRowOfDistinct(rows: seq<DirtyRaw>, row: DirtyRaw, id: string)
    requires row in rows && Get(row, "id") == Str(id)
    requires forall other :: other in rows && Get(other, "id") == Str(id) ==> other == row
    ensures LastRow(rows, id) == Some(row)
  {
    LastRowFinds(rows, id);
  }

  /** No id is named twice. */
  ghost predicate NamesOnce(tc: TableChanges) {
    var rows := tc.created + tc.updated;
    && (forall i, j :: 0 <= i < j < |rows| ==> Get(rows[i], "id") != Get(rows[j], "id"))
    && (forall i, j :: 0 <= i < j < |tc.deleted| ==> tc.deleted[i] != tc.deleted[j])
    && (forall row :: row in rows ==> HasUsableId(row) && Get(row, "id").s !in tc.deleted)
  }
}
