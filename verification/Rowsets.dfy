/**
 * Sequences of rows and ids as both ends of the wire use them: last statement
 * per id, filtering by an id set.
 */
module Rowsets {
  import opened RawRecords
  import opened MemoryStores
  import opened SyncTypes

  function DropRows(rows: seq<WireRow>, drop: set<string>): seq<WireRow> {
    if |rows| == 0 then []
    else
      var kept := DropRows(rows[..|rows| - 1], drop);
      if IdOf(rows[|rows| - 1]) in drop then kept else kept + [rows[|rows| - 1]]
  }

  function DropIds(ids: seq<string>, drop: set<string>): seq<string> {
    if |ids| == 0 then []
    else
      var kept := DropIds(ids[..|ids| - 1], drop);
      if ids[|ids| - 1] in drop then kept else kept + [ids[|ids| - 1]]
  }

  function Elements(ids: seq<string>): set<string> {
    set id | id in ids
  }

  lemma {:induction false} DropRowsMembers(rows: seq<WireRow>, drop: set<string>)
    ensures forall row :: row in DropRows(rows, drop) <==> row in rows && IdOf(row) !in drop
  {
    if |rows| > 0 {
      DropRowsMembers(rows[..|rows| - 1], drop);
      assert rows == rows[..|rows| - 1] + [rows[|rows| - 1]];
    }
  }

  lemma {:induction false} DropRowsDistinct(rows: seq<WireRow>, drop: set<string>)
    requires DistinctIds(rows)
    ensures DistinctIds(DropRows(rows, drop))
  {
    if |rows| > 0 {
      var prefix := rows[..|rows| - 1];
      var kept := DropRows(prefix, drop);
      DropRowsDistinct(prefix, drop);
      DropRowsMembers(prefix, drop);
      forall i | 0 <= i < |kept| ensures IdOf(kept[i]) != IdOf(rows[|rows| - 1]) {
        assert kept[i] in kept;
        var j :| 0 <= j < |prefix| && prefix[j] == kept[i];
      }
    }
  }

  lemma DropRowsKeeps(rows: seq<WireRow>, drop: set<string>)
    ensures forall row :: row in DropRows(rows, drop) <==> row in rows && IdOf(row) !in drop
    ensures DistinctIds(rows) ==> DistinctIds(DropRows(rows, drop))
    ensures RowIds(DropRows(rows, drop)) == RowIds(rows) - drop
  {
    DropRowsMembers(rows, drop);
    if DistinctIds(rows) { DropRowsDistinct(rows, drop); }
  }

  lemma {:induction false} DropIdsKeeps(ids: seq<string>, drop: set<string>)
    ensures forall id :: id in DropIds(ids, drop) <==> id in ids && id !in drop
  {
    if |ids| > 0 {
      DropIdsKeeps(ids[..|ids| - 1], drop);
      assert ids == ids[..|ids| - 1] + [ids[|ids| - 1]];
    }
  }

  function Dedup(ids: seq<string>): seq<string> {
    if |ids| == 0 then []
    else
      var before := Dedup(ids[..|ids| - 1]);
      if ids[|ids| - 1] in before then before else before + [ids[|ids| - 1]]
  }

  lemma {:induction false} DedupKeeps(ids: seq<string>)
    ensures Elements(Dedup(ids)) == Elements(ids)
    ensures forall i, j :: 0 <= i < j < |Dedup(ids)| ==> Dedup(ids)[i] != Dedup(ids)[j]
  {
    if |ids| > 0 {
      DedupKeeps(ids[..|ids| - 1]);
      assert ids == ids[..|ids| - 1] + [ids[|ids| - 1]];
      assert Elements(ids) == Elements(ids[..|ids| - 1]) + {ids[|ids| - 1]};
    }
  }

  method IdsOf(rows: seq<WireRow>) returns (ids: seq<string>)
    ensures Elements(ids) == RowIds(rows)
  {
    ids := [];
    for n := 0 to |rows|
      invariant Elements(ids) == RowIds(rows[..n])
    {
      assert rows[..n + 1] == rows[..n] + [rows[n]];
      assert RowIds(rows[..n + 1]) == RowIds(rows[..n]) + {IdOf(rows[n])};
      ids := ids + [IdOf(rows[n])];
    }
    assert rows[..|rows|] == rows;
  }

  /** A map from ids to the last row stating each, and the ids in order of first statement. */
  ghost predicate LastPerId(byId: map<string, WireRow>, order: seq<string>, rows: seq<DirtyRaw>) {
    && (forall id :: id in byId <==> LastRow(rows, id).Some?)
    && (forall id :: id in byId ==> byId[id] == LastRow(rows, id).value && IdOf(byId[id]) == id)
    && (forall i, j :: 0 <= i < j < |order| ==> order[i] != order[j])
    && (forall id :: id in order <==> id in byId)
  }

  /** Each id once, with the last row that states it; None when a row has no usable id. */
  method LastById(rows: seq<DirtyRaw>) returns (r: Option<seq<WireRow>>)
    ensures r.None? <==> exists row :: row in rows && !HasUsableId(row)
    ensures r.Some? ==> DistinctIds(r.value)
    ensures r.Some? ==> forall row :: row in r.value <==> LastRow(rows, IdOf(row)) == Some(row)
    ensures r.Some? ==> forall id :: LastRow(rows, id).Some? ==> id in RowIds(r.value)
  {
    var byId: map<string, WireRow> := map[];
    var order: seq<string> := [];
    var i := 0;
    while i < |rows|
      invariant 0 <= i <= |rows|
      invariant forall row :: row in rows[..i] ==> HasUsableId(row)
      invariant LastPerId(byId, order, rows[..i])
    {
      var raw := rows[i];
      assert rows[..i + 1] == rows[..i] + [raw];
      if !HasUsableId(raw) {
        assert raw in rows;
        return None;
      }
      var id := Get(raw, "id").s;
      forall other ensures LastRow(rows[..i + 1], other) == if id == other then Some(raw) else LastRow(rows[..i], other) {
        LastRowAppend(rows[..i], raw, other);
      }
      if id !in byId { order := order + [id]; }
      var row: WireRow := raw;
      byId := byId[id := row];
      i := i + 1;
    }
    assert rows[..i] == rows;
    var out := InOrder(byId, order);
    forall id | LastRow(rows, id).Some? ensures id in RowIds(out) {
      assert byId[id] in out;
    }
    r := Some(out);
  }

  method InOrder(byId: map<string, WireRow>, order: seq<string>) returns (rows: seq<WireRow>)
    requires forall id :: id in order <==> id in byId
    requires forall id :: id in byId ==> IdOf(byId[id]) == id
    requires forall i, j :: 0 <= i < j < |order| ==> order[i] != order[j]
    ensures DistinctIds(rows)
    ensures forall row :: row in rows <==> IdOf(row) in byId && row == byId[IdOf(row)]
  {
    rows := [];
    for i := 0 to |order|
      invariant |rows| == i
      invariant forall j :: 0 <= j < i ==> rows[j] == byId[order[j]]
    {
      rows := rows + [byId[order[i]]];
    }
    forall row | IdOf(row) in byId && row == byId[IdOf(row)] ensures row in rows {
      var j :| 0 <= j < |order| && order[j] == IdOf(row);
      assert rows[j] == row;
    }
  }

  lemma {:induction false} LastRowConcat(a: seq<DirtyRaw>, b: seq<DirtyRaw>, id: string)
    ensures LastRow(a + b, id) == if LastRow(b, id).Some? then LastRow(b, id) else LastRow(a, id)
  {
    if |b| == 0 {
      assert a + b == a;
    } else {
      assert (a + b)[..|a + b| - 1] == a + b[..|b| - 1];
      LastRowConcat(a, b[..|b| - 1], id);
    }
  }
}
