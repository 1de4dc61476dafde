/**
 * A batch as the tabs see it: the change set it publishes does to the live
 * rows, and to any cache, what its statements and its own cache update do
 * (packages/core/src/database/Database.ts). So a committed batch is the commit
 * step of TabFreshness.
 */
module BatchCommits {
  import opened RawRecords
  import opened MemoryStores
  import opened LocalDatabases
  import opened RecordCaches
  import Tabs = TabFreshness

  /** What a batch publishes for one operation: the record's content, or that it is gone. */
  function ChangeOf(op: Op): Tabs.Change {
    match op
    case Create(_, raw) => Tabs.Change(KeyOf(op), Some(raw))
    case Update(_, raw) => Tabs.Change(KeyOf(op), Some(raw))
    case MarkAsDeleted(_, _) => Tabs.Change(KeyOf(op), None)
    case DestroyPermanently(_, _) => Tabs.Change(KeyOf(op), None)
  }

  function ChangesOf(ops: seq<Op>): (changes: seq<Tabs.Change>)
    ensures |changes| == |ops|
  {
    if |ops| == 0 then [] else ChangesOf(ops[..|ops| - 1]) + [ChangeOf(ops[|ops| - 1])]
  }

  function LiveOf(rows: LocalRows): Tabs.LiveRows {
    map k | k in rows && rows[k].status != Deleted :: rows[k]
  }

  lemma OpIsChange(rows: LocalRows, op: Op)
    requires Exec(rows, op).Some? && NamesStored(rows, op)
    ensures LiveOf(Exec(rows, op).value) == Tabs.Put(LiveOf(rows), ChangeOf(op))
  {
  }

  /** The published change set makes of the live rows what the batch made of them. */
  lemma {:induction false} PublishedIsCommitted(rows: LocalRows, ops: seq<Op>)
    requires ExecAll(rows, ops).Some? && AllNameStored(rows, ops)
    ensures LiveOf(ExecAll(rows, ops).value) == Tabs.PutAll(LiveOf(rows), ChangesOf(ops))
  {
    hide NamesStored, Exec;
    if |ops| > 0 {
      var n := |ops| - 1;
      var prefix, last := ops[..n], ops[n];
      forall i | 0 <= i < n && ExecAll(rows, prefix[..i]).Some? ensures NamesStored(ExecAll(rows, prefix[..i]).value, prefix[i]) {
        assert prefix[..i] == ops[..i] && prefix[i] == ops[i];
      }
      PublishedIsCommitted(rows, prefix);
      OpIsChange(ExecAll(rows, prefix).value, last);
      assert ChangesOf(ops)[..n] == ChangesOf(prefix);
    }
  }

  /** And of the committing tab's cache what the batch's own update made of it. */
  lemma {:induction false} PublishedIsCached(cache: LocalRows, ops: seq<Op>)
    ensures CachedAll(cache, ops) == Tabs.PutAll(cache, ChangesOf(ops))
  {
    if |ops| > 0 {
      PublishedIsCached(cache, ops[..|ops| - 1]);
      assert ChangesOf(ops)[..|ops| - 1] == ChangesOf(ops[..|ops| - 1]);
    }
  }

  /** A batch committed inside a running exclusive block is a commit step: storage, own cache, and what goes out. */
  lemma BatchIsCommit(w: Tabs.World, t: nat, rows: LocalRows, ops: seq<Op>, w': Tabs.World)
    requires t in w.tabs && Tabs.BlockAtHead(w.tabs[t]) && w.tabs[t].running && w.tabs[t].work[0].exclusive
    requires w.storage == LiveOf(rows) && ExecAll(rows, ops).Some? && AllNameStored(rows, ops)
    requires w' == Tabs.World(LiveOf(ExecAll(rows, ops).value),
                              w.tabs[t := w.tabs[t].(cache := CachedAll(w.tabs[t].cache, ops), up := w.tabs[t].up + [Tabs.Publish(ChangesOf(ops))])],
                              w.slots)
    ensures Tabs.Next(w, Tabs.Commits(t, ChangesOf(ops)), w')
  {
    PublishedIsCommitted(rows, ops);
    PublishedIsCached(w.tabs[t].cache, ops);
    hide LiveOf, AllNameStored;
  }
}
