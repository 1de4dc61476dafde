/**
 * Cache freshness across tabs: each tab's record cache, work queue and port,
 * with the broker relaying change sets and granting slots
 * (packages/core/src/database/Database.ts, packages/driver-web/src/
 * WebSqliteDriver.ts, shared-worker.ts). Ports deliver in order; storage is
 * the live rows; tabs and the compute do not die.
 */
module TabFreshness {
  import opened RawRecords
  import opened MemoryStores
  import opened SlotArbiters

  type LiveRows = map<Key, Raw>

  /** One record's change: its new content, or None once it is gone. */
  datatype Change = Change(key: Key, after: Option<Raw>)

  /** From the broker, and in a tab's work queue: a change set to apply, or a slot for a block to run under. */
  datatype Inbound = External(changes: seq<Change>) | Slot(slot: nat, exclusive: bool)

  /** To the broker. */
  datatype Outbound = Ask(exclusive: bool) | Publish(changes: seq<Change>) | GiveBack(slot: nat)

  /** running says that the block at the head of the work queue has started. */
  datatype Tab = Tab(cache: LiveRows, work: seq<Inbound>, running: bool, down: seq<Inbound>, up: seq<Outbound>)

  datatype World = World(storage: LiveRows, tabs: map<nat, Tab>, slots: Slots)

  datatype Step =
    | Asks(t: nat, exclusive: bool)
    | BrokerHandles(t: nat)
    | Receives(t: nat)
    | AppliesExternal(t: nat)
    | StartsBlock(t: nat)
    | Commits(t: nat, changes: seq<Change>)
    | Fetches(t: nat, key: Key)
    | EndsBlock(t: nat)
    | Joins(t: nat)

  function Put(rows: LiveRows, change: Change): LiveRows {
    match change.after
    case Some(raw) => rows[change.key := raw]
    case None => rows - {change.key}
  }

  function PutAll(rows: LiveRows, changes: seq<Change>): LiveRows {
    if |changes| == 0 then rows else Put(PutAll(rows, changes[..|changes| - 1]), changes[|changes| - 1])
  }

  function GrantsTo(granted: seq<(Waiter, nat)>, t: nat): seq<Inbound> {
    if |granted| == 0 then []
    else
      var last := granted[|granted| - 1];
      GrantsTo(granted[..|granted| - 1], t) + if last.0.port == t then [Slot(last.1, last.0.exclusive)] else []
  }

  function NewGrants(before: Slots, after: Slots): seq<(Waiter, nat)> {
    if |before.granted| <= |after.granted| then after.granted[|before.granted|..] else []
  }

  /** The broker's slots change, and what was newly granted goes out to its tabs. */
  function WithSlots(w: World, slots: Slots): World {
    w.(slots := slots,
       tabs := map t | t in w.tabs :: w.tabs[t].(down := w.tabs[t].down + GrantsTo(NewGrants(w.slots, slots), t)))
  }

  function Relayed(w: World, from: nat, changes: seq<Change>): World {
    w.(tabs := map t | t in w.tabs :: if t == from then w.tabs[t] else w.tabs[t].(down := w.tabs[t].down + [External(changes)]))
  }

  function Popped(w: World, t: nat): World
    requires t in w.tabs && |w.tabs[t].up| > 0
  {
    w.(tabs := w.tabs[t := w.tabs[t].(up := w.tabs[t].up[1..])])
  }

  predicate BlockAtHead(tab: Tab) {
    |tab.work| > 0 && tab.work[0].Slot?
  }

  ghost predicate Next(w: World, step: Step, w': World) {
    match step
    case Joins(t) => t !in w.tabs && w' == w.(tabs := w.tabs[t := Tab(map[], [], false, [], [])])
    case Asks(t, exclusive) =>
      t in w.tabs && w' == w.(tabs := w.tabs[t := w.tabs[t].(up := w.tabs[t].up + [Ask(exclusive)])])
    case BrokerHandles(t) =>
      && t in w.tabs && |w.tabs[t].up| > 0
      && (match w.tabs[t].up[0]
          case Ask(exclusive) => exists id :: w' == WithSlots(Popped(w, t), Acquired(w.slots, Waiter(t, id, exclusive)))
          case Publish(changes) => w' == Relayed(Popped(w, t), t, changes)
          case GiveBack(slot) => w' == WithSlots(Popped(w, t), Released(w.slots, t, slot)))
    case Receives(t) =>
      && t in w.tabs && |w.tabs[t].down| > 0
      && var tab := w.tabs[t];
         w' == w.(tabs := w.tabs[t := tab.(work := tab.work + [tab.down[0]], down := tab.down[1..])])
    case AppliesExternal(t) =>
      && t in w.tabs && |w.tabs[t].work| > 0 && w.tabs[t].work[0].External?
      && var tab := w.tabs[t];
         w' == w.(tabs := w.tabs[t := tab.(cache := PutAll(tab.cache, tab.work[0].changes), work := tab.work[1..])])
    case StartsBlock(t) =>
      && t in w.tabs && BlockAtHead(w.tabs[t]) && !w.tabs[t].running
      && w' == w.(tabs := w.tabs[t := w.tabs[t].(running := true)])
    case Commits(t, changes) =>
      && t in w.tabs && BlockAtHead(w.tabs[t]) && w.tabs[t].running && w.tabs[t].work[0].exclusive
      && var tab := w.tabs[t];
         w' == w.(storage := PutAll(w.storage, changes),
                  tabs := w.tabs[t := tab.(cache := PutAll(tab.cache, changes), up := tab.up + [Publish(changes)])])
    case Fetches(t, key) =>
      && t in w.tabs && key in w.storage && key !in w.tabs[t].cache
      && w' == w.(tabs := w.tabs[t := w.tabs[t].(cache := w.tabs[t].cache[key := w.storage[key]])])
    case EndsBlock(t) =>
      && t in w.tabs && BlockAtHead(w.tabs[t]) && w.tabs[t].running
      && var tab := w.tabs[t];
         w' == w.(tabs := w.tabs[t := tab.(work := tab.work[1..], running := false, up := tab.up + [GiveBack(tab.work[0].slot)])])
  }

  // ----- what is still to reach a cache -----

  /** The last thing a sequence of changes does to a key. */
  function LastChange(changes: seq<Change>, k: Key): Option<Option<Raw>> {
    if |changes| == 0 then None
    else if changes[|changes| - 1].key == k then Some(changes[|changes| - 1].after)
    else LastChange(changes[..|changes| - 1], k)
  }

  /** The last thing a queue of messages will do to a key. */
  function LastInbound(queue: seq<Inbound>, k: Key): Option<Option<Raw>> {
    if |queue| == 0 then None
    else
      var last := queue[|queue| - 1];
      if last.External? && LastChange(last.changes, k).Some? then LastChange(last.changes, k)
      else LastInbound(queue[..|queue| - 1], k)
  }

  function LastPublished(queue: seq<Outbound>, k: Key): Option<Option<Raw>> {
    if |queue| == 0 then None
    else
      var last := queue[|queue| - 1];
      if last.Publish? && LastChange(last.changes, k).Some? then LastChange(last.changes, k)
      else LastPublished(queue[..|queue| - 1], k)
  }

  function Queue(tab: Tab): seq<Inbound> {
    tab.work + tab.down
  }

  lemma {:induction false} PutAllLookup(rows: LiveRows, changes: seq<Change>, k: Key)
    ensures Lookup(PutAll(rows, changes), k)
              == if LastChange(changes, k).Some? then LastChange(changes, k).value else Lookup(rows, k)
  {
    if |changes| > 0 { PutAllLookup(rows, changes[..|changes| - 1], k); }
  }

  lemma {:induction false} LastInboundConcat(a: seq<Inbound>, b: seq<Inbound>, k: Key)
    ensures LastInbound(a + b, k) == if LastInbound(b, k).Some? then LastInbound(b, k) else LastInbound(a, k)
  {
    if |b| == 0 {
      assert a + b == a;
    } else {
      assert (a + b)[..|a + b| - 1] == a + b[..|b| - 1];
      LastInboundConcat(a, b[..|b| - 1], k);
    }
  }

  lemma {:induction false} LastPublishedConcat(a: seq<Outbound>, b: seq<Outbound>, k: Key)
    ensures LastPublished(a + b, k) == if LastPublished(b, k).Some? then LastPublished(b, k) else LastPublished(a, k)
  {
    if |b| == 0 {
      assert a + b == a;
    } else {
      assert (a + b)[..|a + b| - 1] == a + b[..|b| - 1];
      LastPublishedConcat(a, b[..|b| - 1], k);
    }
  }

  lemma {:induction false} NoExternalNoChange(queue: seq<Inbound>, k: Key)
    requires forall m :: m in queue ==> !m.External?
    ensures LastInbound(queue, k).None?
  {
    if |queue| > 0 {
      assert queue[|queue| - 1] in queue;
      NoExternalNoChange(queue[..|queue| - 1], k);
    }
  }

  lemma {:induction false} NoPublishNoChange(queue: seq<Outbound>, k: Key)
    requires forall m :: m in queue ==> !m.Publish?
    ensures LastPublished(queue, k).None?
  {
    if |queue| > 0 {
      assert queue[|queue| - 1] in queue;
      NoPublishNoChange(queue[..|queue| - 1], k);
    }
  }

  // ----- the invariant -----

  /** What a tab has published and the broker not yet relayed ends as storage has it. */
  predicate PublishedSound(w: World, h: nat, k: Key)
    requires h in w.tabs
  {
    var last := LastPublished(w.tabs[h].up, k);
    last.Some? ==> last == Some(Lookup(w.storage, k))
  }

  /** Unless another tab's change is still to be relayed, the last queued change counts, and without one the cache. */
  ghost predicate CacheSound(w: World, t: nat, k: Key)
    requires t in w.tabs
  {
    (forall h :: h in w.tabs && h != t ==> LastPublished(w.tabs[h].up, k).None?) ==>
      TabShows(w.storage, w.tabs[t], k)
  }

  predicate TabShows(storage: LiveRows, tab: Tab, k: Key) {
    var last := LastInbound(Queue(tab), k);
    if last.Some? then last == Some(Lookup(storage, k))
    else k in tab.cache ==> Lookup(storage, k) == Some(tab.cache[k])
  }

  /** Nothing from other tabs arrives behind a slot. */
  predicate QuietBehindSlots(queue: seq<Inbound>) {
    forall i, j :: 0 <= i < j < |queue| && queue[i].Slot? ==> !queue[j].External?
  }

  /** Every slot a tab was granted and has not given back is held by it, and is on its way, queued, or going back: once. */
  ghost predicate SlotsOwned(w: World, t: nat)
    requires t in w.tabs
  {
    var queue, up := Queue(w.tabs[t]), w.tabs[t].up;
    && (forall i :: 0 <= i < |queue| && queue[i].Slot? ==>
          queue[i].slot in w.slots.held && w.slots.held[queue[i].slot] == Held(queue[i].exclusive, t))
    && (forall i :: 0 <= i < |up| && up[i].GiveBack? ==> Owns(w.slots, t, up[i].slot))
    && (forall i, j :: 0 <= i < j < |queue| && queue[i].Slot? && queue[j].Slot? ==> queue[i].slot != queue[j].slot)
    && (forall i, j :: 0 <= i < j < |up| && up[i].GiveBack? && up[j].GiveBack? ==> up[i].slot != up[j].slot)
    && (forall i, j :: 0 <= i < |queue| && queue[i].Slot? && 0 <= j < |up| && up[j].GiveBack? ==> queue[i].slot != up[j].slot)
  }

  /** A change set on its way to the broker is still covered by the exclusive slot it was committed under. */
  ghost predicate Covered(w: World, t: nat, i: nat)
    requires t in w.tabs && i < |w.tabs[t].up|
  {
    var tab := w.tabs[t];
    exists s :: s in w.slots.held && w.slots.held[s] == Held(true, t)
                && ((BlockAtHead(tab) && tab.running && tab.work[0].slot == s)
                    || exists j :: i < j < |tab.up| && tab.up[j] == GiveBack(s))
  }

  ghost predicate TabSound(w: World, t: nat)
    requires t in w.tabs
  {
    && SlotsOwned(w, t)
    && QuietBehindSlots(Queue(w.tabs[t]))
    && (forall i :: 0 <= i < |w.tabs[t].up| && w.tabs[t].up[i].Publish? ==> Covered(w, t, i))
    && (w.tabs[t].running ==> BlockAtHead(w.tabs[t]))
  }

  ghost predicate Sound(w: World) {
    SoundTabs(w) && HeadWaits(w.slots)
  }

  ghost predicate SoundTabs(w: World) {
    && Arbitrated(w.slots)
    && (forall t :: t in w.tabs ==> TabSound(w, t))
    && (forall t, k :: t in w.tabs ==> PublishedSound(w, t, k))
    && (forall t, k :: t in w.tabs ==> CacheSound(w, t, k))
  }

  /** Who publishes holds the one exclusive slot, so nobody else publishes and nobody else holds a slot. */
  lemma PublisherIsAlone(w: World, t: nat, i: nat, other: nat)
    requires Sound(w) && t in w.tabs && i < |w.tabs[t].up| && w.tabs[t].up[i].Publish?
    requires other in w.tabs && other != t
    ensures forall m :: m in Queue(w.tabs[other]) ==> !m.Slot?
    ensures forall m :: m in w.tabs[other].up ==> !m.Publish? && !m.GiveBack?
  {
    assert TabSound(w, t) && Covered(w, t, i);
    var s :| s in w.slots.held && w.slots.held[s] == Held(true, t);
    HolderIsAlone(w, t, s, other);
  }

  lemma HolderIsAlone(w: World, t: nat, s: nat, other: nat)
    requires Sound(w) && s in w.slots.held && w.slots.held[s] == Held(true, t)
    requires other in w.tabs && other != t
    ensures forall m :: m in Queue(w.tabs[other]) ==> !m.Slot?
    ensures forall m :: m in w.tabs[other].up ==> !m.Publish? && !m.GiveBack?
  {
    assert TabSound(w, other);
    var queue, up := Queue(w.tabs[other]), w.tabs[other].up;
    forall m | m in queue ensures !m.Slot? {
      var i :| 0 <= i < |queue| && queue[i] == m;
    }
    PublishNeedsSlot(w, other);
    forall m | m in up ensures !m.GiveBack? {
      var i :| 0 <= i < |up| && up[i] == m;
    }
  }

  lemma PublishNeedsSlot(w: World, t: nat)
    requires t in w.tabs && TabSound(w, t)
    ensures (exists m :: m in w.tabs[t].up && m.Publish?) ==> exists s :: s in w.slots.held && w.slots.held[s] == Held(true, t)
  {
    var up := w.tabs[t].up;
    forall m | m in up && m.Publish? ensures exists s :: s in w.slots.held && w.slots.held[s] == Held(true, t) {
      var i :| 0 <= i < |up| && up[i] == m;
      assert Covered(w, t, i);
    }
  }

  /**
   * Freshness: from the moment a tab's block reaches the head of its queue
   * until it ends, every record in the tab's cache equals the stored row.
   */
  lemma BlocksSeeStorage(w: World, t: nat, k: Key)
    requires Sound(w) && t in w.tabs && BlockAtHead(w.tabs[t])
    ensures k in w.tabs[t].cache ==> Lookup(w.storage, k) == Some(w.tabs[t].cache[k])
  {
    var queue := Queue(w.tabs[t]);
    assert TabSound(w, t);
    assert queue[0].Slot?;
    forall m | m in queue ensures !m.External? {
      var i :| 0 <= i < |queue| && queue[i] == m;
    }
    NoExternalNoChange(queue, k);
    forall h | h in w.tabs && h != t ensures LastPublished(w.tabs[h].up, k).None? {
      forall m | m in w.tabs[h].up ensures !m.Publish? {
        var i :| 0 <= i < |w.tabs[h].up| && w.tabs[h].up[i] == m;
        OnlyHolderPublishes(w, h, i, t);
      }
      NoPublishNoChange(w.tabs[h].up, k);
    }
    assert CacheSound(w, t, k);
  }

  lemma OnlyHolderPublishes(w: World, h: nat, i: nat, t: nat)
    requires Sound(w) && h in w.tabs && i < |w.tabs[h].up| && t in w.tabs && h != t && BlockAtHead(w.tabs[t])
    ensures !w.tabs[h].up[i].Publish?
  {
    assert Queue(w.tabs[t])[0] in Queue(w.tabs[t]);
    if w.tabs[h].up[i].Publish? { PublisherIsAlone(w, h, i, t); }
  }

  // ----- steps that touch one tab only -----

  ghost predicate OnlyTab(w: World, w': World, t: nat) {
    && w'.slots == w.slots && t in w'.tabs
    && w'.tabs.Keys == w.tabs.Keys + {t}
    && forall x :: x in w.tabs && x != t ==> w'.tabs[x] == w.tabs[x]
  }

  lemma TabSoundElsewhere(w: World, w': World, t: nat, x: nat)
    requires OnlyTab(w, w', t) && x in w.tabs && x != t && TabSound(w, x)
    ensures TabSound(w', x)
  {
    forall i | 0 <= i < |w'.tabs[x].up| && w'.tabs[x].up[i].Publish? ensures Covered(w', x, i) {
      assert Covered(w, x, i);
    }
  }

  /** A step that leaves storage and what is published alone only has to answer for its own tab. */
  lemma QuietStep(w: World, w': World, t: nat)
    requires Sound(w) && OnlyTab(w, w', t) && w'.storage == w.storage
    requires TabSound(w', t)
    requires forall k :: LastPublished(w'.tabs[t].up, k) == if t in w.tabs then LastPublished(w.tabs[t].up, k) else None
    requires forall k :: (t in w.tabs ==> TabShows(w.storage, w.tabs[t], k)) ==> TabShows(w.storage, w'.tabs[t], k)
    ensures Sound(w')
  {
    hide TabSound, TabShows;
    forall x | x in w'.tabs ensures TabSound(w', x) {
      if x != t { TabSoundElsewhere(w, w', t, x); }
    }
    forall x, k | x in w'.tabs ensures PublishedSound(w', x, k) && CacheSound(w', x, k) {
      if x in w.tabs { assert PublishedSound(w, x, k) && CacheSound(w, x, k); }
      SamePublished(w, w', t, x, k);
    }
  }

  lemma SamePublished(w: World, w': World, t: nat, x: nat, k: Key)
    requires OnlyTab(w, w', t)
    requires forall k :: LastPublished(w'.tabs[t].up, k) == if t in w.tabs then LastPublished(w.tabs[t].up, k) else None
    ensures (forall h :: h in w'.tabs && h != x ==> LastPublished(w'.tabs[h].up, k).None?) ==>
              forall h :: h in w.tabs && h != x ==> LastPublished(w.tabs[h].up, k).None?
  {
    hide LastPublished;
    if forall h :: h in w'.tabs && h != x ==> LastPublished(w'.tabs[h].up, k).None? {
      forall h | h in w.tabs && h != x ensures LastPublished(w.tabs[h].up, k).None? {
        assert h in w'.tabs;
      }
    }
  }

  lemma JoinsKeepsSound(w: World, t: nat, w': World)
    requires Sound(w) && Next(w, Joins(t), w')
    ensures Sound(w')
  {
    hide Sound;
    QuietStep(w, w', t);
  }

  lemma AsksKeepsSound(w: World, t: nat, exclusive: bool, w': World)
    requires Sound(w) && Next(w, Asks(t, exclusive), w')
    ensures Sound(w')
  {
    assert TabSound(w, t);
    assert TabSound(w', t) by { MoreUpKeepsTab(w, w', t, Ask(exclusive)); }
    forall k ensures LastPublished(w'.tabs[t].up, k) == LastPublished(w.tabs[t].up, k) {
      LastPublishedConcat(w.tabs[t].up, [Ask(exclusive)], k);
      NoPublishNoChange([Ask(exclusive)], k);
    }
    hide Sound, TabSound;
    QuietStep(w, w', t);
  }

  lemma MoreUpKeepsTab(w: World, w': World, t: nat, m: Outbound)
    requires t in w.tabs && t in w'.tabs && TabSound(w, t) && w'.slots == w.slots
    requires w'.tabs[t] == w.tabs[t].(cache := w'.tabs[t].cache, up := w.tabs[t].up + [m])
    requires m.Ask? || (m.Publish? && BlockAtHead(w.tabs[t]) && w.tabs[t].running && w.tabs[t].work[0].exclusive)
    ensures TabSound(w', t)
  {
    var up := w.tabs[t].up;
    forall i | 0 <= i < |up + [m]| && (up + [m])[i].Publish? ensures Covered(w', t, i) {
      if i < |up| {
        assert Covered(w, t, i);
        CoveredMore(w, w', t, i, m);
      } else {
        assert Queue(w.tabs[t])[0] == w.tabs[t].work[0];
      }
    }
  }

  lemma CoveredMore(w: World, w': World, t: nat, i: nat, m: Outbound)
    requires t in w.tabs && t in w'.tabs && w'.slots == w.slots && i < |w.tabs[t].up| && Covered(w, t, i)
    requires w'.tabs[t] == w.tabs[t].(cache := w'.tabs[t].cache, up := w.tabs[t].up + [m])
    ensures Covered(w', t, i)
  {
    var tab, tab' := w.tabs[t], w'.tabs[t];
    var s :| s in w.slots.held && w.slots.held[s] == Held(true, t)
             && ((BlockAtHead(tab) && tab.running && tab.work[0].slot == s) || exists j :: i < j < |tab.up| && tab.up[j] == GiveBack(s));
    if exists j :: i < j < |tab.up| && tab.up[j] == GiveBack(s) {
      var j :| i < j < |tab.up| && tab.up[j] == GiveBack(s);
      assert tab'.up[j] == GiveBack(s);
    }
  }

  lemma ReceivesKeepsSound(w: World, t: nat, w': World)
    requires Sound(w) && Next(w, Receives(t), w')
    ensures Sound(w')
  {
    var tab := w.tabs[t];
    assert TabSound(w, t);
    assert Queue(w'.tabs[t]) == Queue(tab);
    forall i | 0 <= i < |tab.up| && tab.up[i].Publish? ensures Covered(w', t, i) {
      assert Covered(w, t, i);
    }
    assert TabSound(w', t);
    hide Sound, TabSound, LastInbound, LastPublished;
    QuietStep(w, w', t);
  }

  lemma FetchesKeepsSound(w: World, t: nat, key: Key, w': World)
    requires Sound(w) && Next(w, Fetches(t, key), w')
    ensures Sound(w')
  {
    var tab := w.tabs[t];
    assert TabSound(w, t);
    assert Queue(w'.tabs[t]) == Queue(tab);
    forall i | 0 <= i < |tab.up| && tab.up[i].Publish? ensures Covered(w', t, i) {
      assert Covered(w, t, i);
    }
    assert TabSound(w', t);
    hide Sound, TabSound, LastInbound, LastPublished;
    QuietStep(w, w', t);
  }

  lemma StartsKeepsSound(w: World, t: nat, w': World)
    requires Sound(w) && Next(w, StartsBlock(t), w')
    ensures Sound(w')
  {
    var tab := w.tabs[t];
    assert TabSound(w, t);
    assert Queue(w'.tabs[t]) == Queue(tab);
    forall i | 0 <= i < |tab.up| && tab.up[i].Publish? ensures Covered(w', t, i) {
      assert Covered(w, t, i);
    }
    assert TabSound(w', t);
    hide Sound, TabSound, LastInbound, LastPublished;
    QuietStep(w, w', t);
  }

  /** Taking the head off a tab's queue keeps what SlotsOwned and QuietBehindSlots say of the rest. */
  lemma TailOwned(w: World, w': World, t: nat)
    requires t in w.tabs && t in w'.tabs && SlotsOwned(w, t) && QuietBehindSlots(Queue(w.tabs[t])) && w'.slots == w.slots
    requires |Queue(w.tabs[t])| > 0 && Queue(w'.tabs[t]) == Queue(w.tabs[t])[1..]
    requires w'.tabs[t].up == w.tabs[t].up + (if Queue(w.tabs[t])[0].Slot? then [GiveBack(Queue(w.tabs[t])[0].slot)] else [])
    ensures SlotsOwned(w', t) && QuietBehindSlots(Queue(w'.tabs[t]))
  {
    var queue, tail := Queue(w.tabs[t]), Queue(w'.tabs[t]);
    assert forall i :: 0 <= i < |tail| ==> tail[i] == queue[i + 1];
  }

  lemma AppliesKeepsSound(w: World, t: nat, w': World)
    requires Sound(w) && Next(w, AppliesExternal(t), w')
    ensures Sound(w')
  {
    var tab := w.tabs[t];
    assert TabSound(w, t);
    var queue, tail := Queue(tab), Queue(w'.tabs[t]);
    assert tail == queue[1..] && queue == [queue[0]] + tail;
    TailOwned(w, w', t);
    forall i | 0 <= i < |tab.up| && tab.up[i].Publish? ensures Covered(w', t, i) {
      assert Covered(w, t, i);
    }
    forall k | TabShows(w.storage, tab, k) ensures TabShows(w.storage, w'.tabs[t], k) {
      LastInboundConcat([queue[0]], tail, k);
      assert [queue[0]][..0] == [];
      PutAllLookup(tab.cache, queue[0].changes, k);
    }
    hide Sound, LastInbound, LastPublished, TabShows, SlotsOwned, QuietBehindSlots;
    QuietStep(w, w', t);
  }

  lemma EndsKeepsSound(w: World, t: nat, w': World)
    requires Sound(w) && Next(w, EndsBlock(t), w')
    ensures Sound(w')
  {
    var tab := w.tabs[t];
    assert TabSound(w, t);
    var queue, tail := Queue(tab), Queue(w'.tabs[t]);
    var back := GiveBack(tab.work[0].slot);
    assert tail == queue[1..] && queue == [queue[0]] + tail;
    TailOwned(w, w', t);
    forall i | 0 <= i < |w'.tabs[t].up| && w'.tabs[t].up[i].Publish? ensures Covered(w', t, i) {
      assert Covered(w, t, i);
      EndedCovered(w, w', t, i);
    }
    forall k ensures LastPublished(w'.tabs[t].up, k) == LastPublished(tab.up, k) {
      LastPublishedConcat(tab.up, [back], k);
      NoPublishNoChange([back], k);
    }
    forall k | TabShows(w.storage, tab, k) ensures TabShows(w.storage, w'.tabs[t], k) {
      LastInboundConcat([queue[0]], tail, k);
      NoExternalNoChange([queue[0]], k);
    }
    hide Sound, LastInbound, LastPublished, TabShows, SlotsOwned, QuietBehindSlots;
    QuietStep(w, w', t);
  }

  lemma EndedCovered(w: World, w': World, t: nat, i: nat)
    requires t in w.tabs && t in w'.tabs && i < |w.tabs[t].up| && Covered(w, t, i) && w'.slots == w.slots
    requires BlockAtHead(w.tabs[t]) && w'.tabs[t].up == w.tabs[t].up + [GiveBack(w.tabs[t].work[0].slot)]
    ensures Covered(w', t, i)
  {
    var tab, tab' := w.tabs[t], w'.tabs[t];
    var s :| s in w.slots.held && w.slots.held[s] == Held(true, t)
             && ((BlockAtHead(tab) && tab.running && tab.work[0].slot == s) || exists j :: i < j < |tab.up| && tab.up[j] == GiveBack(s));
    if exists j :: i < j < |tab.up| && tab.up[j] == GiveBack(s) {
      var j :| i < j < |tab.up| && tab.up[j] == GiveBack(s);
      assert tab'.up[j] == GiveBack(s);
    } else {
      assert tab'.up[|tab.up|] == GiveBack(s);
    }
  }

  // ----- a commit -----

  lemma CommitsKeepsSound(w: World, t: nat, changes: seq<Change>, w': World)
    requires Sound(w) && Next(w, Commits(t, changes), w')
    ensures Sound(w')
  {
    var tab := w.tabs[t];
    assert TabSound(w, t);
    MoreUpKeepsTab(w, w', t, Publish(changes));
    forall x | x in w'.tabs ensures TabSound(w', x) {
      if x != t { TabSoundElsewhere(w, w', t, x); }
    }
    forall x, k | x in w'.tabs ensures PublishedSound(w', x, k) && CacheSound(w', x, k) {
      if x == t {
        CommitterSound(w, t, changes, w', k);
      } else {
        OthersAfterCommit(w, t, changes, w', x, k);
      }
    }
  }

  lemma CommitterSound(w: World, t: nat, changes: seq<Change>, w': World, k: Key)
    requires Sound(w) && Next(w, Commits(t, changes), w')
    ensures PublishedSound(w', t, k) && CacheSound(w', t, k)
  {
    var tab := w.tabs[t];
    assert PublishedSound(w, t, k);
    BlocksSeeStorage(w, t, k);
    PutAllLookup(w.storage, changes, k);
    PutAllLookup(tab.cache, changes, k);
    LastPublishedConcat(tab.up, [Publish(changes)], k);
    assert [Publish(changes)][..0] == [];
    HeadBlockQueue(w, t);
    NoExternalNoChange(Queue(tab), k);
    assert Queue(w'.tabs[t]) == Queue(tab);
  }

  lemma HeadBlockQueue(w: World, t: nat)
    requires Sound(w) && t in w.tabs && BlockAtHead(w.tabs[t])
    ensures forall m :: m in Queue(w.tabs[t]) ==> !m.External?
  {
    var queue := Queue(w.tabs[t]);
    assert TabSound(w, t) && queue[0].Slot?;
    forall m | m in queue ensures !m.External? {
      var i :| 0 <= i < |queue| && queue[i] == m;
    }
  }

  lemma OthersAfterCommit(w: World, t: nat, changes: seq<Change>, w': World, x: nat, k: Key)
    requires Sound(w) && Next(w, Commits(t, changes), w') && x in w.tabs && x != t
    ensures PublishedSound(w', x, k) && CacheSound(w', x, k)
  {
    var tab := w.tabs[t];
    assert TabSound(w, t) && Queue(tab)[0] == tab.work[0];
    HolderIsAlone(w, t, tab.work[0].slot, x);
    NoPublishNoChange(w.tabs[x].up, k);
    PutAllLookup(w.storage, changes, k);
    LastPublishedConcat(tab.up, [Publish(changes)], k);
    assert [Publish(changes)][..0] == [];
    assert CacheSound(w, x, k);
    if LastPublished(w'.tabs[t].up, k).None? {
      assert Lookup(w'.storage, k) == Lookup(w.storage, k);
      forall h | h in w'.tabs && h != x && LastPublished(w.tabs[h].up, k).Some? ensures LastPublished(w'.tabs[h].up, k).Some? {
        assert h != t;
      }
    }
  }

  // ----- the broker handles a message -----

  /** Who else has published is unaffected by taking an unpublishing message off a port. */
  lemma PoppedPublished(w: World, t: nat, k: Key)
    requires t in w.tabs && |w.tabs[t].up| > 0
    ensures var head := w.tabs[t].up[0];
            LastPublished(w.tabs[t].up, k)
              == if LastPublished(w.tabs[t].up[1..], k).Some? then LastPublished(w.tabs[t].up[1..], k)
                 else if head.Publish? then LastChange(head.changes, k) else None
  {
    var up := w.tabs[t].up;
    assert up == [up[0]] + up[1..];
    LastPublishedConcat([up[0]], up[1..], k);
    assert [up[0]][..0] == [];
  }

  lemma PublishKeepsSound(w: World, t: nat, w': World)
    requires Sound(w) && t in w.tabs && |w.tabs[t].up| > 0 && w.tabs[t].up[0].Publish?
    requires w' == Relayed(Popped(w, t), t, w.tabs[t].up[0].changes)
    ensures Sound(w')
  {
    var changes := w.tabs[t].up[0].changes;
    forall x | x in w'.tabs ensures TabSound(w', x) {
      RelayKeepsTab(w, t, w', x);
    }
    forall x, k | x in w'.tabs ensures PublishedSound(w', x, k) && CacheSound(w', x, k) {
      RelayKeepsCache(w, t, w', x, k);
    }
  }

  lemma RelayKeepsTab(w: World, t: nat, w': World, x: nat)
    requires Sound(w) && t in w.tabs && |w.tabs[t].up| > 0 && w.tabs[t].up[0].Publish? && x in w.tabs
    requires w' == Relayed(Popped(w, t), t, w.tabs[t].up[0].changes)
    ensures TabSound(w', x)
  {
    assert TabSound(w, x);
    if x == t {
      forall i | 0 <= i < |w'.tabs[t].up| && w'.tabs[t].up[i].Publish? ensures Covered(w', t, i) {
        assert Covered(w, t, i + 1);
        PoppedCovered(w, w', t, i);
      }
      hide SoundTabs, Covered;
    } else {
      PublisherIsAlone(w, t, 0, x);
      hide SoundTabs, Covered;
      NotRunning(w.tabs[x]);
      SlotlessTab(w, w', x, External(w.tabs[t].up[0].changes));
    }
  }

  lemma NotRunning(tab: Tab)
    requires tab.running ==> BlockAtHead(tab)
    requires forall m :: m in Queue(tab) ==> !m.Slot?
    ensures !tab.running
  {
    assert |tab.work| > 0 ==> Queue(tab)[0] == tab.work[0] && Queue(tab)[0] in Queue(tab);
  }

  /** A tab with no slot and nothing going out takes any message in. */
  lemma SlotlessTab(w: World, w': World, x: nat, m: Inbound)
    requires x in w.tabs && x in w'.tabs && w'.tabs[x] == w.tabs[x].(down := w.tabs[x].down + [m])
    requires m.External? && !w.tabs[x].running
    requires forall m :: m in Queue(w.tabs[x]) ==> !m.Slot?
    requires forall m :: m in w.tabs[x].up ==> !m.Publish? && !m.GiveBack?
    ensures TabSound(w', x)
  {
    var queue, queue' := Queue(w.tabs[x]), Queue(w'.tabs[x]);
    assert queue' == queue + [m];
    forall i | 0 <= i < |queue'| ensures !queue'[i].Slot? {
      assert i < |queue| ==> queue[i] in queue;
    }
    forall i | 0 <= i < |w.tabs[x].up| ensures !w.tabs[x].up[i].Publish? && !w.tabs[x].up[i].GiveBack? {
      assert w.tabs[x].up[i] in w.tabs[x].up;
    }
  }

  lemma PoppedCovered(w: World, w': World, t: nat, i: nat)
    requires t in w.tabs && t in w'.tabs && i + 1 < |w.tabs[t].up| && Covered(w, t, i + 1) && w'.slots == w.slots
    requires w'.tabs[t] == w.tabs[t].(up := w.tabs[t].up[1..])
    ensures Covered(w', t, i)
  {
    var tab, tab' := w.tabs[t], w'.tabs[t];
    var s :| s in w.slots.held && w.slots.held[s] == Held(true, t)
             && ((BlockAtHead(tab) && tab.running && tab.work[0].slot == s) || exists j :: i + 1 < j < |tab.up| && tab.up[j] == GiveBack(s));
    if exists j :: i + 1 < j < |tab.up| && tab.up[j] == GiveBack(s) {
      var j :| i + 1 < j < |tab.up| && tab.up[j] == GiveBack(s);
      assert tab'.up[j - 1] == GiveBack(s);
    }
  }

  lemma RelayKeepsCache(w: World, t: nat, w': World, x: nat, k: Key)
    requires Sound(w) && t in w.tabs && |w.tabs[t].up| > 0 && w.tabs[t].up[0].Publish? && x in w.tabs
    requires w' == Relayed(Popped(w, t), t, w.tabs[t].up[0].changes)
    ensures PublishedSound(w', x, k) && CacheSound(w', x, k)
  {
    var changes := w.tabs[t].up[0].changes;
    assert PublishedSound(w, x, k) && PublishedSound(w, t, k) && CacheSound(w, x, k);
    PoppedPublished(w, t, k);
    var queue, queue' := Queue(w.tabs[x]), Queue(w'.tabs[x]);
    if x != t {
      assert queue' == queue + [External(changes)];
      LastInboundConcat(queue, [External(changes)], k);
      assert [External(changes)][..0] == [];
    }
    if forall h :: h in w'.tabs && h != x ==> LastPublished(w'.tabs[h].up, k).None? {
      forall h | h in w.tabs && h != x && h != t ensures LastPublished(w.tabs[h].up, k).None? {
        assert w'.tabs[h].up == w.tabs[h].up;
      }
      assert x != t ==> LastPublished(w'.tabs[t].up, k).None?;
    }
  }

  // ----- slots -----

  /** Slots newly granted are held as asked, under numbers never used before. */
  ghost predicate FreshGrants(before: Slots, after: Slots) {
    var grants := NewGrants(before, after);
    && (forall slot :: slot in before.held ==> slot in after.held && after.held[slot] == before.held[slot])
    && (forall i :: 0 <= i < |grants| ==>
          && grants[i].1 >= before.next && grants[i].1 in after.held
          && after.held[grants[i].1] == Held(grants[i].0.exclusive, grants[i].0.port))
    && (forall i, j :: 0 <= i < j < |grants| ==> grants[i].1 != grants[j].1)
  }

  lemma {:induction false} GrantedFresh(s: Slots)
    requires Arbitrated(s)
    ensures FreshGrants(s, Granted(s)) && s.granted <= Granted(s).granted && s.next <= Granted(s).next
    ensures forall i :: 0 <= i < |NewGrants(s, Granted(s))| ==> NewGrants(s, Granted(s))[i].1 < Granted(s).next
    decreases |s.queue|
  {
    if |s.queue| > 0 && CanGrant(s.held, s.queue[0]) {
      hide FreshGrants, NewGrants, CanGrant;
      var one := GrantedHead(s);
      GrantedHeadArbitrated(s);
      if s.queue[0].exclusive {
        FreshNone(one);
        FreshOneMore(s, one);
      } else {
        GrantedFresh(one);
        GrantedArbitrated(one);
        FreshOneMore(s, Granted(one));
      }
    } else {
      FreshNone(s);
    }
  }

  lemma FreshNone(s: Slots)
    ensures FreshGrants(s, s) && NewGrants(s, s) == []
  {
  }

  lemma FreshOneMore(s: Slots, all: Slots)
    requires Arbitrated(s) && |s.queue| > 0
    requires FreshGrants(GrantedHead(s), all) && GrantedHead(s).granted <= all.granted && s.next < all.next
    requires forall i :: 0 <= i < |NewGrants(GrantedHead(s), all)| ==> NewGrants(GrantedHead(s), all)[i].1 < all.next
    ensures FreshGrants(s, all) && |s.granted| <= |all.granted|
    ensures forall i :: 0 <= i < |NewGrants(s, all)| ==> NewGrants(s, all)[i].1 < all.next
  {
    hide Arbitrated;
    var one := GrantedHead(s);
    var grants, rest := NewGrants(s, all), NewGrants(one, all);
    assert forall slot :: slot in s.held ==> slot < s.next by { HeldBelowNext(s); }
    assert grants == [(s.queue[0], s.next)] + rest by {
      assert all.granted[|s.granted|..] == [all.granted[|s.granted|]] + all.granted[|one.granted|..];
      assert all.granted[|s.granted|] == one.granted[|s.granted|];
    }
    forall i | 0 <= i < |grants|
      ensures grants[i].1 >= s.next && grants[i].1 in all.held && grants[i].1 < all.next
      ensures all.held[grants[i].1] == Held(grants[i].0.exclusive, grants[i].0.port)
    {
      assert i > 0 ==> grants[i] == rest[i - 1];
      assert s.next in one.held;
    }
    forall i, j | 0 <= i < j < |grants| ensures grants[i].1 != grants[j].1 {
      assert grants[j] == rest[j - 1];
      assert i > 0 ==> grants[i] == rest[i - 1];
    }
  }

  lemma HeldBelowNext(s: Slots)
    requires Arbitrated(s)
    ensures forall slot :: slot in s.held ==> slot < s.next
  {
  }

  lemma {:induction false} GrantsToShape(grants: seq<(Waiter, nat)>, t: nat)
    ensures forall i :: 0 <= i < |GrantsTo(grants, t)| ==>
              var m := GrantsTo(grants, t)[i];
              m.Slot? && exists j :: 0 <= j < |grants| && grants[j] == (Waiter(t, grants[j].0.requestId, m.exclusive), m.slot)
    ensures (forall i, j :: 0 <= i < j < |grants| ==> grants[i].1 != grants[j].1) ==>
              forall i, j :: 0 <= i < j < |GrantsTo(grants, t)| ==> GrantsTo(grants, t)[i].slot != GrantsTo(grants, t)[j].slot
  {
    if |grants| > 0 {
      var prefix, last := grants[..|grants| - 1], grants[|grants| - 1];
      GrantsToShape(prefix, t);
      forall i | 0 <= i < |GrantsTo(prefix, t)|
        ensures var m := GrantsTo(prefix, t)[i];
                exists j :: 0 <= j < |grants| - 1 && grants[j] == (Waiter(t, grants[j].0.requestId, m.exclusive), m.slot)
      {
        var m := GrantsTo(prefix, t)[i];
        var j :| 0 <= j < |prefix| && prefix[j] == (Waiter(t, prefix[j].0.requestId, m.exclusive), m.slot);
        assert grants[j] == prefix[j];
      }
      if last.0.port == t {
        assert grants[|grants| - 1] == (Waiter(t, last.0.requestId, last.0.exclusive), last.1);
      }
    }
  }

  /** Every slot newly granted to a tab goes out to it. */
  lemma {:induction false} GrantsReach(grants: seq<(Waiter, nat)>, j: nat)
    requires j < |grants|
    ensures Slot(grants[j].1, grants[j].0.exclusive) in GrantsTo(grants, grants[j].0.port)
  {
    if j < |grants| - 1 { GrantsReach(grants[..|grants| - 1], j); }
  }

  lemma OwnedMore(w: World, w': World, x: nat, more: seq<Inbound>)
    requires x in w.tabs && x in w'.tabs && SlotsOwned(w, x) && QuietBehindSlots(Queue(w.tabs[x]))
    requires Queue(w'.tabs[x]) == Queue(w.tabs[x]) + more && w'.tabs[x].up == w.tabs[x].up
    requires forall slot :: slot in w.slots.held ==>
               slot < w.slots.next && slot in w'.slots.held && w'.slots.held[slot] == w.slots.held[slot]
    requires forall i :: 0 <= i < |more| ==>
               && more[i].Slot? && more[i].slot >= w.slots.next && more[i].slot in w'.slots.held
               && w'.slots.held[more[i].slot] == Held(more[i].exclusive, x)
    requires forall i, j :: 0 <= i < j < |more| ==> more[i].slot != more[j].slot
    ensures SlotsOwned(w', x) && QuietBehindSlots(Queue(w'.tabs[x]))
  {
  }

  lemma RegrantKeepsOwned(w: World, w': World, x: nat)
    requires Arbitrated(w.slots) && x in w.tabs && SlotsOwned(w, x) && QuietBehindSlots(Queue(w.tabs[x]))
    requires w' == WithSlots(w, Granted(w.slots))
    ensures SlotsOwned(w', x) && QuietBehindSlots(Queue(w'.tabs[x]))
  {
    HeldBelowNext(w.slots);
    GrantedFresh(w.slots);
    hide Arbitrated, Granted, NewGrants, GrantsTo, CanGrant, SlotsOwned, QuietBehindSlots;
    var grants := NewGrants(w.slots, Granted(w.slots));
    GrantsToShape(grants, x);
    assert Queue(w'.tabs[x]) == Queue(w.tabs[x]) + GrantsTo(grants, x);
    OwnedMore(w, w', x, GrantsTo(grants, x));
  }

  lemma RegrantKeepsTab(w: World, w': World, x: nat)
    requires SoundTabs(w) && x in w.tabs && w' == WithSlots(w, Granted(w.slots))
    ensures TabSound(w', x)
  {
    assert TabSound(w, x);
    RegrantKeepsOwned(w, w', x);
    GrantedFresh(w.slots);
    hide SlotsOwned, QuietBehindSlots, Arbitrated, Granted, NewGrants, GrantsTo;
    forall i | 0 <= i < |w'.tabs[x].up| && w'.tabs[x].up[i].Publish? ensures Covered(w', x, i) {
      assert Covered(w, x, i);
    }
  }

  /** Granting what can be granted keeps everything, and leaves the head waiting. */
  lemma RegrantKeepsSound(w: World, w': World)
    requires SoundTabs(w) && w' == WithSlots(w, Granted(w.slots))
    ensures Sound(w')
  {
    GrantedArbitrated(w.slots);
    hide Arbitrated, Granted, TabSound;
    forall x | x in w'.tabs ensures TabSound(w', x) {
      RegrantKeepsTab(w, w', x);
    }
    forall x, k | x in w'.tabs ensures PublishedSound(w', x, k) && CacheSound(w', x, k) {
      RegrantKeepsCache(w, w', x, k);
    }
  }

  lemma RegrantKeepsCache(w: World, w': World, x: nat, k: Key)
    requires SoundTabs(w) && x in w.tabs && w' == WithSlots(w, Granted(w.slots))
    ensures PublishedSound(w', x, k) && CacheSound(w', x, k)
  {
    assert PublishedSound(w, x, k) && CacheSound(w, x, k);
    hide SoundTabs, Granted, NewGrants;
    var grants := NewGrants(w.slots, Granted(w.slots));
    GrantsToShape(grants, x);
    var queue, more := Queue(w.tabs[x]), GrantsTo(grants, x);
    assert Queue(w'.tabs[x]) == queue + more;
    NoExternalNoChange(more, k);
    LastInboundConcat(queue, more, k);
    hide GrantsTo, LastInbound, LastPublished;
    forall h | h in w.tabs ensures w'.tabs[h].up == w.tabs[h].up {
    }
  }

  /** The port's head taken off and the slots moved, before anything is granted. */
  lemma AskSettles(w: World, t: nat, slots: Slots, mid: World)
    requires Sound(w) && t in w.tabs && |w.tabs[t].up| > 0 && w.tabs[t].up[0].Ask?
    requires mid == Popped(w, t).(slots := slots)
    requires slots.held == w.slots.held && Arbitrated(slots)
    ensures SoundTabs(mid)
  {
    forall x | x in mid.tabs ensures TabSound(mid, x) {
      assert TabSound(w, x);
      SettledCovered(w, t, mid, x);
    }
    forall x, k | x in mid.tabs ensures PublishedSound(mid, x, k) && CacheSound(mid, x, k) {
      SettledCache(w, t, mid, x, k);
    }
  }

  lemma SettledCovered(w: World, t: nat, mid: World, x: nat)
    requires Sound(w) && t in w.tabs && |w.tabs[t].up| > 0 && x in w.tabs
    requires mid.slots.held == w.slots.held && mid.tabs == Popped(w, t).tabs
    ensures forall i :: 0 <= i < |mid.tabs[x].up| && mid.tabs[x].up[i].Publish? ==> Covered(mid, x, i)
  {
    assert TabSound(w, x);
    forall i | 0 <= i < |mid.tabs[x].up| && mid.tabs[x].up[i].Publish? ensures Covered(mid, x, i) {
      if x == t {
        assert Covered(w, t, i + 1);
        var w1 := mid.(slots := w.slots);
        PoppedCovered(w, w1, t, i);
        assert Covered(w1, t, i);
      } else {
        assert Covered(w, x, i);
      }
    }
  }

  lemma SettledCache(w: World, t: nat, mid: World, x: nat, k: Key)
    requires Sound(w) && t in w.tabs && |w.tabs[t].up| > 0 && !w.tabs[t].up[0].Publish? && x in w.tabs
    requires mid.tabs == Popped(w, t).tabs && mid.storage == w.storage
    ensures PublishedSound(mid, x, k) && CacheSound(mid, x, k)
  {
    assert PublishedSound(w, x, k) && CacheSound(w, x, k);
    PoppedPublished(w, t, k);
    hide LastPublished, LastInbound, TabSound;
    assert Queue(mid.tabs[x]) == Queue(w.tabs[x]);
    forall h | h in w.tabs ensures LastPublished(mid.tabs[h].up, k) == LastPublished(w.tabs[h].up, k) {
    }
  }

  /** A slot given back takes no other claim with it: an exclusive one was held alone. */
  lemma GiveBackSettles(w: World, t: nat, slot: nat, mid: World)
    requires Sound(w) && t in w.tabs && |w.tabs[t].up| > 0 && w.tabs[t].up[0] == GiveBack(slot)
    requires mid == Popped(w, t).(slots := w.slots.(held := w.slots.held - {slot}))
    ensures SoundTabs(mid)
  {
    assert TabSound(w, t);
    assert Owns(w.slots, t, slot);
    OwnReleaseArbitrated(w.slots, t, slot);
    forall x | x in mid.tabs ensures TabSound(mid, x) {
      GiveBackKeepsTab(w, t, slot, mid, x);
    }
    forall x, k | x in mid.tabs ensures PublishedSound(mid, x, k) && CacheSound(mid, x, k) {
      SettledCache(w, t, mid, x, k);
    }
  }

  lemma GiveBackKeepsTab(w: World, t: nat, slot: nat, mid: World, x: nat)
    requires Sound(w) && t in w.tabs && |w.tabs[t].up| > 0 && w.tabs[t].up[0] == GiveBack(slot) && x in w.tabs
    requires mid == Popped(w, t).(slots := w.slots.(held := w.slots.held - {slot}))
    ensures TabSound(mid, x)
  {
    assert TabSound(w, t) && TabSound(w, x);
    assert Owns(w.slots, t, slot);
    assert Queue(mid.tabs[x]) == Queue(w.tabs[x]);
    var up, up' := w.tabs[x].up, mid.tabs[x].up;
    assert x == t ==> forall i :: 0 <= i < |up'| ==> up'[i] == up[i + 1];
    forall i | 0 <= i < |up'| ensures !up'[i].Publish? {
      NothingBehindGiveBack(w, t, slot, x, if x == t then i + 1 else i);
    }
  }

  /** When a slot is given back, everything committed under it has been relayed. */
  lemma NothingBehindGiveBack(w: World, t: nat, slot: nat, x: nat, at: nat)
    requires Sound(w) && t in w.tabs && |w.tabs[t].up| > 0 && w.tabs[t].up[0] == GiveBack(slot)
    requires x in w.tabs && at < |w.tabs[x].up| && (x == t ==> at > 0)
    ensures !w.tabs[x].up[at].Publish?
  {
    assert TabSound(w, t) && TabSound(w, x);
    assert Owns(w.slots, t, slot);
    var tab := w.tabs[x];
    forall s | s in w.slots.held && w.slots.held[s] == Held(true, x)
      ensures !(BlockAtHead(tab) && tab.running && tab.work[0].slot == s)
      ensures forall j :: at < j < |tab.up| ==> tab.up[j] != GiveBack(s)
    {
      assert BlockAtHead(tab) ==> Queue(tab)[0] == tab.work[0];
    }
    assert !Covered(w, x, at);
  }

  // ----- every run -----

  lemma BrokerKeepsSound(w: World, t: nat, w': World)
    requires Sound(w) && Next(w, BrokerHandles(t), w')
    ensures Sound(w')
  {
    hide Sound, SoundTabs, Granted, Arbitrated, GrantsTo, NewGrants, FreshGrants, HeadWaits;
    match w.tabs[t].up[0]
    case Ask(exclusive) =>
      var id :| w' == WithSlots(Popped(w, t), Acquired(w.slots, Waiter(t, id, exclusive)));
      AskKeepsSound(w, t, Waiter(t, id, exclusive), w');
    case Publish(changes) => PublishKeepsSound(w, t, w');
    case GiveBack(slot) => GiveBackKeepsSound(w, t, slot, w');
  }

  lemma AskKeepsSound(w: World, t: nat, waiter: Waiter, w': World)
    requires Sound(w) && t in w.tabs && |w.tabs[t].up| > 0 && w.tabs[t].up[0].Ask?
    requires w' == WithSlots(Popped(w, t), Acquired(w.slots, waiter))
    ensures Sound(w')
  {
    var slots := w.slots.(queue := w.slots.queue + [waiter], requests := w.slots.requests + [waiter]);
    AskedArbitrated(w, waiter);
    hide Sound, SoundTabs, Granted, Arbitrated, GrantsTo, HeadWaits;
    var mid := Popped(w, t).(slots := slots);
    AskSettles(w, t, slots, mid);
    assert w' == WithSlots(mid, Granted(slots));
    RegrantKeepsSound(mid, w');
  }

  lemma AskedArbitrated(w: World, waiter: Waiter)
    requires Sound(w)
    ensures Arbitrated(w.slots.(queue := w.slots.queue + [waiter], requests := w.slots.requests + [waiter]))
  {
    hide TabSound, PublishedSound, CacheSound;
    var slots := w.slots.(queue := w.slots.queue + [waiter], requests := w.slots.requests + [waiter]);
    assert slots.requests[|slots.granted|..] == slots.queue;
  }

  lemma GiveBackKeepsSound(w: World, t: nat, slot: nat, w': World)
    requires Sound(w) && t in w.tabs && |w.tabs[t].up| > 0 && w.tabs[t].up[0] == GiveBack(slot)
    requires w' == WithSlots(Popped(w, t), Released(w.slots, t, slot))
    ensures Sound(w')
  {
    assert TabSound(w, t);
    assert Owns(w.slots, t, slot);
    hide Sound, SoundTabs, Granted, Arbitrated, GrantsTo, HeadWaits, TabSound;
    var mid := Popped(w, t).(slots := w.slots.(held := w.slots.held - {slot}));
    GiveBackSettles(w, t, slot, mid);
    assert w' == WithSlots(mid, Granted(mid.slots));
    RegrantKeepsSound(mid, w');
  }

  lemma StepKeepsSound(w: World, step: Step, w': World)
    requires Sound(w) && Next(w, step, w')
    ensures Sound(w')
  {
    hide Next, Sound;
    match step
    case Joins(t) => JoinsKeepsSound(w, t, w');
    case Asks(t, exclusive) => AsksKeepsSound(w, t, exclusive, w');
    case BrokerHandles(t) => BrokerKeepsSound(w, t, w');
    case Receives(t) => ReceivesKeepsSound(w, t, w');
    case AppliesExternal(t) => AppliesKeepsSound(w, t, w');
    case StartsBlock(t) => StartsKeepsSound(w, t, w');
    case Commits(t, changes) => CommitsKeepsSound(w, t, changes, w');
    case Fetches(t, key) => FetchesKeepsSound(w, t, key, w');
    case EndsBlock(t) => EndsKeepsSound(w, t, w');
  }

  ghost predicate Run(worlds: seq<World>, steps: seq<Step>) {
    && |worlds| == |steps| + 1
    && worlds[0].tabs == map[] && worlds[0].slots == EMPTY
    && forall i :: 0 <= i < |steps| ==> Next(worlds[i], steps[i], worlds[i + 1])
  }

  lemma {:induction false} RunsAreSound(worlds: seq<World>, steps: seq<Step>)
    requires Run(worlds, steps)
    ensures Sound(worlds[|steps|])
    decreases |steps|
  {
    if |steps| > 0 {
      hide Next, Sound;
      var n := |steps| - 1;
      RunsAreSound(worlds[..n + 1], steps[..n]);
      StepKeepsSound(worlds[n], steps[n], worlds[n + 1]);
    }
  }

  /**
   * Over every run: whenever a tab's block is at the head of its queue, which
   * is so from its start to its end, every record in the tab's cache equals
   * the stored row.
   */
  lemma EveryBlockSeesStorage(worlds: seq<World>, steps: seq<Step>, t: nat, k: Key)
    requires Run(worlds, steps) && t in worlds[|steps|].tabs && BlockAtHead(worlds[|steps|].tabs[t])
    ensures k in worlds[|steps|].tabs[t].cache ==> Lookup(worlds[|steps|].storage, k) == Some(worlds[|steps|].tabs[t].cache[k])
  {
    hide Next, Sound;
    RunsAreSound(worlds, steps);
    BlocksSeeStorage(worlds[|steps|], t, k);
  }

  /** So a commit computed from the cached record is computed from the stored one: no update of another tab is lost. */
  lemma NoLostUpdate(worlds: seq<World>, steps: seq<Step>, t: nat, k: Key, edit: Raw -> Raw, w': World)
    requires Run(worlds, steps) && t in worlds[|steps|].tabs && k in worlds[|steps|].tabs[t].cache
    requires Next(worlds[|steps|], Commits(t, [Change(k, Some(edit(worlds[|steps|].tabs[t].cache[k])))]), w')
    ensures k in worlds[|steps|].storage && w'.storage == worlds[|steps|].storage[k := edit(worlds[|steps|].storage[k])]
  {
    EveryBlockSeesStorage(worlds, steps, t, k);
    hide Run;
    var storage := worlds[|steps|].storage;
    var change := Change(k, Some(edit(worlds[|steps|].tabs[t].cache[k])));
    assert [change][..0] == [];
    assert PutAll(storage, [change]) == Put(PutAll(storage, []), change);
  }
}
