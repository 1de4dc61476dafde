/**
 * No slot is lost between the tabs and the broker: over any run every held
 * slot is on its way to its owner, in its owner's queue, or on its way back,
 * so while anyone waits something can still move.
 */
module TabSlots {
  import opened RawRecords
  import opened MemoryStores
  import opened SlotArbiters
  import opened TabFreshness

  function SlotsIn(queue: seq<Inbound>): set<nat> {
    set m | m in queue && m.Slot? :: m.slot
  }

  function GoingBack(up: seq<Outbound>): set<nat> {
    set m | m in up && m.GiveBack? :: m.slot
  }

  /** The slot is due to the tab, with it, or given back by it. */
  predicate Carries(tab: Tab, slot: nat) {
    slot in SlotsIn(Queue(tab)) || slot in GoingBack(tab.up)
  }

  ghost predicate Accounted(w: World) {
    && (forall slot :: slot in w.slots.held ==>
          var owner := w.slots.held[slot].owner;
          owner in w.tabs && Carries(w.tabs[owner], slot))
    && (forall i :: 0 <= i < |w.slots.queue| ==> w.slots.queue[i].port in w.tabs)
  }

  // ----- steps of one tab -----

  lemma OneTabKeeps(w: World, w': World, t: nat)
    requires Accounted(w) && w'.slots == w.slots
    requires w.tabs.Keys <= w'.tabs.Keys
    requires forall x :: x in w.tabs && x != t ==> w'.tabs[x] == w.tabs[x]
    requires t in w.tabs ==> forall slot :: Carries(w.tabs[t], slot) ==> Carries(w'.tabs[t], slot)
    ensures Accounted(w')
  {
    hide Carries;
  }

  lemma SameMessages(a: Tab, b: Tab)
    requires Queue(b) == Queue(a) && a.up <= b.up
    ensures forall slot :: Carries(a, slot) ==> Carries(b, slot)
  {
    forall m | m in a.up ensures m in b.up {
    }
  }

  lemma ReceivesKeeps(tab: Tab)
    requires |tab.down| > 0
    ensures forall slot :: Carries(tab, slot) ==> Carries(tab.(work := tab.work + [tab.down[0]], down := tab.down[1..]), slot)
  {
    var after := tab.(work := tab.work + [tab.down[0]], down := tab.down[1..]);
    assert Queue(after) == Queue(tab);
    SameMessages(tab, after);
  }

  lemma AppliesKeeps(tab: Tab, after: Tab)
    requires |tab.work| > 0 && tab.work[0].External?
    requires after.work == tab.work[1..] && after.down == tab.down && after.up == tab.up
    ensures forall slot :: Carries(tab, slot) ==> Carries(after, slot)
  {
    assert Queue(tab) == [tab.work[0]] + Queue(after);
  }

  /** A block that ends sends its slot back. */
  lemma EndsKeeps(tab: Tab)
    requires BlockAtHead(tab)
    ensures var after := tab.(work := tab.work[1..], running := false, up := tab.up + [GiveBack(tab.work[0].slot)]);
            forall slot :: Carries(tab, slot) ==> Carries(after, slot)
  {
    var after := tab.(work := tab.work[1..], running := false, up := tab.up + [GiveBack(tab.work[0].slot)]);
    assert Queue(tab) == [tab.work[0]] + Queue(after);
    assert after.up[|tab.up|] == GiveBack(tab.work[0].slot);
    forall m | m in tab.up ensures m in after.up {
    }
  }

  // ----- steps of the broker -----

  lemma PoppedKeeps(w: World, t: nat, x: nat, slot: nat)
    requires t in w.tabs && |w.tabs[t].up| > 0 && x in w.tabs && Carries(w.tabs[x], slot)
    requires !(x == t && w.tabs[t].up[0] == GiveBack(slot))
    ensures Carries(Popped(w, t).tabs[x], slot)
  {
    var up := w.tabs[t].up;
    assert up == [up[0]] + up[1..];
  }

  /** What is newly held was newly granted, to a port that waited. */
  ghost predicate GrantedFrom(s: Slots, all: Slots) {
    var grants := NewGrants(s, all);
    && s.granted <= all.granted
    && (forall slot :: slot in all.held ==>
          || (slot in s.held && s.held[slot] == all.held[slot])
          || exists j :: 0 <= j < |grants| && grants[j].1 == slot && grants[j].0.port == all.held[slot].owner)
    && (forall j :: 0 <= j < |grants| ==> grants[j].0 in s.queue)
    && (forall waiter :: waiter in all.queue ==> waiter in s.queue)
  }

  lemma GrantedFromNone(s: Slots)
    ensures GrantedFrom(s, s)
  {
  }

  lemma GrantedFromMore(s: Slots, all: Slots)
    requires |s.queue| > 0 && GrantedFrom(GrantedHead(s), all)
    ensures GrantedFrom(s, all)
  {
    var one := GrantedHead(s);
    var grants, rest := NewGrants(s, all), NewGrants(one, all);
    assert grants == [(s.queue[0], s.next)] + rest by {
      assert all.granted[|s.granted|..] == [all.granted[|s.granted|]] + all.granted[|one.granted|..];
      assert all.granted[|s.granted|] == one.granted[|s.granted|];
    }
    assert grants[0] == (s.queue[0], s.next);
    hide NewGrants;
    forall slot | slot in all.held
      ensures (slot in s.held && s.held[slot] == all.held[slot])
              || exists j :: 0 <= j < |grants| && grants[j].1 == slot && grants[j].0.port == all.held[slot].owner
    {
      if slot in one.held && one.held[slot] == all.held[slot] {
        if slot == s.next { assert grants[0].1 == slot; }
      } else {
        var j :| 0 <= j < |rest| && rest[j].1 == slot && rest[j].0.port == all.held[slot].owner;
        assert grants[j + 1] == rest[j];
      }
    }
    forall j | 0 <= j < |grants| ensures grants[j].0 in s.queue {
      if j > 0 { assert grants[j] == rest[j - 1]; }
    }
  }

  lemma {:induction false} NewlyHeldWasGranted(s: Slots)
    ensures GrantedFrom(s, Granted(s))
    decreases |s.queue|
  {
    hide GrantedFrom, CanGrant;
    if |s.queue| > 0 && CanGrant(s.held, s.queue[0]) {
      var one := GrantedHead(s);
      if s.queue[0].exclusive {
        GrantedFromNone(one);
      } else {
        NewlyHeldWasGranted(one);
      }
      GrantedFromMore(s, Granted(s));
    } else {
      GrantedFromNone(s);
    }
  }

  lemma WithMoreDown(tab: Tab, more: seq<Inbound>, slot: nat)
    ensures Carries(tab, slot) ==> Carries(tab.(down := tab.down + more), slot)
    ensures slot in SlotsIn(more) ==> Carries(tab.(down := tab.down + more), slot)
  {
    var after := tab.(down := tab.down + more);
    assert Queue(after) == Queue(tab) + more;
  }

  lemma RegrantKeeps(mid: World, w': World)
    requires Accounted(mid) && w' == WithSlots(mid, Granted(mid.slots))
    ensures Accounted(w')
  {
    var slots := Granted(mid.slots);
    var grants := NewGrants(mid.slots, slots);
    NewlyHeldWasGranted(mid.slots);
    hide Granted, Carries, GrantsTo;
    forall slot | slot in slots.held
      ensures slots.held[slot].owner in mid.tabs && Carries(w'.tabs[slots.held[slot].owner], slot)
    {
      var owner := slots.held[slot].owner;
      if slot in mid.slots.held && mid.slots.held[slot] == slots.held[slot] {
        WithMoreDown(mid.tabs[owner], GrantsTo(grants, owner), slot);
      } else {
        var j :| 0 <= j < |grants| && grants[j].1 == slot && grants[j].0.port == owner;
        GrantsReach(grants, j);
        WithMoreDown(mid.tabs[owner], GrantsTo(grants, owner), slot);
      }
    }
    forall i | 0 <= i < |slots.queue| ensures slots.queue[i].port in w'.tabs {
      assert slots.queue[i] in mid.slots.queue;
    }
  }

  lemma AskKeeps(w: World, t: nat, waiter: Waiter, w': World)
    requires Sound(w) && Accounted(w) && t in w.tabs && |w.tabs[t].up| > 0 && w.tabs[t].up[0].Ask? && waiter.port == t
    requires w' == WithSlots(Popped(w, t), Acquired(w.slots, waiter))
    ensures Accounted(w')
  {
    var slots := w.slots.(queue := w.slots.queue + [waiter], requests := w.slots.requests + [waiter]);
    hide Sound, Granted, Carries, GrantsTo;
    var mid := Popped(w, t).(slots := slots);
    forall slot | slot in mid.slots.held ensures mid.slots.held[slot].owner in mid.tabs && Carries(mid.tabs[mid.slots.held[slot].owner], slot) {
      PoppedKeeps(w, t, w.slots.held[slot].owner, slot);
    }
    assert w' == WithSlots(mid, Granted(slots));
    RegrantKeeps(mid, w');
  }

  lemma GiveBackKeeps(w: World, t: nat, slot: nat, w': World)
    requires Sound(w) && Accounted(w) && t in w.tabs && |w.tabs[t].up| > 0 && w.tabs[t].up[0] == GiveBack(slot)
    requires w' == WithSlots(Popped(w, t), Released(w.slots, t, slot))
    ensures Accounted(w')
  {
    assert TabSound(w, t);
    assert Owns(w.slots, t, slot);
    hide Sound, SoundTabs, TabSound, SlotsOwned, Granted, Carries, GrantsTo, NewGrants;
    var mid := Popped(w, t).(slots := w.slots.(held := w.slots.held - {slot}));
    forall s | s in mid.slots.held ensures mid.slots.held[s].owner in mid.tabs && Carries(mid.tabs[mid.slots.held[s].owner], s) {
      PoppedKeeps(w, t, w.slots.held[s].owner, s);
    }
    assert w' == WithSlots(mid, Granted(mid.slots));
    RegrantKeeps(mid, w');
  }

  lemma PublishKeeps(w: World, t: nat, changes: seq<Change>, w': World)
    requires Accounted(w) && t in w.tabs && |w.tabs[t].up| > 0 && w.tabs[t].up[0] == Publish(changes)
    requires w' == Relayed(Popped(w, t), t, changes)
    ensures Accounted(w')
  {
    hide Carries;
    forall slot | slot in w.slots.held ensures w.slots.held[slot].owner in w'.tabs && Carries(w'.tabs[w.slots.held[slot].owner], slot) {
      var owner := w.slots.held[slot].owner;
      PoppedKeeps(w, t, owner, slot);
      WithMoreDown(Popped(w, t).tabs[owner], [External(changes)], slot);
    }
  }

  lemma BrokerKeeps(w: World, t: nat, w': World)
    requires Sound(w) && Accounted(w) && Next(w, BrokerHandles(t), w')
    ensures Accounted(w')
  {
    hide Sound, Accounted, WithSlots, Relayed;
    match w.tabs[t].up[0]
    case Ask(exclusive) =>
      var id :| w' == WithSlots(Popped(w, t), Acquired(w.slots, Waiter(t, id, exclusive)));
      AskKeeps(w, t, Waiter(t, id, exclusive), w');
    case Publish(changes) => PublishKeeps(w, t, changes, w');
    case GiveBack(slot) => GiveBackKeeps(w, t, slot, w');
  }

  // ----- every run -----

  lemma StepKeepsAccounted(w: World, step: Step, w': World)
    requires Sound(w) && Accounted(w) && Next(w, step, w')
    ensures Accounted(w')
  {
    hide Sound, Accounted, Carries, WithSlots, Relayed, PutAll;
    match step
    case Joins(t) => OneTabKeeps(w, w', t);
    case Asks(t, _) => SameMessages(w.tabs[t], w'.tabs[t]); OneTabKeeps(w, w', t);
    case BrokerHandles(t) => BrokerKeeps(w, t, w');
    case Receives(t) => ReceivesKeeps(w.tabs[t]); OneTabKeeps(w, w', t);
    case AppliesExternal(t) => AppliesKeeps(w.tabs[t], w'.tabs[t]); OneTabKeeps(w, w', t);
    case StartsBlock(t) => SameMessages(w.tabs[t], w'.tabs[t]); OneTabKeeps(w, w', t);
    case Commits(t, _) => SameMessages(w.tabs[t], w'.tabs[t]); OneTabKeeps(w, w', t);
    case Fetches(t, _) => SameMessages(w.tabs[t], w'.tabs[t]); OneTabKeeps(w, w', t);
    case EndsBlock(t) => EndsKeeps(w.tabs[t]); OneTabKeeps(w, w', t);
  }

  lemma {:induction false} SlotsNeverLost(worlds: seq<World>, steps: seq<Step>)
    requires Run(worlds, steps)
    ensures Accounted(worlds[|steps|])
    decreases |steps|
  {
    hide Next, Sound;
    if |steps| > 0 {
      hide Accounted;
      var n := |steps| - 1;
      SlotsNeverLost(worlds[..n + 1], steps[..n]);
      RunsAreSound(worlds[..n + 1], steps[..n]);
      StepKeepsAccounted(worlds[n], steps[n], worlds[n + 1]);
    }
  }

  /** Work already under way: nothing the app has to ask for. */
  predicate UnderWay(step: Step) {
    step.BrokerHandles? || step.Receives? || step.AppliesExternal? || step.StartsBlock? || step.EndsBlock?
  }

  lemma TabMoves(w: World, t: nat) returns (step: Step, w': World)
    requires t in w.tabs && (|Queue(w.tabs[t])| > 0 || |w.tabs[t].up| > 0)
    ensures UnderWay(step) && Next(w, step, w')
  {
    var tab := w.tabs[t];
    if |tab.up| > 0 {
      step := BrokerHandles(t);
      match tab.up[0]
      case Ask(exclusive) => w' := WithSlots(Popped(w, t), Acquired(w.slots, Waiter(t, 0, exclusive)));
      case Publish(changes) => w' := Relayed(Popped(w, t), t, changes);
      case GiveBack(slot) => w' := WithSlots(Popped(w, t), Released(w.slots, t, slot));
    } else if |tab.work| > 0 && tab.work[0].External? {
      step := AppliesExternal(t);
      w' := w.(tabs := w.tabs[t := tab.(cache := PutAll(tab.cache, tab.work[0].changes), work := tab.work[1..])]);
    } else if |tab.work| > 0 && !tab.running {
      step := StartsBlock(t);
      w' := w.(tabs := w.tabs[t := tab.(running := true)]);
    } else if |tab.work| > 0 {
      step := EndsBlock(t);
      w' := w.(tabs := w.tabs[t := tab.(work := tab.work[1..], running := false, up := tab.up + [GiveBack(tab.work[0].slot)])]);
    } else {
      step := Receives(t);
      w' := w.(tabs := w.tabs[t := tab.(work := tab.work + [tab.down[0]], down := tab.down[1..])]);
    }
  }

  /** The tabs never deadlock: while anyone waits for a slot, work already under way can go on. */
  lemma WaitersCanBeServed(worlds: seq<World>, steps: seq<Step>) returns (step: Step, w': World)
    requires Run(worlds, steps) && |worlds[|steps|].slots.queue| > 0
    ensures UnderWay(step) && Next(worlds[|steps|], step, w')
  {
    hide Next, SoundTabs, UnderWay;
    var w := worlds[|steps|];
    RunsAreSound(worlds, steps);
    SlotsNeverLost(worlds, steps);
    WaitingMeansHeld(w.slots);
    assert w.slots.held != map[];
    var slot :| slot in w.slots.held;
    step, w' := TabMoves(w, w.slots.held[slot].owner);
  }
}
