/**
 * Write-block arbitration in the broker
 * (packages/driver-web/src/shared-worker.ts): one token queue over exclusive
 * and shared slots.
 */
module SlotArbiters {
  import opened RawRecords
  import opened MemoryStores

  datatype Waiter = Waiter(port: nat, requestId: int, exclusive: bool)
  datatype Held = Held(exclusive: bool, owner: nat)

  /** granted and requests record what was granted and asked for, in order. */
  datatype Slots = Slots(held: map<nat, Held>, queue: seq<Waiter>, next: nat, granted: seq<(Waiter, nat)>, requests: seq<Waiter>)

  const EMPTY := Slots(map[], [], 1, [], [])

  predicate HeldExclusive(held: map<nat, Held>) {
    exists slot :: slot in held && held[slot].exclusive
  }

  predicate CanGrant(held: map<nat, Held>, head: Waiter) {
    if head.exclusive then |held| == 0 else !HeldExclusive(held)
  }

  function GrantedHead(s: Slots): Slots
    requires |s.queue| > 0
  {
    var head := s.queue[0];
    s.(held := s.held[s.next := Held(head.exclusive, head.port)], queue := s.queue[1..], next := s.next + 1,
       granted := s.granted + [(head, s.next)])
  }

  function Granted(s: Slots): Slots
    decreases |s.queue|
  {
    if |s.queue| == 0 || !CanGrant(s.held, s.queue[0]) then s
    else if s.queue[0].exclusive then GrantedHead(s)
    else Granted(GrantedHead(s))
  }

  function Acquired(s: Slots, w: Waiter): Slots {
    Granted(s.(queue := s.queue + [w], requests := s.requests + [w]))
  }

  predicate Owns(s: Slots, port: nat, slot: nat) {
    slot in s.held && s.held[slot].owner == port
  }

  function Released(s: Slots, port: nat, slot: nat): Slots {
    Granted(if Owns(s, port, slot) then s.(held := s.held - {slot}) else s)
  }

  class SlotArbiter {
    var heldSlots: map<nat, Held>
    var slotQueue: seq<Waiter>
    var nextSlot: nat
    var granted: seq<(Waiter, nat)>
    ghost var requests: seq<Waiter>

    constructor ()
      ensures Now() == EMPTY
    {
      heldSlots, slotQueue, nextSlot, granted, requests := map[], [], 1, [], [];
    }

    ghost function Now(): Slots
      reads this
    {
      Slots(heldSlots, slotQueue, nextSlot, granted, requests)
    }

    method GrantSlots()
      modifies this`heldSlots, this`slotQueue, this`nextSlot, this`granted
      ensures Now() == Granted(old(Now()))
    {
      while |slotQueue| > 0
        invariant Granted(Now()) == Granted(old(Now()))
        decreases |slotQueue|
      {
        var head := slotQueue[0];
        var canGrant := if head.exclusive then |heldSlots| == 0 else !HeldExclusive(heldSlots);
        if !canGrant { return; }
        slotQueue := slotQueue[1..];
        var slot := nextSlot;
        nextSlot := nextSlot + 1;
        heldSlots := heldSlots[slot := Held(head.exclusive, head.port)];
        granted := granted + [(head, slot)];
        if head.exclusive { return; }
      }
    }

    method AcquireSlot(port: nat, requestId: int, exclusive: bool)
      modifies this
      ensures Now() == Acquired(old(Now()), Waiter(port, requestId, exclusive))
    {
      slotQueue := slotQueue + [Waiter(port, requestId, exclusive)];
      requests := requests + [Waiter(port, requestId, exclusive)];
      GrantSlots();
    }

    method ReleaseSlot(port: nat, slot: nat)
      modifies this
      ensures Now() == Released(old(Now()), port, slot)
    {
      if slot in heldSlots && heldSlots[slot].owner == port {
        heldSlots := heldSlots - {slot};
      }
      GrantSlots();
    }
  }

  // ----- what every reachable state keeps -----

  predicate ExclusiveAlone(held: map<nat, Held>) {
    forall a, b :: a in held && b in held && held[a].exclusive ==> a == b
  }

  /** Safe to grant in: numbered below next, exclusive slots alone, grants and queue in request order. */
  predicate Arbitrated(s: Slots) {
    && (forall slot :: slot in s.held ==> slot < s.next)
    && ExclusiveAlone(s.held)
    && |s.granted| + |s.queue| == |s.requests|
    && (forall i :: 0 <= i < |s.granted| ==> s.granted[i].0 == s.requests[i])
    && s.requests[|s.granted|..] == s.queue
    && |s.held| <= |s.granted|
  }

  /** Nobody at the head of the queue could be let in. */
  predicate HeadWaits(s: Slots) {
    |s.queue| > 0 ==> !CanGrant(s.held, s.queue[0])
  }

  lemma GrantedHeadArbitrated(s: Slots)
    requires Arbitrated(s) && |s.queue| > 0 && CanGrant(s.held, s.queue[0])
    ensures Arbitrated(GrantedHead(s))
    ensures |GrantedHead(s).held| == |s.held| + 1
  {
    var after := GrantedHead(s);
    assert s.next !in s.held;
    assert after.held.Keys == s.held.Keys + {s.next};
    assert |after.held| == |after.held.Keys|;
    assert |s.held| == |s.held.Keys|;
    assert after.requests[|after.granted|..] == after.queue;
    forall a, b | a in after.held && b in after.held && after.held[a].exclusive ensures a == b {
      if s.queue[0].exclusive { assert s.held == map[]; }
    }
  }

  /** Granting stops only where the head must wait, and turns queue into held one for one. */
  lemma {:induction false} GrantedArbitrated(s: Slots)
    requires Arbitrated(s)
    ensures Arbitrated(Granted(s)) && HeadWaits(Granted(s))
    ensures |Granted(s).held| - |Granted(s).granted| == |s.held| - |s.granted|
    ensures s.granted <= Granted(s).granted && Granted(s).requests == s.requests
    decreases |s.queue|
  {
    if |s.queue| > 0 && CanGrant(s.held, s.queue[0]) {
      GrantedHeadArbitrated(s);
      var after := GrantedHead(s);
      if s.queue[0].exclusive {
        assert after.held[s.next].exclusive;
        if |after.queue| > 0 { ExclusiveBlocks(after, s.next); }
      } else {
        GrantedArbitrated(after);
      }
    }
  }

  lemma ExclusiveBlocks(s: Slots, slot: nat)
    requires slot in s.held && s.held[slot].exclusive && |s.queue| > 0
    ensures HeadWaits(s)
  {
  }

  datatype SlotEvent = Acquire(waiter: Waiter) | Release(port: nat, slot: nat)

  function After(s: Slots, e: SlotEvent): Slots {
    match e
    case Acquire(w) => Acquired(s, w)
    case Release(port, slot) => Released(s, port, slot)
  }

  function AfterAll(events: seq<SlotEvent>): Slots {
    if |events| == 0 then EMPTY else After(AfterAll(events[..|events| - 1]), events[|events| - 1])
  }

  /** How many of the events released a slot by its owner. */
  function Releases(events: seq<SlotEvent>): nat {
    if |events| == 0 then 0
    else
      var before, e := events[..|events| - 1], events[|events| - 1];
      Releases(before) + if e.Release? && Owns(AfterAll(before), e.port, e.slot) then 1 else 0
  }

  /** The waiters of the acquires, in order. */
  function Asked(events: seq<SlotEvent>): seq<Waiter> {
    if |events| == 0 then []
    else Asked(events[..|events| - 1]) + match events[|events| - 1] case Acquire(w) => [w] case Release(_, _) => []
  }

  /** A release by anyone but the owner changes nothing. */
  lemma ForeignReleaseIsNothing(s: Slots, port: nat, slot: nat)
    requires HeadWaits(s) && !Owns(s, port, slot)
    ensures Released(s, port, slot) == s
  {
  }

  lemma OwnReleaseArbitrated(s: Slots, port: nat, slot: nat)
    requires Arbitrated(s) && Owns(s, port, slot)
    ensures Arbitrated(s.(held := s.held - {slot})) && |s.held - {slot}| == |s.held| - 1
  {
    var left := s.held - {slot};
    assert left.Keys == s.held.Keys - {slot};
    assert |left| == |left.Keys| && |s.held| == |s.held.Keys|;
  }

  /**
   * In every reachable state an exclusive slot is held alone, grants follow
   * request order strictly, and the head of the queue is never left waiting
   * when it could be granted.
   */
  lemma {:induction false} EveryStateArbitrated(events: seq<SlotEvent>)
    ensures var s := AfterAll(events);
            && Arbitrated(s) && HeadWaits(s)
            && |s.granted| == Releases(events) + |s.held|
            && s.requests == Asked(events)
    decreases |events|
  {
    if |events| > 0 {
      var before, e := events[..|events| - 1], events[|events| - 1];
      EveryStateArbitrated(before);
      var s := AfterAll(before);
      hide Granted, HeadWaits;
      match e
      case Acquire(w) =>
        var asked := s.(queue := s.queue + [w], requests := s.requests + [w]);
        assert asked.requests[|asked.granted|..] == asked.queue;
        GrantedArbitrated(asked);
      case Release(port, slot) =>
        hide CanGrant;
        if Owns(s, port, slot) {
          OwnReleaseArbitrated(s, port, slot);
          GrantedArbitrated(s.(held := s.held - {slot}));
        } else {
          ForeignReleaseIsNothing(s, port, slot);
        }
    }
  }

  lemma ExclusiveHeldAlone(events: seq<SlotEvent>, slot: nat)
    requires slot in AfterAll(events).held && AfterAll(events).held[slot].exclusive
    ensures AfterAll(events).held.Keys == {slot}
  {
    EveryStateArbitrated(events);
  }

  /** Everyone who ever asked was granted or waits, in the order of asking. */
  lemma GrantedThenWaiting(events: seq<SlotEvent>)
    ensures var s := AfterAll(events);
            && |s.granted| + |s.queue| == |Asked(events)|
            && (forall i :: 0 <= i < |s.granted| ==> s.granted[i].0 == Asked(events)[i])
            && s.queue == Asked(events)[|s.granted|..]
  {
    EveryStateArbitrated(events);
  }

  /** The n-th request is granted by the time n slots have been released, whatever else happens. */
  lemma GrantedAfterFinitelyManyReleases(events: seq<SlotEvent>, n: nat)
    requires n < |Asked(events)| && Releases(events) >= n
    ensures n < |AfterAll(events).granted| && AfterAll(events).granted[n].0 == Asked(events)[n]
  {
    EveryStateArbitrated(events);
    WaitingMeansHeld(AfterAll(events));
  }

  /** Somebody waits only while somebody holds. */
  lemma WaitingMeansHeld(s: Slots)
    requires HeadWaits(s)
    ensures |s.queue| > 0 ==> |s.held| > 0
  {
    assert s.held == map[] ==> !HeldExclusive(s.held);
  }
}
