/**
 * Closing a database (packages/core/src/database/Database.ts, WorkQueue.ts):
 * the counters, flags and work queue, one method per stretch of code between
 * two awaits.
 */
module CloseDrain {

  datatype Work = Block(slotted: bool) | Apply | Barrier

  /** Where close is: what it awaits, whether it has been woken, and the driver's own close. */
  datatype Closer =
    | NotClosing
    | AwaitsAccepted
    | AcceptedWoken
    | Enqueued
    | AwaitsDirect
    | DirectWoken
    | ClosingDriver
    | Closed

  /**
   * scheduled is the microtask that starts the next item; waiting and
   * releasing count blocks outside the queue, before their slot and after
   * their work; driverCloses counts calls of the driver's close.
   */
  datatype Life = Life(
    accepted: int,
    direct: int,
    closeRequested: bool,
    teardownStarted: bool,
    closer: Closer,
    waiting: nat,
    releasing: nat,
    queue: seq<Work>,
    executing: bool,
    scheduled: bool,
    driverCloses: nat
  )

  const OPEN := Life(0, 0, false, false, NotClosing, 0, 0, [], false, false, 0)

  datatype Event =
    | BeginBlock(slotted: bool)
    | SlotGranted
    | SlotFailed
    | ExecuteNext
    | HeadSettles
    | SlotReleased
    | BeginDirect
    | EndDirect
    | BeginApply
    | Close
    | CloseGoesOn
    | BarrierGoesOn

  // ----- what each stretch does -----

  function DriverClosing(s: Life): Life {
    s.(driverCloses := s.driverCloses + 1, closer := ClosingDriver)
  }

  /** The head's work starts; the barrier's own first stretch runs with it. */
  function Started(s: Life): Life
    requires |s.queue| > 0
  {
    var running := s.(executing := true, scheduled := false);
    if !running.queue[0].Barrier? then running
    else
      var torn := running.(teardownStarted := true);
      if torn.direct > 0 then torn.(closer := AwaitsDirect) else DriverClosing(torn)
  }

  function Pushed(s: Life, w: Work): Life {
    var longer := s.(queue := s.queue + [w]);
    if |longer.queue| == 1 then Started(longer) else longer
  }

  /** acceptedWork drops; at zero a waiting close is woken. */
  function Dropped(s: Life): Life {
    var less := s.(accepted := s.accepted - 1);
    if less.accepted == 0 && less.closer == AwaitsAccepted then less.(closer := AcceptedWoken) else less
  }

  predicate Enabled(s: Life, e: Event) {
    match e
    case SlotGranted => s.waiting > 0
    case SlotFailed => s.waiting > 0
    case ExecuteNext => s.scheduled && |s.queue| > 0
    case HeadSettles => s.executing && |s.queue| > 0 && (s.queue[0].Barrier? ==> s.closer == ClosingDriver)
    case SlotReleased => s.releasing > 0
    case EndDirect => s.direct > 0
    case CloseGoesOn => s.closer == AcceptedWoken
    case BarrierGoesOn => s.closer == DirectWoken
    case _ => true
  }

  function After(s: Life, e: Event): Life
    requires Enabled(s, e)
  {
    match e
    case BeginBlock(slotted) =>
      if s.closeRequested then s
      else if slotted then s.(accepted := s.accepted + 1, waiting := s.waiting + 1)
      else Pushed(s.(accepted := s.accepted + 1), Block(false))
    case SlotGranted => Pushed(s.(waiting := s.waiting - 1), Block(true))
    case SlotFailed => Dropped(s.(waiting := s.waiting - 1))
    case ExecuteNext => Started(s)
    case HeadSettles =>
      var head := s.queue[0];
      var shifted := s.(executing := false, queue := s.queue[1..], scheduled := |s.queue| > 1);
      (match head
       case Block(slotted) => if slotted then shifted.(releasing := shifted.releasing + 1) else Dropped(shifted)
       case Apply => shifted
       case Barrier => shifted.(closer := Closed))
    case SlotReleased => Dropped(s.(releasing := s.releasing - 1))
    case BeginDirect => if s.teardownStarted then s else s.(direct := s.direct + 1)
    case EndDirect =>
      var less := s.(direct := s.direct - 1);
      if less.direct == 0 && less.closer == AwaitsDirect then less.(closer := DirectWoken) else less
    case BeginApply => if s.closeRequested then s else Pushed(s, Apply)
    case Close =>
      if s.closer != NotClosing then s
      else
        var asked := s.(closeRequested := true);
        if asked.accepted > 0 then asked.(closer := AwaitsAccepted)
        else Pushed(asked.(closer := Enqueued), Barrier)
    case CloseGoesOn => Pushed(s.(closer := Enqueued), Barrier)
    case BarrierGoesOn => DriverClosing(s)
  }

  // ----- the methods -----

  class Lifecycle {
    var acceptedWork: int
    var directWork: int
    var closeRequested: bool
    var teardownStarted: bool
    var closer: Closer
    var waiting: nat
    var releasing: nat
    var queue: seq<Work>
    var executing: bool
    var scheduled: bool
    var driverCloses: nat

    constructor ()
      ensures Now() == OPEN
    {
      acceptedWork, directWork := 0, 0;
      closeRequested, teardownStarted, closer := false, false, NotClosing;
      waiting, releasing := 0, 0;
      queue, executing, scheduled := [], false, false;
      driverCloses := 0;
    }

    ghost function Now(): Life
      reads this
    {
      Life(acceptedWork, directWork, closeRequested, teardownStarted, closer, waiting, releasing, queue, executing, scheduled, driverCloses)
    }

    /** WorkQueue.executeNext, up to the await of the item's work. */
    method StartHead()
      requires |queue| > 0
      modifies this
      ensures Now() == Started(old(Now()))
    {
      executing, scheduled := true, false;
      if queue[0].Barrier? {
        teardownStarted := true;
        if directWork > 0 {
          closer := AwaitsDirect;
        } else {
          CloseDriver();
        }
      }
    }

    method CloseDriver()
      modifies this
      ensures Now() == DriverClosing(old(Now()))
    {
      driverCloses := driverCloses + 1;
      closer := ClosingDriver;
    }

    /** WorkQueue.enqueue. */
    method Enqueue(w: Work)
      modifies this
      ensures Now() == Pushed(old(Now()), w)
    {
      queue := queue + [w];
      if |queue| == 1 { StartHead(); }
    }

    method DropAccepted()
      modifies this
      ensures Now() == Dropped(old(Now()))
    {
      acceptedWork := acceptedWork - 1;
      if acceptedWork == 0 && closer == AwaitsAccepted { closer := AcceptedWoken; }
    }

    /** withWorkSlot, up to its first await; false is the refusal. */
    method WithWorkSlot(slotted: bool) returns (admitted: bool)
      modifies this
      ensures Now() == After(old(Now()), BeginBlock(slotted))
      ensures admitted <==> !old(closeRequested)
      ensures admitted ==> acceptedWork == old(acceptedWork) + 1
      ensures admitted ==> if slotted then waiting == old(waiting) + 1 && queue == old(queue)
                           else waiting == old(waiting) && queue == old(queue) + [Block(false)]
    {
      if closeRequested { return false; }
      acceptedWork := acceptedWork + 1;
      if slotted {
        waiting := waiting + 1;
      } else {
        Enqueue(Block(false));
      }
      admitted := true;
    }

    method OnSlot(granted: bool)
      requires waiting > 0
      modifies this
      ensures Now() == After(old(Now()), if granted then SlotGranted else SlotFailed)
      ensures waiting == old(waiting) - 1
      ensures if granted then queue == old(queue) + [Block(true)] && acceptedWork == old(acceptedWork)
              else queue == old(queue) && acceptedWork == old(acceptedWork) - 1
    {
      waiting := waiting - 1;
      if granted { Enqueue(Block(true)); } else { DropAccepted(); }
    }

    method OnHeadSettled()
      requires Enabled(Now(), HeadSettles)
      modifies this
      ensures Now() == After(old(Now()), HeadSettles)
    {
      var head := queue[0];
      executing := false;
      scheduled := |queue| > 1;
      queue := queue[1..];
      match head
      case Block(slotted) =>
        if slotted { releasing := releasing + 1; } else { DropAccepted(); }
      case Apply =>
      case Barrier => closer := Closed;
    }

    method OnReleased()
      requires releasing > 0
      modifies this
      ensures Now() == After(old(Now()), SlotReleased)
    {
      releasing := releasing - 1;
      DropAccepted();
    }

    method GateDirect() returns (admitted: bool)
      modifies this
      ensures Now() == After(old(Now()), BeginDirect)
      ensures admitted <==> !old(teardownStarted)
      ensures directWork == old(directWork) + if admitted then 1 else 0
    {
      if teardownStarted { return false; }
      directWork := directWork + 1;
      admitted := true;
    }

    method OnDirectDone()
      requires directWork > 0
      modifies this
      ensures Now() == After(old(Now()), EndDirect)
    {
      directWork := directWork - 1;
      if directWork == 0 && closer == AwaitsDirect { closer := DirectWoken; }
    }

    method ApplyExternalChanges() returns (admitted: bool)
      modifies this
      ensures Now() == After(old(Now()), BeginApply)
      ensures admitted <==> !old(closeRequested)
      ensures queue == old(queue) + if admitted then [Apply] else []
    {
      if closeRequested { return false; }
      Enqueue(Apply);
      admitted := true;
    }

    /** close: a repeated call joins the first. */
    method CloseDatabase()
      modifies this
      ensures Now() == After(old(Now()), Close)
      ensures old(closer) == NotClosing ==>
                closeRequested && if old(acceptedWork) > 0 then closer == AwaitsAccepted && queue == old(queue)
                                  else queue == old(queue) + [Barrier] && closer != NotClosing
      ensures old(closer) != NotClosing ==> Now() == old(Now())
    {
      if closer != NotClosing { return; }
      closeRequested := true;
      if acceptedWork > 0 {
        closer := AwaitsAccepted;
        return;
      }
      closer := Enqueued;
      Enqueue(Barrier);
    }

    method OnWoken()
      requires closer == AcceptedWoken || closer == DirectWoken
      modifies this
      ensures Now() == After(old(Now()), if old(closer) == AcceptedWoken then CloseGoesOn else BarrierGoesOn)
    {
      if closer == AcceptedWoken {
        closer := Enqueued;
        Enqueue(Barrier);
      } else {
        CloseDriver();
      }
    }
  }

  // ----- what every interleaving keeps -----

  function Blocks(queue: seq<Work>): nat {
    if |queue| == 0 then 0 else Blocks(queue[..|queue| - 1]) + if queue[|queue| - 1].Block? then 1 else 0
  }

  predicate NoBarrier(queue: seq<Work>) {
    forall i :: 0 <= i < |queue| ==> !queue[i].Barrier?
  }

  /** The barrier, once in the queue, is its last item. */
  predicate BarrierLast(queue: seq<Work>) {
    |queue| > 0 && forall i :: 0 <= i < |queue| ==> (queue[i].Barrier? <==> i == |queue| - 1)
  }

  /** One item runs at a time, and a nonempty queue is always going to go on. */
  predicate QueueSound(s: Life) {
    if |s.queue| == 0 then !s.executing && !s.scheduled else s.executing != s.scheduled
  }

  predicate CloserSound(s: Life) {
    match s.closer
    case NotClosing => !s.closeRequested && !s.teardownStarted && NoBarrier(s.queue)
    case AwaitsAccepted => s.closeRequested && !s.teardownStarted && NoBarrier(s.queue) && s.accepted > 0
    case AcceptedWoken => s.closeRequested && !s.teardownStarted && NoBarrier(s.queue) && s.accepted == 0
    case Enqueued =>
      s.closeRequested && !s.teardownStarted && s.accepted == 0 && BarrierLast(s.queue) && (s.executing ==> !s.queue[0].Barrier?)
    case AwaitsDirect => s.closeRequested && s.teardownStarted && s.accepted == 0 && s.queue == [Barrier] && s.executing && s.direct > 0
    case DirectWoken => s.closeRequested && s.teardownStarted && s.accepted == 0 && s.queue == [Barrier] && s.executing && s.direct == 0
    case ClosingDriver => s.closeRequested && s.teardownStarted && s.accepted == 0 && s.queue == [Barrier] && s.executing && s.direct == 0
    case Closed => s.closeRequested && s.teardownStarted && s.accepted == 0 && s.queue == [] && s.direct == 0
  }

  predicate Sound(s: Life) {
    && s.accepted == s.waiting + Blocks(s.queue) + s.releasing
    && s.direct >= 0
    && QueueSound(s)
    && CloserSound(s)
    && s.driverCloses == (if s.closer == ClosingDriver || s.closer == Closed then 1 else 0)
  }

  lemma {:induction false} BlocksTail(queue: seq<Work>)
    requires |queue| > 0
    ensures Blocks(queue) == (if queue[0].Block? then 1 else 0) + Blocks(queue[1..])
  {
    if |queue| > 1 {
      BlocksTail(queue[..|queue| - 1]);
      assert queue[..|queue| - 1][1..] == queue[1..][..|queue| - 2];
    }
  }

  lemma BlocksPushed(queue: seq<Work>, w: Work)
    ensures Blocks(queue + [w]) == Blocks(queue) + if w.Block? then 1 else 0
  {
    assert (queue + [w])[..|queue|] == queue;
  }

  lemma {:induction false} NoBlocksNone(queue: seq<Work>)
    ensures Blocks(queue) == 0 <==> forall w :: w in queue ==> !w.Block?
  {
    if |queue| > 0 {
      NoBlocksNone(queue[..|queue| - 1]);
      assert queue == queue[..|queue| - 1] + [queue[|queue| - 1]];
    }
  }

  /** Work is only ever pushed before close has seen everything accepted. */
  lemma PushedSound(s: Life, w: Work)
    requires !w.Barrier? && QueueSound(s) && CloserSound(s) && (s.closer == NotClosing || s.closer == AwaitsAccepted)
    requires s.accepted == s.waiting + Blocks(s.queue) + (if w.Block? then 1 else 0) + s.releasing
    requires s.direct >= 0 && s.driverCloses == 0
    ensures Sound(Pushed(s, w))
  {
    BlocksPushed(s.queue, w);
  }

  lemma BarrierPushedSound(s: Life)
    requires QueueSound(s) && NoBarrier(s.queue) && s.closeRequested && !s.teardownStarted && s.closer == Enqueued
    requires s.accepted == 0 == s.waiting + Blocks(s.queue) + s.releasing
    requires s.direct >= 0 && s.driverCloses == 0
    ensures Sound(Pushed(s, Barrier))
  {
    BlocksPushed(s.queue, Barrier);
  }

  lemma DroppedSound(s: Life)
    requires s.accepted - 1 == s.waiting + Blocks(s.queue) + s.releasing
    requires QueueSound(s) && CloserSound(s) && s.direct >= 0 && s.driverCloses == 0 && s.accepted > 0
    ensures Sound(Dropped(s))
  {
  }

  lemma StartsKeepsSound(s: Life)
    requires Sound(s) && Enabled(s, ExecuteNext)
    ensures Sound(After(s, ExecuteNext))
  {
  }

  lemma SettlesKeepsSound(s: Life)
    requires Sound(s) && Enabled(s, HeadSettles)
    ensures Sound(After(s, HeadSettles))
  {
    BlocksTail(s.queue);
    hide Blocks;
    var shifted := s.(executing := false, queue := s.queue[1..], scheduled := |s.queue| > 1);
    if s.queue[0] == Block(false) { DroppedSound(shifted); }
    hide Dropped;
  }

  lemma BeginsKeepsSound(s: Life, slotted: bool)
    requires Sound(s)
    ensures Sound(After(s, BeginBlock(slotted)))
  {
    if !s.closeRequested && !slotted { PushedSound(s.(accepted := s.accepted + 1), Block(false)); }
  }

  lemma CloseKeepsSound(s: Life)
    requires Sound(s)
    ensures Sound(After(s, Close))
  {
    if s.closer == NotClosing && s.accepted <= 0 { BarrierPushedSound(s.(closeRequested := true, closer := Enqueued)); }
  }

  lemma DirectKeepsSound(s: Life, e: Event)
    requires Sound(s) && Enabled(s, e) && (e == BeginDirect || e == EndDirect || e == BarrierGoesOn)
    ensures Sound(After(s, e))
  {
  }

  lemma StepKeepsSound(s: Life, e: Event)
    requires Sound(s) && Enabled(s, e)
    ensures Sound(After(s, e))
  {
    hide Pushed, Dropped, Started;
    match e
    case BeginBlock(slotted) => BeginsKeepsSound(s, slotted);
    case SlotGranted => PushedSound(s.(waiting := s.waiting - 1), Block(true));
    case SlotFailed => DroppedSound(s.(waiting := s.waiting - 1));
    case ExecuteNext => StartsKeepsSound(s);
    case HeadSettles => SettlesKeepsSound(s);
    case SlotReleased => DroppedSound(s.(releasing := s.releasing - 1));
    case BeginApply => if !s.closeRequested { PushedSound(s, Apply); }
    case Close => CloseKeepsSound(s);
    case CloseGoesOn => BarrierPushedSound(s.(closer := Enqueued));
    case _ => DirectKeepsSound(s, e);
  }

  predicate Run(lives: seq<Life>, events: seq<Event>) {
    && |lives| == |events| + 1
    && lives[0] == OPEN
    && forall i :: 0 <= i < |events| ==> Enabled(lives[i], events[i]) && lives[i + 1] == After(lives[i], events[i])
  }

  lemma {:induction false} RunsAreSound(lives: seq<Life>, events: seq<Event>)
    requires Run(lives, events)
    ensures Sound(lives[|events|])
    decreases |events|
  {
    hide Sound, After, Enabled;
    if |events| > 0 {
      var n := |events| - 1;
      RunsAreSound(lives[..n + 1], events[..n]);
      StepKeepsSound(lives[n], events[n]);
    } else {
      OpenSound();
    }
  }

  lemma OpenSound()
    ensures Sound(OPEN)
  {
  }

  /**
   * In every interleaving the driver is closed at most once, and at and after
   * that moment no accepted block, queued apply or direct operation is running,
   * queued or waiting, and none is admitted.
   */
  lemma CloseDrainsEverything(lives: seq<Life>, events: seq<Event>)
    requires Run(lives, events)
    ensures var s := lives[|events|];
            && s.driverCloses <= 1
            && (s.driverCloses == 1 ==>
                  && s.accepted == 0 && s.waiting == 0 && s.releasing == 0 && s.direct == 0
                  && (forall w :: w in s.queue ==> w == Barrier)
                  && After(s, BeginBlock(true)) == s && After(s, BeginBlock(false)) == s
                  && After(s, BeginApply) == s && After(s, BeginDirect) == s && After(s, Close) == s)
  {
    RunsAreSound(lives, events);
    NoBlocksNone(lives[|events|].queue);
  }

  /**
   * No wake-up is lost: from the moment close is called until the driver is
   * closed something can always go on, and while close waits there is work
   * whose end will wake it.
   */
  lemma CloseNeverStuck(lives: seq<Life>, events: seq<Event>)
    requires Run(lives, events) && lives[|events|].closeRequested && lives[|events|].closer != Closed
    ensures exists e :: Enabled(lives[|events|], e) && e in [SlotGranted, ExecuteNext, HeadSettles, SlotReleased, EndDirect, CloseGoesOn, BarrierGoesOn]
    ensures lives[|events|].closer == AwaitsAccepted ==> lives[|events|].accepted > 0
    ensures lives[|events|].closer == AwaitsDirect ==> lives[|events|].direct > 0
  {
    RunsAreSound(lives, events);
    var s := lives[|events|];
    var all := [SlotGranted, ExecuteNext, HeadSettles, SlotReleased, EndDirect, CloseGoesOn, BarrierGoesOn];
    if s.closer == AwaitsAccepted {
      if s.waiting > 0 {
        assert Enabled(s, all[0]);
      } else if s.releasing > 0 {
        assert Enabled(s, all[3]);
      } else if s.executing {
        assert Enabled(s, all[2]);
      } else {
        assert |s.queue| > 0;
        assert Enabled(s, all[1]);
      }
    } else if s.closer == AcceptedWoken {
      assert Enabled(s, all[5]);
    } else if s.closer == Enqueued {
      if s.executing { assert Enabled(s, all[2]); } else { assert Enabled(s, all[1]); }
    } else if s.closer == AwaitsDirect {
      assert Enabled(s, all[4]);
    } else if s.closer == DirectWoken {
      assert Enabled(s, all[6]);
    } else {
      assert Enabled(s, all[2]);
    }
  }

  // ----- how long close can take -----

  /** How far close itself still has to go, its own barrier included. */
  function CloserLeft(c: Closer): nat {
    match c
    case NotClosing => 8
    case AwaitsAccepted => 8
    case AcceptedWoken => 7
    case Enqueued => 3
    case AwaitsDirect => 2
    case DirectWoken => 1
    case ClosingDriver => 0
    case Closed => 0
  }

  /** An upper bound on the steps that remain once close was called. */
  function StepsLeft(s: Life): int {
    4 * s.waiting + 3 * |s.queue| + (if s.scheduled then 1 else 0) + s.releasing + s.direct + CloserLeft(s.closer)
  }

  /** New work from the app; everything else is work going on. */
  predicate FromApp(e: Event) {
    e.BeginBlock? || e.BeginApply? || e.Close? || e.BeginDirect?
  }

  /** A direct operation admitted while close still waits. */
  predicate AdmitsDirect(s: Life, e: Event) {
    e.BeginDirect? && !s.teardownStarted
  }

  /** Once close was called the app can only add direct operations, until the teardown starts. */
  lemma AppOnlyAddsDirects(s: Life, e: Event)
    requires Sound(s) && s.closeRequested && FromApp(e) && Enabled(s, e)
    ensures After(s, e) == if AdmitsDirect(s, e) then s.(direct := s.direct + 1) else s
  {
  }

  /** And every step of work brings its end nearer. */
  lemma WorkProgresses(s: Life, e: Event)
    requires Sound(s) && s.closeRequested && !FromApp(e) && Enabled(s, e)
    ensures After(s, e).closeRequested
    ensures StepsLeft(After(s, e)) < StepsLeft(s)
  {
    hide Pushed, Dropped;
    match e
    case SlotGranted => PushCosts(s.(waiting := s.waiting - 1), Block(true));
    case SlotFailed => DropCosts(s.(waiting := s.waiting - 1));
    case SlotReleased => DropCosts(s.(releasing := s.releasing - 1));
    case HeadSettles => DropCosts(s.(executing := false, queue := s.queue[1..], scheduled := |s.queue| > 1));
    case CloseGoesOn => PushCosts(s.(closer := Enqueued), Barrier);
    case _ =>
  }

  lemma PushCosts(s: Life, w: Work)
    requires w.Barrier? ==> s.closer == Enqueued
    ensures StepsLeft(Pushed(s, w)) <= StepsLeft(s) + 3 && Pushed(s, w).closeRequested == s.closeRequested
  {
  }

  lemma DropCosts(s: Life)
    ensures StepsLeft(Dropped(s)) <= StepsLeft(s) && Dropped(s).closeRequested == s.closeRequested
  {
  }

  function WorkSteps(events: seq<Event>): nat {
    if |events| == 0 then 0 else WorkSteps(events[..|events| - 1]) + if FromApp(events[|events| - 1]) then 0 else 1
  }

  function DirectsAdmitted(lives: seq<Life>, events: seq<Event>, from: nat): nat
    requires |lives| == |events| + 1 && from <= |events|
    decreases |events|
  {
    if |events| == from then 0
    else
      var n := |events| - 1;
      DirectsAdmitted(lives[..n + 1], events[..n], from) + if AdmitsDirect(lives[n], events[n]) then 1 else 0
  }

  /**
   * Close finishes: after the call, at most as many steps of work are taken
   * as StepsLeft counted then, plus one for each direct operation admitted
   * since; by CloseNeverStuck one can be taken until the driver is closed.
   */
  lemma {:induction false} CloseFinishes(lives: seq<Life>, events: seq<Event>, from: nat)
    requires Run(lives, events) && from <= |events| && lives[from].closeRequested
    ensures lives[|events|].closeRequested && StepsLeft(lives[|events|]) >= 0
    ensures WorkSteps(events[from..]) + StepsLeft(lives[|events|]) <= StepsLeft(lives[from]) + DirectsAdmitted(lives, events, from)
    decreases |events|
  {
    hide StepsLeft, After, Enabled, FromApp, AdmitsDirect, Sound;
    RunsAreSound(lives, events);
    LeftIsNat(lives[|events|]);
    if |events| > from {
      var n := |events| - 1;
      CloseFinishes(lives[..n + 1], events[..n], from);
      RunsAreSound(lives[..n + 1], events[..n]);
      StepCounts(lives[n], events[n]);
      assert events[from..][..|events| - from - 1] == events[..n][from..];
      assert events[from..][|events| - from - 1] == events[n];
    }
  }

  lemma LeftIsNat(s: Life)
    requires Sound(s)
    ensures StepsLeft(s) >= 0
  {
  }

  lemma StepCounts(s: Life, e: Event)
    requires Sound(s) && s.closeRequested && Enabled(s, e)
    ensures After(s, e).closeRequested
    ensures (if FromApp(e) then 0 else 1) + StepsLeft(After(s, e)) <= StepsLeft(s) + if AdmitsDirect(s, e) then 1 else 0
  {
    if FromApp(e) { AppOnlyAddsDirects(s, e); } else { WorkProgresses(s, e); }
  }
}
