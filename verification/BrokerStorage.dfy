/**
 * What is held open is stored as its holders asked: a crash never turns a
 * memory database into a persistent one, or back.
 */
module BrokerStorage {
  import opened RawRecords
  import opened MemoryStores
  import opened Rowsets
  import opened Brokers
  import opened BrokerPlans
  import opened BrokerRuns
  import opened BrokerOpens

  /** The storage of the last open of a name in a plan. */
  function LastKind(items: seq<Item>, n: string): Option<Storage> {
    if |items| == 0 then None
    else
      var last := items[|items| - 1];
      if last.body.Open? && last.body.name == n then Some(last.body.storage) else LastKind(items[..|items| - 1], n)
  }

  lemma {:induction false} LastKindConcat(a: seq<Item>, b: seq<Item>, n: string)
    ensures LastKind(a + b, n) == if LastKind(b, n).Some? then LastKind(b, n) else LastKind(a, n)
  {
    if |b| == 0 {
      assert a + b == a;
    } else {
      assert (a + b)[..|a + b| - 1] == a + b[..|b| - 1];
      LastKindConcat(a, b[..|b| - 1], n);
    }
  }

  lemma {:induction false} OpenedHasKind(items: seq<Item>, n: string)
    requires LastEffect(items, n) == Some(true)
    ensures LastKind(items, n).Some?
  {
    if Effect(items[|items| - 1], n).None? { OpenedHasKind(items[..|items| - 1], n); }
  }

  lemma OneItem(item: Item, n: string)
    ensures LastEffect([item], n) == Effect(item, n)
    ensures LastKind([item], n) == if Effect(item, n) == Some(true) then Some(item.body.storage) else None
  {
    assert [item][..0] == [];
  }

  /** One held name: the open that will leave it open, or that did, is under its storage. */
  ghost predicate KindSound(plan: seq<Item>, ran: nat, open: Option<Storage>, kind: Storage, n: string)
    requires ran <= |plan|
  {
    && (LastEffect(plan, n) == Some(true) ==> LastKind(plan, n) == Some(kind))
    && (LastEffect(plan[ran..], n).None? && open.Some? ==> open == Some(kind))
  }

  ghost predicate StorageSound(w: World)
    requires |w.done| <= |Plan(w.b)|
  {
    && w.b.storage.Keys == w.b.holders.Keys
    && forall n :: n in w.b.storage ==> KindSound(Plan(w.b), |w.done|, Lookup(w.open, n), w.b.storage[n], n)
  }

  lemma AppendedKind(plan: seq<Item>, ran: nat, open: Option<Storage>, kind: Storage, item: Item, n: string)
    requires ran <= |plan|
    requires Effect(item, n).None? ==> KindSound(plan, ran, open, kind, n)
    requires Effect(item, n) == Some(true) ==> item.body.storage == kind
    requires Effect(item, n) != Some(false)
    ensures KindSound(plan + [item], ran, open, kind, n)
  {
    OneItem(item, n);
    LastEffectConcat(plan, [item], n);
    LastKindConcat(plan, [item], n);
    assert (plan + [item])[ran..] == plan[ran..] + [item];
    LastEffectConcat(plan[ran..], [item], n);
  }

  lemma RanKind(plan: seq<Item>, i: nat, open: map<string, Storage>, choice: bool, kind: Storage, n: string)
    requires i < |plan| && KindSound(plan, i, Lookup(open, n), kind, n) && NameSound(plan, i, n in open, true, n)
    ensures KindSound(plan, i + 1, Lookup(SqlRun(open, plan[i].body, choice).1, n), kind, n)
  {
    var item, rest := plan[i], plan[i + 1..];
    OneItem(item, n);
    assert plan == plan[..i] + ([item] + rest) && plan[i..] == [item] + rest;
    LastEffectConcat(plan[..i], [item] + rest, n);
    LastEffectConcat([item], rest, n);
    LastKindConcat(plan[..i], [item] + rest, n);
    LastKindConcat([item], rest, n);
    NoEffectNoKind(rest, n);
    RunSound(plan, i, open, choice, true, n);
  }

  lemma {:induction false} NoEffectNoKind(items: seq<Item>, n: string)
    ensures LastEffect(items, n).None? ==> LastKind(items, n).None?
  {
    if |items| > 0 { NoEffectNoKind(items[..|items| - 1], n); }
  }

  lemma AnsweredKind(plan: seq<Item>, ran: nat, open: Option<Storage>, kind: Storage, n: string)
    requires 0 < ran <= |plan| && KindSound(plan, ran, open, kind, n)
    ensures KindSound(plan[1..], ran - 1, open, kind, n)
  {
    assert plan == [plan[0]] + plan[1..] && plan[1..][ran - 1..] == plan[ran..];
    LastEffectConcat([plan[0]], plan[1..], n);
    LastKindConcat([plan[0]], plan[1..], n);
    if LastEffect(plan[1..], n) == Some(true) { OpenedHasKind(plan[1..], n); }
  }

  /** Restores go out under the storage their name is held with. */
  lemma {:induction false} RestoresKind(b: State, epoch: nat, names: seq<string>, n: string)
    requires n in b.storage
    ensures LastEffect(Restores(b, epoch, names), n).Some? ==> LastKind(Restores(b, epoch, names), n) == Some(b.storage[n])
  {
    if |names| > 0 {
      var prefix, last := names[..|names| - 1], names[|names| - 1];
      RestoresKind(b, epoch, prefix, n);
      var item := Item(Restorer(epoch), -1, Open(last, if last in b.storage then b.storage[last] else Opfs), false, None);
      OneItem(item, n);
      LastEffectConcat(Restores(b, epoch, prefix), [item], n);
      LastKindConcat(Restores(b, epoch, prefix), [item], n);
    }
  }

  lemma AdoptedKind(restores: seq<Item>, plan: seq<Item>, ran: nat, open: Option<Storage>, kind: Storage, n: string)
    requires ran <= |plan| && KindSound(plan, ran, open, kind, n)
    requires LastEffect(restores, n).Some? ==> LastKind(restores, n) == Some(kind)
    ensures KindSound(restores + plan, 0, None, kind, n)
  {
    LastEffectConcat(restores, plan, n);
    LastKindConcat(restores, plan, n);
    NoEffectNoKind(plan, n);
  }

  // ----- every step -----

  /** What a request does to a name's storage agrees with what it forwards. */
  lemma StorageFollowsEffect(b: State, mid: State, tab: nat, request: Request, item: Option<Item>)
    requires NonEmptyHolders(b) && Takes(b, mid, tab, request, item) && b.storage.Keys == b.holders.Keys
    ensures mid.storage.Keys == mid.holders.Keys
    ensures forall n :: n in mid.storage && (item.None? || Effect(item.value, n).None?) ==> n in b.storage && mid.storage[n] == b.storage[n]
    ensures item.Some? ==> forall n :: n in mid.storage && Effect(item.value, n).Some? ==>
              Effect(item.value, n).value && item.value.body.storage == mid.storage[n]
  {
  }

  lemma TabSendsKeepsKinds(w: World, tab: nat, request: Request, w': World)
    requires Sound(w) && StorageSound(w) && Next(w, TabSends(tab, request), w')
    ensures |w'.done| <= |Plan(w'.b)| && StorageSound(w')
  {
    TabSendsBooks(w, tab, request, w');
    hide Wired, Handled, Forwarded, KindSound, NameSound, Plan, Takes, JoinsSound, Effect;
    var mid, item := HandledShape(w.b, tab, request);
    StorageFollowsEffect(w.b, mid, tab, request, item);
    PlanElsewhere(w.b, mid);
    if item.Some? {
      ReadyMeansFlushed(w.b, w.retired);
      ForwardedPlan(mid, item.value);
    }
    assert w'.b.storage == mid.storage && w'.b.holders == mid.holders;
    forall n | n in mid.storage ensures KindSound(Plan(w'.b), |w.done|, Lookup(w.open, n), mid.storage[n], n) {
      if item.Some? {
        AppendedKind(Plan(w.b), |w.done|, Lookup(w.open, n), mid.storage[n], item.value, n);
      }
    }
  }

  lemma RunsKeepsKinds(w: World, choice: bool, w': World)
    requires Sound(w) && StorageSound(w) && Next(w, Runs(choice), w')
    ensures |w'.done| <= |Plan(w'.b)| && StorageSound(w')
  {
    hide Wired, KindSound, NameSound, Plan, SqlRun;
    OutstandingIsPlan(w);
    PlanElsewhere(w.b, w'.b);
    forall n | n in w'.b.storage ensures KindSound(Plan(w'.b), |w'.done|, Lookup(w'.open, n), w'.b.storage[n], n) {
      assert NameSound(Plan(w.b), |w.done|, StandsOpen(w, n), n in w.b.holders, n);
      RanKind(Plan(w.b), |w.done|, w.open, choice, w.b.storage[n], n);
    }
  }

  lemma AnswersKeepsKinds(w: World, w': World)
    requires Sound(w) && StorageSound(w) && Next(w, Answers, w')
    ensures |w'.done| <= |Plan(w'.b)| && StorageSound(w')
  {
    AnswersKeepsSound(w, w');
    var taken := AnswersUndoNothing(w);
    DeliveredEffect(w.b, taken, taken, w.done[0], w.retired);
    DeliveredStorage(taken, w.b.routes[0].item, w.done[0]);
    hide Sound, Wired, KindSound, Plan, Responded, Delivered, Outstanding;
    forall n | n in w'.b.storage ensures KindSound(Plan(w'.b), |w'.done|, Lookup(w'.open, n), w'.b.storage[n], n) {
      AnsweredKind(Plan(w.b), |w.done|, Lookup(w.open, n), w.b.storage[n], n);
    }
  }

  lemma DeliveredStorage(b: State, item: Item, ok: bool)
    ensures Delivered(b, item, ok).storage == b.storage
  {
    if item.port.Restorer? {
      var counted := b.(reopens := Reopened(b, item.port.epoch).reopens);
      FlushedPlan(counted.(ready := true));
      var left := (if item.port.epoch in b.reopens then b.reopens[item.port.epoch] else 0) - 1;
      FlushedPlan(b.(reopens := b.reopens[item.port.epoch := left], ready := true));
    }
  }

  lemma DiesKeepsKinds(w: World, w': World)
    requires Sound(w) && StorageSound(w) && Next(w, Dies, w')
    ensures |w'.done| <= |Plan(w'.b)| && StorageSound(w')
  {
    ResetPlan(w.b);
    hide Sound, Plan, OpenedNames, KindSound;
    forall n | n in w'.b.storage ensures KindSound(Plan(w'.b), 0, None, w'.b.storage[n], n) {
      ResetKind(Plan(w.b), |w.done|, Lookup(w.open, n), w.b.storage[n], n);
    }
  }

  lemma ResetKind(plan: seq<Item>, ran: nat, open: Option<Storage>, kind: Storage, n: string)
    requires ran <= |plan| && KindSound(plan, ran, open, kind, n)
    ensures KindSound(plan, 0, None, kind, n)
  {
  }

  lemma AdoptsKeepsKinds(w: World, names: seq<string>, w': World)
    requires Sound(w) && StorageSound(w) && Next(w, Adopts(names), w')
    ensures |w'.done| <= |Plan(w'.b)| && StorageSound(w')
  {
    AdoptedPlan(w.b, names);
    AdoptedStorage(w.b, names);
    hide Plan, Adopted, Restores, KindSound, Enumerates, BooksSound, JoinsSound, Wired;
    var restores := Restores(w.b, w.b.epochs, names);
    forall n | n in w'.b.storage ensures KindSound(Plan(w'.b), 0, None, w'.b.storage[n], n) {
      RestoresKind(w.b, w.b.epochs, names, n);
      AdoptedKind(restores, Plan(w.b), |w.done|, Lookup(w.open, n), w.b.storage[n], n);
    }
  }

  lemma AdoptedStorage(b: State, names: seq<string>)
    requires b.compute.None?
    ensures Adopted(b, names).storage == b.storage
  {
    var live := b.(compute := Some(b.epochs), epochs := b.epochs + 1, restore := {}, posted := []);
    FlushedPlan(live.(ready := true));
    SentRestoresPlan(live.(reopens := live.reopens[b.epochs := |names|]), b.epochs, names);
  }

  lemma StepKeepsKinds(w: World, step: Step, w': World)
    requires Sound(w) && StorageSound(w) && Next(w, step, w')
    ensures |w'.done| <= |Plan(w'.b)| && StorageSound(w')
  {
    hide Next, Sound, StorageSound, Responded;
    match step
    case TabSends(tab, request) => TabSendsKeepsKinds(w, tab, request, w');
    case Runs(choice) => RunsKeepsKinds(w, choice, w');
    case Answers => AnswersKeepsKinds(w, w');
    case LateAnswer(routeId, ok) => LateKeepsKinds(w, routeId, ok, w');
    case Dies => DiesKeepsKinds(w, w');
    case Adopts(names) => AdoptsKeepsKinds(w, names, w');
  }

  lemma LateKeepsKinds(w: World, routeId: nat, ok: bool, w': World)
    requires Sound(w) && StorageSound(w) && Next(w, LateAnswer(routeId, ok), w')
    ensures |w'.done| <= |Plan(w'.b)| && StorageSound(w')
  {
    hide BooksSound, JoinsSound, Wired, Responded;
    LateAnswerDropped(w, routeId, ok);
  }

  lemma {:induction false} KindsOverRuns(worlds: seq<World>, steps: seq<Step>)
    requires Run(worlds, steps) && PoliteRun(worlds, steps)
    ensures Sound(worlds[|steps|]) && StorageSound(worlds[|steps|])
    decreases |steps|
  {
    PoliteRunsAreSound(worlds, steps);
    if |steps| > 0 {
      hide Next, Sound, StorageSound, Polite;
      var n := |steps| - 1;
      KindsOverRuns(worlds[..n + 1], steps[..n]);
      StepKeepsKinds(worlds[n], steps[n], worlds[n + 1]);
    }
  }

  /** Once drained, every held name is open under the storage its holders opened it with. */
  lemma HeldStorageSurvivesCrashes(worlds: seq<World>, steps: seq<Step>)
    requires Run(worlds, steps) && PoliteRun(worlds, steps)
    requires var b := worlds[|steps|].b; b.compute.Some? && b.routes == [] && b.backlog == []
    ensures worlds[|steps|].open == worlds[|steps|].b.storage
  {
    hide Next, Polite;
    KindsOverRuns(worlds, steps);
    DrainedOpensAreHeld(worlds, steps);
    var w := worlds[|steps|];
    assert Plan(w.b) == [];
    forall n | n in w.open ensures w.open[n] == w.b.storage[n] {
      assert KindSound(Plan(w.b), |w.done|, Lookup(w.open, n), w.b.storage[n], n);
    }
  }
}
