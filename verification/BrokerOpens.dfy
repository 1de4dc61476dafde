/**
 * Refcounted opens survive crashes: over any run, what is open on the compute
 * follows what the tabs hold.
 */
module BrokerOpens {
  import opened RawRecords
  import opened MemoryStores
  import opened Rowsets
  import opened Brokers
  import opened BrokerPlans
  import opened BrokerRuns

  ghost predicate NonEmptyHolders(b: State) {
    forall n :: n in b.holders ==> b.holders[n] != []
  }

  /** Where the name stands before what is still to run: on the compute, or about to be restored. */
  predicate StandsOpen(w: World, n: string) {
    if w.b.compute.Some? then n in w.open else n in w.b.restore
  }

  ghost predicate BooksSound(w: World)
    requires |w.done| <= |Plan(w.b)|
  {
    && NonEmptyHolders(w.b)
    && forall n :: NameSound(Plan(w.b), |w.done|, StandsOpen(w, n), n in w.b.holders, n)
  }

  predicate NoEffectAfter(plan: seq<Item>, i: nat, n: string)
    requires i < |plan|
  {
    forall j :: i < j < |plan| ==> Effect(plan[j], n).None?
  }

  /** A join that can still be undone either counts for nothing any more or follows everything that could shut its name. */
  ghost predicate JoinSound(plan: seq<Item>, done: seq<bool>, b: State, i: nat)
    requires i < |plan|
  {
    var item := plan[i];
    item.undo ==>
      && item.port.Tab? && (item.body.Open? || item.body.Version?)
      && (item.body.Version? && item.port.tab in HoldersOf(b, item.body.name) ==> NoEffectAfter(plan, i, item.body.name))
      && (i < |done| && !done[i] ==> item.port.tab !in HoldersOf(b, item.body.name))
  }

  ghost predicate JoinsSound(w: World) {
    var plan := Plan(w.b);
    forall i :: 0 <= i < |plan| ==> JoinSound(plan, w.done, w.b, i)
  }

  ghost predicate Sound(w: World) {
    WorldWired(w) && |w.done| <= |Plan(w.b)| && BooksSound(w) && JoinsSound(w)
  }

  /** A tab asks to open a name only once its earlier open of it is answered. */
  ghost predicate Polite(w: World, step: Step) {
    step.TabSends? && step.request.OpenRequest? ==>
      forall item :: item in Plan(w.b) && item.port == Tab(step.tab) && (item.body.Open? || item.body.Version?) ==>
        item.body.name != step.request.name
  }

  // ----- holders -----

  lemma {:induction false} RemovedKeeps(ports: seq<nat>, tab: nat)
    ensures forall p :: p in Removed(ports, tab) <==> p in ports && p != tab
    ensures tab !in ports ==> Removed(ports, tab) == ports
  {
    if |ports| > 0 {
      RemovedKeeps(ports[..|ports| - 1], tab);
      assert ports == ports[..|ports| - 1] + [ports[|ports| - 1]];
    }
  }

  /** Undoing a holder that is not there changes nothing. */
  lemma UndoneNothing(b: State, tab: nat, name: string)
    requires NonEmptyHolders(b) && tab !in HoldersOf(b, name)
    ensures Undone(b, tab, name) == b
  {
    if name in b.holders {
      RemovedKeeps(b.holders[name], tab);
      assert b.holders[name := b.holders[name]] == b.holders;
    }
  }

  // ----- a tab's request -----

  /** What a request does to one name's holders is what its item will do to the name. */
  lemma HeldFollowsEffect(b: State, mid: State, tab: nat, request: Request, item: Option<Item>, n: string)
    requires NonEmptyHolders(b)
    requires Takes(b, mid, tab, request, item)
    ensures NonEmptyHolders(mid)
    ensures item.None? ==> (n in mid.holders <==> n in b.holders)
    ensures item.Some? && Effect(item.value, n).Some? ==> (n in mid.holders <==> Effect(item.value, n).value)
    ensures item.Some? && Effect(item.value, n).None? ==> (n in mid.holders <==> n in b.holders)
    ensures item.Some? && Effect(item.value, n) == Some(true) ==> n !in b.holders
    ensures forall t :: t in HoldersOf(mid, n) ==>
              t in HoldersOf(b, n) || (t == tab && request.OpenRequest? && request.name == n)
    ensures item.Some? && Effect(item.value, n).Some? ==>
              forall t :: t in HoldersOf(mid, n) ==> t == tab && request.OpenRequest? && request.name == n
  {
    if request.CloseRequest? && request.name in b.holders {
      RemovedKeeps(b.holders[request.name], tab);
    }
  }

  lemma TabSendsBooks(w: World, tab: nat, request: Request, w': World)
    requires Sound(w) && Next(w, TabSends(tab, request), w')
    ensures WorldWired(w') && |w'.done| <= |Plan(w'.b)| && BooksSound(w')
  {
    hide Wired, Handled, Forwarded, NameSound, Plan;
    var mid, item := HandledShape(w.b, tab, request);
    WiredElsewhere(w.b, mid, w.retired);
    PlanElsewhere(w.b, mid);
    PlanCovers(w.b);
    if item.Some? {
      ReadyMeansFlushed(w.b, w.retired);
      ForwardedWired(mid, item.value, w.retired);
      ForwardedPlan(mid, item.value);
      ForwardedGrows(mid, item.value);
    }
    forall n ensures NameSound(Plan(w'.b), |w'.done|, StandsOpen(w', n), n in w'.b.holders, n) {
      HeldFollowsEffect(w.b, mid, tab, request, item, n);
      assert NameSound(Plan(w.b), |w.done|, StandsOpen(w, n), n in w.b.holders, n);
      if item.Some? {
        AppendedSound(Plan(w.b), |w.done|, StandsOpen(w, n), n in w.b.holders, item.value, n);
      }
    }
    HeldFollowsEffect(w.b, mid, tab, request, item, "");
  }

  lemma ReadyMeansFlushed(b: State, retired: set<nat>)
    requires Wired(b, retired)
    ensures b.ready ==> b.backlog == []
  {
  }

  lemma PlanCovers(b: State)
    ensures |Plan(b)| == |b.routes| + |b.backlog|
  {
    ItemsAt(b.routes);
  }

  lemma ForwardedGrows(b: State, item: Item)
    ensures |Forwarded(b, item).routes| >= |b.routes|
  {
  }

  lemma TabSendsJoins(w: World, tab: nat, request: Request, w': World)
    requires Sound(w) && Next(w, TabSends(tab, request), w') && Polite(w, TabSends(tab, request))
    ensures JoinsSound(w')
  {
    hide Wired, Handled, Forwarded, NameSound, Plan, JoinSound;
    var mid, item := HandledShape(w.b, tab, request);
    PlanElsewhere(w.b, mid);
    PlanCovers(w.b);
    if item.Some? {
      ReadyMeansFlushed(w.b, w.retired);
      ForwardedPlan(mid, item.value);
    }
    var plan, plan' := Plan(w.b), Plan(w'.b);
    forall i | 0 <= i < |plan'| ensures JoinSound(plan', w'.done, w'.b, i) {
      HeldFollowsEffect(w.b, mid, tab, request, item, if plan'[i].body.Version? || plan'[i].body.Open? then plan'[i].body.name else "");
      if i < |plan| {
        assert JoinSound(plan, w.done, w.b, i);
        assert plan[i] in plan;
        JoinKept(w, w', plan', tab, request, item, i);
      } else {
        JoinNew(w', plan', tab, i);
      }
    }
  }

  lemma JoinKept(w: World, w': World, plan': seq<Item>, tab: nat, request: Request, item: Option<Item>, i: nat)
    requires i < |Plan(w.b)| && JoinSound(Plan(w.b), w.done, w.b, i)
    requires plan' == if item.Some? then Plan(w.b) + [item.value] else Plan(w.b)
    requires w'.done == w.done && Polite(w, TabSends(tab, request))
    requires Plan(w.b)[i].body.Version? || Plan(w.b)[i].body.Open? ==>
               var n := Plan(w.b)[i].body.name;
               && (forall t :: t in HoldersOf(w'.b, n) ==> t in HoldersOf(w.b, n) || (t == tab && request.OpenRequest? && request.name == n))
               && (item.Some? && Effect(item.value, n).Some? ==>
                     forall t :: t in HoldersOf(w'.b, n) ==> t == tab && request.OpenRequest? && request.name == n)
    ensures JoinSound(plan', w'.done, w'.b, i)
  {
    hide Plan, Effect;
    var plan := Plan(w.b);
    assert plan[i] in plan;
    assert plan'[i] == plan[i];
  }

  lemma JoinNew(w': World, plan': seq<Item>, tab: nat, i: nat)
    requires i < |plan'| && i == |plan'| - 1 && |w'.done| <= i
    requires plan'[i].undo ==> plan'[i].port == Tab(tab) && (plan'[i].body.Open? || plan'[i].body.Version?)
    ensures JoinSound(plan', w'.done, w'.b, i)
  {
  }

  // ----- the compute runs a request -----

  lemma OutstandingIsPlan(w: World)
    requires WorldWired(w)
    ensures Outstanding(w.b) == w.b.routes
    ensures |w.b.routes| <= |Plan(w.b)|
    ensures forall i :: 0 <= i < |w.b.routes| ==> Plan(w.b)[i] == w.b.routes[i].item
  {
    ItemsAt(w.b.routes);
  }

  lemma RunSound(plan: seq<Item>, i: nat, open: map<string, Storage>, choice: bool, held: bool, n: string)
    requires i < |plan| && NameSound(plan, i, n in open, held, n)
    ensures NameSound(plan, i + 1, n in SqlRun(open, plan[i].body, choice).1, held, n)
    ensures Effect(plan[i], n) == Some(true) ==> n !in open && SqlRun(open, plan[i].body, choice).0
  {
    assert plan[i..][1..] == plan[i + 1..];
  }

  /** A join still holding its name finds it open. */
  lemma JoinRuns(plan: seq<Item>, i: nat, open: bool, n: string)
    requires i < |plan| && plan[i].body == Version(n) && NoEffectAfter(plan, i, n)
    requires NameSound(plan, i, open, true, n)
    ensures open
  {
    forall item | item in plan[i..] ensures Effect(item, n).None? {
      var j :| 0 <= j < |plan[i..]| && plan[i..][j] == item;
      if j > 0 { assert plan[i + j] == item; }
    }
    NoEffectRuns(open, plan[i..], n);
  }

  lemma RunsKeepsSound(w: World, choice: bool, w': World)
    requires Sound(w) && Next(w, Runs(choice), w')
    ensures Sound(w')
  {
    hide Wired, NameSound, Plan, SqlRun;
    OutstandingIsPlan(w);
    PlanElsewhere(w.b, w'.b);
    var plan, i := Plan(w.b), |w.done|;
    forall n ensures NameSound(plan, i + 1, StandsOpen(w', n), n in w'.b.holders, n) {
      assert NameSound(plan, i, StandsOpen(w, n), n in w.b.holders, n);
      RunSound(plan, i, w.open, choice, n in w.b.holders, n);
    }
    forall j | 0 <= j < |plan| ensures JoinSound(plan, w'.done, w'.b, j) {
      assert JoinSound(plan, w.done, w.b, j);
      if j == i && plan[i].undo { RanJoinSound(w, choice, i); }
    }
  }

  lemma RanJoinSound(w: World, choice: bool, i: nat)
    requires Sound(w) && i == |w.done| < |Plan(w.b)| && Plan(w.b)[i].undo && w.b.compute.Some?
    ensures !SqlRun(w.open, Plan(w.b)[i].body, choice).0 ==>
              Plan(w.b)[i].port.Tab? && (Plan(w.b)[i].body.Open? || Plan(w.b)[i].body.Version?)
              && Plan(w.b)[i].port.tab !in HoldersOf(w.b, Plan(w.b)[i].body.name)
  {
    hide Wired, NameSound, Plan;
    var plan := Plan(w.b);
    assert JoinSound(plan, w.done, w.b, i);
    var n := plan[i].body.name;
    assert NameSound(plan, i, StandsOpen(w, n), n in w.b.holders, n);
    RunSound(plan, i, w.open, choice, n in w.b.holders, n);
    if plan[i].body.Version? && plan[i].port.tab in HoldersOf(w.b, n) {
      JoinRuns(plan, i, StandsOpen(w, n), n);
    }
  }

  // ----- an answer is delivered -----

  /** No undo ever takes away a holder that counts. */
  lemma AnswersUndoNothing(w: World) returns (taken: State)
    requires Sound(w) && |w.done| > 0
    ensures taken == w.b.(routes := w.b.routes[1..])
    ensures Outstanding(w.b) == w.b.routes && |w.b.routes| > 0
    ensures Responded(w.b, Outstanding(w.b)[0].routeId, w.done[0]) == Delivered(taken, w.b.routes[0].item, w.done[0])
  {
    hide NameSound, Plan, Gate;
    OutstandingIsPlan(w);
    var settled: State;
    taken, settled := AnsweredShape(w.b, w.done[0], w.retired);
    var item := w.b.routes[0].item;
    assert JoinSound(Plan(w.b), w.done, w.b, 0);
    if !w.done[0] && item.undo && item.port.Tab? {
      UndoneNothing(taken, item.port.tab, item.body.name);
    }
  }

  lemma AnswersKeepsBooks(w: World, w': World)
    requires |w.done| <= |Plan(w.b)| && BooksSound(w) && JoinsSound(w) && |w.done| > 0
    requires w'.done == w.done[1..] && w'.open == w.open
    requires Plan(w'.b) == Plan(w.b)[1..] && w'.b.holders == w.b.holders
    requires w'.b.compute == w.b.compute && w'.b.restore == w.b.restore
    ensures BooksSound(w') && JoinsSound(w')
  {
    hide NameSound, Plan, Effect;
    var plan := Plan(w.b);
    forall n ensures NameSound(Plan(w'.b), |w'.done|, StandsOpen(w', n), n in w'.b.holders, n) {
      assert NameSound(plan, |w.done|, StandsOpen(w, n), n in w.b.holders, n);
      AnsweredSound(plan, |w.done|, StandsOpen(w, n), n in w.b.holders, n);
    }
    forall i | 0 <= i < |Plan(w'.b)| ensures JoinSound(Plan(w'.b), w'.done, w'.b, i) {
      assert JoinSound(plan, w.done, w.b, i + 1);
    }
  }

  lemma AnswersKeepsSound(w: World, w': World)
    requires Sound(w) && Next(w, Answers, w')
    ensures Sound(w')
  {
    hide BooksSound, JoinsSound, Wired, Plan, Responded, Delivered, Outstanding;
    var taken := AnswersUndoNothing(w);
    DeliveredEffect(w.b, taken, taken, w.done[0], w.retired);
    PlanCovers(w.b);
    PlanCovers(w'.b);
    AnswersKeepsBooks(w, w');
  }

  /** An answer from a retired compute finds no route and changes nothing. */
  lemma LateAnswerDropped(w: World, routeId: nat, ok: bool)
    requires WorldWired(w) && routeId in w.retired
    ensures Responded(w.b, routeId, ok) == w.b
  {
    hide Gate;
    forall r | r in w.b.routes ensures r.routeId != routeId {
      var i :| 0 <= i < |w.b.routes| && w.b.routes[i] == r;
      assert w.b.posted[|w.b.posted| - |w.b.routes| + i] == r;
    }
  }

  // ----- the compute dies, another is adopted -----

  lemma DiesKeepsBooks(w: World, w': World)
    requires |w.done| <= |Plan(w.b)| && BooksSound(w) && JoinsSound(w)
    requires w'.done == [] && w'.b.compute.None? && Plan(w'.b) == Plan(w.b) && w'.b.holders == w.b.holders
    requires w'.b.restore == w.b.holders.Keys - OpenedNames(Plan(w.b))
    ensures BooksSound(w') && JoinsSound(w')
  {
    hide NameSound, Plan, OpenedNames, Effect;
    var plan := Plan(w.b);
    forall n ensures NameSound(plan, 0, StandsOpen(w', n), n in w'.b.holders, n) {
      assert NameSound(plan, |w.done|, StandsOpen(w, n), n in w.b.holders, n);
      ReplaySound(plan, |w.done|, StandsOpen(w, n), n in w.b.holders, n);
    }
    forall i | 0 <= i < |plan| ensures JoinSound(plan, [], w'.b, i) {
      assert JoinSound(plan, w.done, w.b, i);
    }
  }

  lemma DiesKeepsSound(w: World, w': World)
    requires Sound(w) && Next(w, Dies, w')
    ensures Sound(w')
  {
    ResetWired(w.b, w.retired);
    ResetPlan(w.b);
    hide BooksSound, JoinsSound, Wired, Plan, OpenedNames;
    DiesKeepsBooks(w, w');
  }

  /** The restores open each held name once. */
  lemma {:induction false} RestoresRun(b: State, epoch: nat, names: seq<string>, n: string)
    requires forall i, j :: 0 <= i < j < |names| ==> names[i] != names[j]
    ensures RunPlan(false, Restores(b, epoch, names), n) == Some(n in names)
  {
    if |names| > 0 {
      var prefix, last := names[..|names| - 1], names[|names| - 1];
      RestoresRun(b, epoch, prefix, n);
      var item := Item(Restorer(epoch), -1, Open(last, if last in b.storage then b.storage[last] else Opfs), false, None);
      RunPlanConcat(false, Restores(b, epoch, prefix), [item], n);
      assert names == prefix + [last];
      assert [item][1..] == [];
    }
  }

  lemma AdoptsKeepsBooks(w: World, names: seq<string>, restores: seq<Item>, w': World)
    requires |w.done| <= |Plan(w.b)| && BooksSound(w) && JoinsSound(w) && w.b.compute.None? && w.done == []
    requires w'.done == [] && w'.open == map[] && w'.b.compute.Some? && w'.b.holders == w.b.holders
    requires Enumerates(names, w.b.restore) && restores == Restores(w.b, w.b.epochs, names)
    requires Plan(w'.b) == restores + Plan(w.b)
    ensures BooksSound(w') && JoinsSound(w')
  {
    var plan := Plan(w.b);
    RestoresShape(w.b, w.b.epochs, names);
    hide NameSound, Plan, Restores, Effect;
    forall n ensures NameSound(restores + plan, 0, StandsOpen(w', n), n in w'.b.holders, n) {
      assert NameSound(plan, 0, StandsOpen(w, n), n in w.b.holders, n);
      RestoresRun(w.b, w.b.epochs, names, n);
      assert n in names <==> n in Elements(names);
      RestoreSound(restores, plan, n in names, n in w.b.holders, n);
    }
    forall i | 0 <= i < |restores + plan| ensures JoinSound(restores + plan, [], w'.b, i) {
      if i < |restores| {
        assert (restores + plan)[i] == restores[i];
      } else {
        assert JoinSound(plan, w.done, w.b, i - |restores|);
        JoinShifted(restores, plan, w, w'.b, i - |restores|);
      }
    }
  }

  lemma AdoptsKeepsSound(w: World, names: seq<string>, w': World)
    requires Sound(w) && Next(w, Adopts(names), w')
    ensures Sound(w')
  {
    AdoptedWired(w.b, names, w.retired);
    AdoptedPlan(w.b, names);
    assert w.done == [];
    hide BooksSound, JoinsSound, Wired, Plan, Adopted, Enumerates, Restores;
    AdoptsKeepsBooks(w, names, Restores(w.b, w.b.epochs, names), w');
  }

  lemma JoinShifted(restores: seq<Item>, plan: seq<Item>, w: World, b': State, i: nat)
    requires i < |plan| && JoinSound(plan, w.done, w.b, i) && b'.holders == w.b.holders
    ensures JoinSound(restores + plan, [], b', |restores| + i)
  {
    hide Effect;
    var all := restores + plan;
    assert all[|restores| + i] == plan[i];
    forall j | |restores| + i < j < |all| ensures all[j] == plan[j - |restores|] {
    }
  }

  // ----- every run -----

  lemma StepKeepsSound(w: World, step: Step, w': World)
    requires Sound(w) && Next(w, step, w') && Polite(w, step)
    ensures Sound(w')
  {
    hide Next, Sound;
    match step
    case TabSends(tab, request) => TabSendsKeepsSound(w, tab, request, w');
    case Runs(choice) => RunsKeepsSound(w, choice, w');
    case Answers => AnswersKeepsSound(w, w');
    case LateAnswer(routeId, ok) => LateKeepsSound(w, routeId, ok, w');
    case Dies => DiesKeepsSound(w, w');
    case Adopts(names) => AdoptsKeepsSound(w, names, w');
  }

  lemma TabSendsKeepsSound(w: World, tab: nat, request: Request, w': World)
    requires Sound(w) && Next(w, TabSends(tab, request), w') && Polite(w, TabSends(tab, request))
    ensures Sound(w')
  {
    hide Next, BooksSound, JoinsSound, WorldWired, Polite;
    TabSendsBooks(w, tab, request, w');
    TabSendsJoins(w, tab, request, w');
  }

  lemma LateKeepsSound(w: World, routeId: nat, ok: bool, w': World)
    requires Sound(w) && Next(w, LateAnswer(routeId, ok), w')
    ensures Sound(w')
  {
    hide BooksSound, JoinsSound, Wired, Responded;
    LateAnswerDropped(w, routeId, ok);
  }

  lemma StartSound()
    ensures Sound(START)
  {
  }

  ghost predicate Run(worlds: seq<World>, steps: seq<Step>) {
    && |worlds| == |steps| + 1
    && worlds[0] == START
    && forall i :: 0 <= i < |steps| ==> Next(worlds[i], steps[i], worlds[i + 1])
  }

  ghost predicate PoliteRun(worlds: seq<World>, steps: seq<Step>)
    requires Run(worlds, steps)
  {
    forall i :: 0 <= i < |steps| ==> Polite(worlds[i], steps[i])
  }

  lemma {:induction false} PoliteRunsAreSound(worlds: seq<World>, steps: seq<Step>)
    requires Run(worlds, steps) && PoliteRun(worlds, steps)
    ensures Sound(worlds[|steps|])
    decreases |steps|
  {
    hide Next, Sound, Polite;
    if |steps| > 0 {
      var n := |steps| - 1;
      PoliteRunsAreSound(worlds[..n + 1], steps[..n]);
      StepKeepsSound(worlds[n], steps[n], worlds[n + 1]);
    } else {
      StartSound();
    }
  }

  /**
   * Once routes and backlog have drained, the names open on the compute are
   * exactly the names with holders, after any number of crashes.
   */
  lemma DrainedOpensAreHeld(worlds: seq<World>, steps: seq<Step>)
    requires Run(worlds, steps) && PoliteRun(worlds, steps)
    requires var b := worlds[|steps|].b; b.compute.Some? && b.routes == [] && b.backlog == []
    ensures worlds[|steps|].open.Keys == worlds[|steps|].b.holders.Keys
  {
    hide Next, Polite;
    PoliteRunsAreSound(worlds, steps);
    var w := worlds[|steps|];
    assert Plan(w.b) == [];
    forall n ensures n in w.open <==> n in w.b.holders {
      assert NameSound(Plan(w.b), |w.done|, StandsOpen(w, n), n in w.b.holders, n);
    }
  }

  /** No open ever reaches the compute for a name already open there, and none the broker forwarded fails. */
  lemma OpensNeverMeetOpen(worlds: seq<World>, steps: seq<Step>, choice: bool, w': World)
    requires Run(worlds, steps) && PoliteRun(worlds, steps)
    requires Next(worlds[|steps|], Runs(choice), w')
    requires Outstanding(worlds[|steps|].b)[|worlds[|steps|].done|].item.body.Open?
    ensures Outstanding(worlds[|steps|].b)[|worlds[|steps|].done|].item.body.name !in worlds[|steps|].open
    ensures w'.done[|w'.done| - 1]
  {
    hide Polite;
    PoliteRunsAreSound(worlds, steps);
    var w := worlds[|steps|];
    hide Wired, NameSound, Plan;
    OutstandingIsPlan(w);
    var i := |w.done|;
    var n := Plan(w.b)[i].body.name;
    assert NameSound(Plan(w.b), i, StandsOpen(w, n), n in w.b.holders, n);
    RunSound(Plan(w.b), i, w.open, choice, n in w.b.holders, n);
  }

  // ----- without politeness -----

  /**
   * In general a failed open's undo keeps the books exactly when it does not
   * empty the name's holders: then the name would stay open with nobody
   * holding it.
   */
  lemma FailedOpenKeepsBooksIff(w: World, w': World)
    requires WorldWired(w) && |w.done| > 0 && |w.done| <= |Plan(w.b)| && BooksSound(w) && Next(w, Answers, w')
    requires var item := Outstanding(w.b)[0].item; !w.done[0] && item.undo && item.port.Tab?
    ensures |w'.done| <= |Plan(w'.b)|
    ensures var item := Outstanding(w.b)[0].item;
            BooksSound(w') <==>
              item.body.name !in w.b.holders || Removed(w.b.holders[item.body.name], item.port.tab) != []
  {
    hide BooksSound, Wired, Plan, NameSound, Next, Outstanding;
    var item := FailedOpenShape(w, w');
    PlanCovers(w.b);
    PlanCovers(w'.b);
    if item.body.name !in w.b.holders || Removed(w.b.holders[item.body.name], item.port.tab) != [] {
      SameNamesKeepBooks(w, w');
    } else {
      EmptiedBreaksBooks(w, w', item.body.name);
    }
  }

  lemma FailedOpenShape(w: World, w': World) returns (item: Item)
    requires WorldWired(w) && |w.done| > 0 && |w.done| <= |Plan(w.b)| && BooksSound(w) && Next(w, Answers, w')
    requires var first := Outstanding(w.b)[0].item; !w.done[0] && first.undo && first.port.Tab?
    ensures item == Outstanding(w.b)[0].item
    ensures w'.done == w.done[1..] && w'.open == w.open && Plan(w'.b) == Plan(w.b)[1..]
    ensures |w.b.routes| - 1 <= |w'.b.routes|
    ensures w'.b.compute == w.b.compute && w'.b.restore == w.b.restore
    ensures NonEmptyHolders(w'.b)
    ensures var n := item.body.name;
            if n !in w.b.holders || Removed(w.b.holders[n], item.port.tab) != []
            then w'.b.holders.Keys == w.b.holders.Keys else n in w.b.holders && n !in w'.b.holders
  {
    assert NonEmptyHolders(w.b);
    hide BooksSound, Wired, Plan, Responded, Delivered, Undone, Outstanding;
    OutstandingIsPlan(w);
    var taken, settled := AnsweredShape(w.b, false, w.retired);
    item := w.b.routes[0].item;
    UndoneOutside(taken, item.port.tab, item.body.name);
    UndoneHolders(taken, item.port.tab, item.body.name);
    DeliveredEffect(w.b, taken, settled, false, w.retired);
  }

  lemma UndoneHolders(b: State, tab: nat, n: string)
    requires NonEmptyHolders(b)
    ensures NonEmptyHolders(Undone(b, tab, n))
    ensures if n !in b.holders || Removed(b.holders[n], tab) != []
            then Undone(b, tab, n).holders.Keys == b.holders.Keys else n !in Undone(b, tab, n).holders
  {
  }

  lemma SameNamesKeepBooks(w: World, w': World)
    requires |w.done| <= |Plan(w.b)| && BooksSound(w) && |w.done| > 0
    requires w'.done == w.done[1..] && w'.open == w.open && Plan(w'.b) == Plan(w.b)[1..]
    requires w'.b.compute == w.b.compute && w'.b.restore == w.b.restore
    requires NonEmptyHolders(w'.b) && w'.b.holders.Keys == w.b.holders.Keys
    ensures BooksSound(w')
  {
    hide NameSound, Plan, Effect;
    forall n ensures NameSound(Plan(w'.b), |w'.done|, StandsOpen(w', n), n in w'.b.holders, n) {
      assert NameSound(Plan(w.b), |w.done|, StandsOpen(w, n), n in w.b.holders, n);
      AnsweredSound(Plan(w.b), |w.done|, StandsOpen(w, n), n in w.b.holders, n);
    }
  }

  lemma EmptiedBreaksBooks(w: World, w': World, n: string)
    requires |w.done| <= |Plan(w.b)| && BooksSound(w) && |w.done| > 0
    requires w'.done == w.done[1..] && w'.open == w.open && Plan(w'.b) == Plan(w.b)[1..]
    requires w'.b.compute == w.b.compute && w'.b.restore == w.b.restore
    requires n in w.b.holders && n !in w'.b.holders
    ensures !BooksSound(w')
  {
    hide Plan, Effect;
    assert NameSound(Plan(w.b), |w.done|, StandsOpen(w, n), true, n);
    AnsweredSound(Plan(w.b), |w.done|, StandsOpen(w, n), true, n);
    assert !NameSound(Plan(w'.b), |w'.done|, StandsOpen(w', n), n in w'.b.holders, n);
  }
}
