/**
 * The broker with its tabs and its compute, over any run of requests,
 * answers, compute deaths and adoptions. The compute runs what it is posted
 * strictly in order (packages/driver-web/src/server.ts).
 */
module BrokerRuns {
  import opened RawRecords
  import opened MemoryStores
  import opened Rowsets
  import opened Brokers
  import opened BrokerPlans

  /**
   * done holds the outcomes of the oldest routes, run but not yet delivered;
   * open the names open on the compute and how they are stored; retired the route ids posted to
   * computes since given up.
   */
  datatype World = World(b: State, done: seq<bool>, open: map<string, Storage>, retired: set<nat>)

  const START := World(FRESH, [], map[], {})

  datatype Step =
    | TabSends(tab: nat, request: Request)
    | Runs(choice: bool)
    | Answers
    | LateAnswer(routeId: nat, ok: bool)
    | Dies
    | Adopts(names: seq<string>)

  /** Posted to the current compute and not yet answered. */
  function Outstanding(b: State): seq<Route> {
    if |b.routes| <= |b.posted| then b.posted[|b.posted| - |b.routes|..] else []
  }

  /** One request on the compute. Opens of closed names and version queries of open ones succeed. */
  function SqlRun(open: map<string, Storage>, body: Body, choice: bool): (bool, map<string, Storage>) {
    match body
    case Open(n, kind) => if n in open then (false, open) else (true, open[n := kind])
    case Close(n) => if n in open then (true, open - {n}) else (false, open)
    case Destroy(n) => (true, open - {n})
    case Version(n) => (n in open, open)
    case Work(n) => (choice && n in open, open)
  }

  function RouteIds(routes: seq<Route>): set<nat> {
    set r | r in routes :: r.routeId
  }

  ghost predicate Next(w: World, step: Step, w': World) {
    match step
    case TabSends(tab, request) => w' == w.(b := Handled(w.b, tab, request))
    case Runs(choice) =>
      && w.b.compute.Some? && |w.done| < |Outstanding(w.b)|
      && var r := SqlRun(w.open, Outstanding(w.b)[|w.done|].item.body, choice);
         w' == w.(done := w.done + [r.0], open := r.1)
    case Answers =>
      && |w.done| > 0 && |Outstanding(w.b)| > 0
      && w' == w.(b := Responded(w.b, Outstanding(w.b)[0].routeId, w.done[0]), done := w.done[1..])
    case LateAnswer(routeId, ok) =>
      routeId in w.retired && w' == w.(b := Responded(w.b, routeId, ok))
    case Dies =>
      w.b.compute.Some? && w' == World(Reset(w.b), [], map[], w.retired + RouteIds(w.b.posted))
    case Adopts(names) =>
      w.b.compute.None? && Enumerates(names, w.b.restore) && w' == w.(b := Adopted(w.b, names), done := [], open := map[])
  }

  // ----- the wiring -----

  ghost predicate Gate(b: State) {
    && |b.routes| > 0 && b.epochs > 0
    && b.epochs - 1 in b.reopens && b.reopens[b.epochs - 1] == |b.routes|
    && forall r :: r in b.routes ==> r.item.port == Restorer(b.epochs - 1)
  }

  /** The routes are the newest posts, under ids never used before. */
  ghost predicate Threaded(b: State, retired: set<nat>) {
    && |b.routes| <= |b.posted| && b.posted[|b.posted| - |b.routes|..] == b.routes
    && (forall r :: r in b.posted ==> r.routeId < b.nextRouteId && r.routeId !in retired)
    && (forall id :: id in retired ==> id < b.nextRouteId)
  }

  ghost predicate Wired(b: State, retired: set<nat>) {
    && Threaded(b, retired)
    && (b.ready ==> b.compute.Some? && b.backlog == [])
    && (b.compute.None? ==> b.routes == [] && b.posted == [])
    && (b.compute.Some? && !b.ready ==> Gate(b))
  }

  ghost predicate WorldWired(w: World) {
    Wired(w.b, w.retired) && |w.done| <= |w.b.routes| && (w.b.compute.None? ==> w.open == map[])
  }

  lemma SentThreaded(b: State, item: Item, retired: set<nat>)
    requires Threaded(b, retired)
    ensures Threaded(Sent(b, item), retired)
  {
    var after := Sent(b, item);
    var route := Route(b.nextRouteId, item);
    assert after.posted[|after.posted| - |after.routes|..] == after.routes;
    forall r | r in after.posted ensures r.routeId < after.nextRouteId && r.routeId !in retired {
      assert r in b.posted || r == route;
    }
  }

  lemma {:induction false} SentAllThreaded(b: State, items: seq<Item>, retired: set<nat>)
    requires Threaded(b, retired)
    ensures Threaded(SentAll(b, items), retired)
  {
    if |items| > 0 {
      hide Threaded;
      SentAllThreaded(b, items[..|items| - 1], retired);
      SentThreaded(SentAll(b, items[..|items| - 1]), items[|items| - 1], retired);
    }
  }

  lemma FlushedThreaded(b: State, retired: set<nat>)
    requires Threaded(b, retired)
    ensures Threaded(Flushed(b), retired) && |Flushed(b).routes| >= |b.routes|
  {
    assert Threaded(b.(backlog := []), retired);
    SentAllThreaded(b.(backlog := []), b.backlog, retired);
    SentAllPlan(b.(backlog := []), b.backlog);
    ItemsAt(b.routes);
    ItemsAt(Flushed(b).routes);
  }

  lemma ForwardedWired(b: State, item: Item, retired: set<nat>)
    requires Wired(b, retired)
    ensures Wired(Forwarded(b, item), retired)
  {
    if b.ready { SentThreaded(b, item, retired); }
  }

  /** Wired says nothing of holders, posts and accepted. */
  lemma WiredElsewhere(a: State, b: State, retired: set<nat>)
    requires Wired(a, retired)
    requires b == a.(holders := b.holders, storage := b.storage, posts := b.posts, accepted := b.accepted)
    ensures Wired(b, retired)
  {
  }

  /** What each request does to the holders and their storage, and what it forwards. */
  ghost predicate Takes(b: State, mid: State, tab: nat, request: Request, item: Option<Item>) {
    match request
    case OpenRequest(_, name, storage) =>
      && (item.None? <==> HoldersOf(b, name) != [] && Lookup(b.storage, name) != Some(storage))
      && if item.None? then mid.holders == b.holders && mid.storage == b.storage
      else if HoldersOf(b, name) == []
      then && item.value.body == Open(name, storage) && item.value.undo
           && mid.holders == b.holders[name := [tab]] && mid.storage == b.storage[name := storage]
      else && item.value.body == Version(name) && item.value.undo == (tab !in HoldersOf(b, name))
           && mid.holders == b.holders[name := Added(HoldersOf(b, name), tab)] && mid.storage == b.storage
    case CloseRequest(_, name) =>
      && (item.None? <==> Removed(HoldersOf(b, name), tab) != [])
      && if item.None?
      then && name in b.holders && Removed(b.holders[name], tab) != []
           && mid.holders == b.holders[name := Removed(b.holders[name], tab)] && mid.storage == b.storage
      else && item.value.body == Close(name) && !item.value.undo
           && mid.holders == b.holders - {name} && mid.storage == b.storage - {name}
    case DestroyRequest(_, name) =>
      && item.Some? && item.value.body == Destroy(name) && !item.value.undo
      && mid.holders == b.holders - {name} && mid.storage == b.storage - {name}
    case PublishRequest(_, _, _) => item.None? && mid.holders == b.holders && mid.storage == b.storage
    case WorkRequest(_, name) =>
      && item.Some? && item.value.body == Work(name) && !item.value.undo
      && mid.holders == b.holders && mid.storage == b.storage
  }

  /** What each request makes the broker post itself: refusals, answers to all but the last close, and news to the other holders. */
  ghost predicate Says(b: State, mid: State, tab: nat, request: Request, item: Option<Item>) {
    match request
    case OpenRequest(id, _, _) => mid.posts == b.posts + if item.None? then [Answer(tab, id, false, None)] else []
    case CloseRequest(id, _) => mid.posts == b.posts + if item.None? then [Answer(tab, id, true, None)] else []
    case DestroyRequest(_, name) => DestroyTells(b.posts, mid.posts, HoldersOf(b, name), tab, name)
    case PublishRequest(id, name, payload) => PublishTells(b.posts, mid.posts, HoldersOf(b, name), tab, id, name, payload)
    case WorkRequest(_, _) => mid.posts == b.posts
  }

  lemma ForwardedPosts(b: State, item: Item)
    ensures Forwarded(b, item).posts == b.posts
  {
  }

  /** A tab's request: perhaps holders and posts change, then perhaps one item is forwarded. */
  lemma HandledShape(b: State, tab: nat, request: Request) returns (mid: State, item: Option<Item>)
    ensures mid == b.(holders := mid.holders, storage := mid.storage, posts := mid.posts, accepted := mid.accepted)
    ensures Handled(b, tab, request) == if item.Some? then Forwarded(mid, item.value) else mid
    ensures item.None? ==> mid.accepted == b.accepted
    ensures item.Some? ==> mid.accepted == b.accepted + [Accepted(tab, item.value.id)]
                           && item.value.port == Tab(tab) && item.value.ticket == Some(|b.accepted|)
    ensures |b.posts| <= |mid.posts| && mid.posts[..|b.posts|] == b.posts
    ensures forall i :: |b.posts| <= i < |mid.posts| ==> mid.posts[i].Answer? ==> mid.posts[i].ticket == None
    ensures Takes(b, mid, tab, request, item) && Says(b, mid, tab, request, item)
    ensures item.Some? ==> item.value.id == request.id
  {
    hide Forwarded, DestroyTells, PublishTells, Added, GonePosts, ExternalPosts;
    match request
    case OpenRequest(id, name, storage) =>
      var existing := HoldersOf(b, name);
      if existing != [] && Lookup(b.storage, name) != Some(storage) {
        mid, item := Replied(b, tab, id, false), None;
      } else if existing != [] {
        mid := b.(holders := b.holders[name := Added(existing, tab)], accepted := b.accepted + [Accepted(tab, id)]);
        item := Some(Item(Tab(tab), id, Version(name), tab !in existing, Some(|b.accepted|)));
      } else {
        mid := b.(holders := b.holders[name := [tab]], storage := b.storage[name := storage], accepted := b.accepted + [Accepted(tab, id)]);
        item := Some(Item(Tab(tab), id, Open(name, storage), true, Some(|b.accepted|)));
      }
    case CloseRequest(id, name) =>
      var left := Removed(HoldersOf(b, name), tab);
      if left != [] {
        mid, item := Replied(b.(holders := b.holders[name := left]), tab, id, true), None;
      } else {
        mid := Dropped(b, name).(accepted := b.accepted + [Accepted(tab, id)]);
        item := Some(Item(Tab(tab), id, Close(name), false, Some(|b.accepted|)));
      }
    case DestroyRequest(id, name) =>
      mid := Dropped(b.(posts := b.posts + GonePosts(HoldersOf(b, name), tab, name)), name).(accepted := b.accepted + [Accepted(tab, id)]);
      item := Some(Item(Tab(tab), id, Destroy(name), false, Some(|b.accepted|)));
      GonePostsShape(HoldersOf(b, name), tab, name);
      DestroyedTells(b, tab, id, name);
      ForwardedPosts(mid, item.value);
    case PublishRequest(id, name, payload) =>
      mid, item := Published(b, tab, id, name, payload), None;
      ExternalPostsShape(HoldersOf(b, name), tab, name, payload);
      PublishedTells(b, tab, id, name, payload);
    case WorkRequest(id, name) =>
      mid := b.(accepted := b.accepted + [Accepted(tab, id)]);
      item := Some(Item(Tab(tab), id, Work(name), false, Some(|b.accepted|)));
  }

  /** A destroyed database is announced to every other holder, and to nobody else. */
  lemma {:induction false} GonePostsShape(ports: seq<nat>, tab: nat, name: string)
    ensures forall i :: 0 <= i < |GonePosts(ports, tab, name)| ==> GonePosts(ports, tab, name)[i].Gone?
    ensures forall post :: post in GonePosts(ports, tab, name) <==> post.Gone? && post.name == name && post.tab in ports && post.tab != tab
  {
    if |ports| > 0 {
      GonePostsShape(ports[..|ports| - 1], tab, name);
      assert ports == ports[..|ports| - 1] + [ports[|ports| - 1]];
    }
  }

  /** A published change set reaches every other holder, and nobody else. */
  lemma {:induction false} ExternalPostsShape(ports: seq<nat>, tab: nat, name: string, payload: nat)
    ensures forall i :: 0 <= i < |ExternalPosts(ports, tab, name, payload)| ==> ExternalPosts(ports, tab, name, payload)[i].External?
    ensures forall post :: post in ExternalPosts(ports, tab, name, payload) <==>
              post.External? && post.name == name && post.payload == payload && post.tab in ports && post.tab != tab
  {
    if |ports| > 0 {
      ExternalPostsShape(ports[..|ports| - 1], tab, name, payload);
      assert ports == ports[..|ports| - 1] + [ports[|ports| - 1]];
    }
  }

  /** An answer takes the oldest route off, undoes or records, and may open the gate. */
  lemma AnsweredShape(b: State, ok: bool, retired: set<nat>) returns (taken: State, settled: State)
    requires Wired(b, retired) && |b.routes| > 0
    ensures taken == b.(routes := b.routes[1..])
    ensures var item := b.routes[0].item;
            && settled == (if !ok && item.undo && item.port.Tab? then Undone(taken, item.port.tab, item.body.name) else taken)
            && Responded(b, Outstanding(b)[0].routeId, ok) == Delivered(settled, item, ok)
  {
    taken := b.(routes := b.routes[1..]);
    var item := b.routes[0].item;
    settled := if !ok && item.undo && item.port.Tab? then Undone(taken, item.port.tab, item.body.name) else taken;
    assert Outstanding(b) == b.routes;
    assert b.routes[..0] + b.routes[1..] == b.routes[1..];
  }

  lemma TakenThreaded(b: State, retired: set<nat>)
    requires Threaded(b, retired) && |b.routes| > 0
    ensures Threaded(b.(routes := b.routes[1..]), retired)
  {
    assert b.posted[|b.posted| - |b.routes| + 1..] == b.routes[1..];
  }

  lemma UndoneOutside(b: State, tab: nat, name: string)
    ensures Undone(b, tab, name) == b.(holders := Undone(b, tab, name).holders, storage := Undone(b, tab, name).storage)
  {
  }

  /** What a delivered answer leaves: the plan's tail, the post, and the wiring. */
  lemma DeliveredEffect(b: State, taken: State, settled: State, ok: bool, retired: set<nat>)
    requires Wired(b, retired) && |b.routes| > 0 && taken == b.(routes := b.routes[1..])
    requires settled == taken.(holders := settled.holders, storage := settled.storage)
    ensures var item := b.routes[0].item;
            var after := Delivered(settled, item, ok);
            && Wired(after, retired)
            && Plan(after) == Plan(b)[1..] && Plan(b)[0] == item
            && after.compute == b.compute && after.holders == settled.holders && after.accepted == b.accepted
            && after.restore == b.restore
            && |after.routes| >= |b.routes| - 1
            && after.posts == (if item.port.Tab? then b.posts + [Answer(item.port.tab, item.id, ok, item.ticket)] else b.posts)
  {
    hide Threaded, Flushed, Plan;
    var item := b.routes[0].item;
    PlanTail(b);
    TakenThreaded(b, retired);
    ThreadedElsewhere(taken, settled, retired);
    PlanElsewhere(taken, settled);
    match item.port
    case Tab(tab) =>
      assert b.ready by { assert b.routes[0] in b.routes; }
      ThreadedElsewhere(taken, Delivered(settled, item, ok), retired);
      PlanElsewhere(taken, Delivered(settled, item, ok));
    case Restorer(epoch) =>
      if b.ready {
        ReopenedWhenReady(settled, epoch, retired);
        PlanElsewhere(settled, Reopened(settled, epoch));
      } else {
        ReopenedAtGate(b, settled, epoch, retired);
      }
  }

  lemma ThreadedElsewhere(a: State, b: State, retired: set<nat>)
    requires Threaded(a, retired) && b.routes == a.routes && b.posted == a.posted && b.nextRouteId == a.nextRouteId
    ensures Threaded(b, retired)
  {
  }

  lemma PlanElsewhere(a: State, b: State)
    requires b.routes == a.routes && b.backlog == a.backlog
    ensures Plan(b) == Plan(a)
  {
  }

  lemma PlanTail(b: State)
    requires |b.routes| > 0
    ensures Plan(b)[0] == b.routes[0].item && Plan(b)[1..] == Plan(b.(routes := b.routes[1..]))
  {
    ItemsAt(b.routes);
    ItemsAt(b.routes[1..]);
    assert Items(b.routes)[1..] == Items(b.routes[1..]);
  }

  lemma ReopenedWhenReady(b: State, epoch: nat, retired: set<nat>)
    requires Wired(b, retired) && b.ready
    ensures var after := Reopened(b, epoch);
            && Wired(after, retired) && after == b.(reopens := after.reopens)
  {
    hide Threaded;
    var after := Reopened(b, epoch);
    assert forall x: State :: x.backlog == [] ==> Flushed(x) == x;
    ThreadedElsewhere(b, after, retired);
  }

  lemma ReopenedAtGate(b: State, settled: State, epoch: nat, retired: set<nat>)
    requires Wired(b, retired) && |b.routes| > 0 && b.compute.Some? && !b.ready && b.routes[0].item.port == Restorer(epoch)
    requires settled == b.(routes := b.routes[1..], holders := settled.holders, storage := settled.storage)
    requires Threaded(settled, retired)
    ensures var after := Reopened(settled, epoch);
            && Wired(after, retired) && SameOutside(settled.(reopens := after.reopens, ready := after.ready), after)
            && Plan(after) == Plan(settled) && |after.routes| >= |settled.routes|
  {
    hide Threaded, Flushed, Plan;
    assert b.routes[0] in b.routes;
    var left := |b.routes| - 1;
    var counted := settled.(reopens := settled.reopens[epoch := left]);
    assert forall r :: r in settled.routes ==> r in b.routes;
    PlanElsewhere(settled, counted);
    if left == 0 {
      var live := counted.(ready := true);
      ThreadedElsewhere(settled, live, retired);
      PlanElsewhere(settled, live);
      FlushedThreaded(live, retired);
      FlushedPlan(live);
    } else {
      ThreadedElsewhere(settled, counted, retired);
    }
  }

  lemma ResetWired(b: State, retired: set<nat>)
    requires Wired(b, retired) && b.compute.Some?
    ensures Wired(Reset(b), retired + RouteIds(b.posted))
  {
  }

  lemma {:induction false} SentRestoresThreaded(b: State, epoch: nat, names: seq<string>, retired: set<nat>)
    requires Threaded(b, retired)
    ensures Threaded(SentRestores(b, epoch, names), retired)
  {
    if |names| > 0 {
      hide Threaded, Sent;
      var prefix := names[..|names| - 1];
      SentRestoresThreaded(b, epoch, prefix, retired);
      var before := SentRestores(b, epoch, prefix);
      var name := names[|names| - 1];
      SentThreaded(before, Item(Restorer(epoch), -1, Open(name, if name in before.storage then before.storage[name] else Opfs), false, None), retired);
    }
  }

  lemma AdoptedWired(b: State, names: seq<string>, retired: set<nat>)
    requires Wired(b, retired) && b.compute.None?
    ensures Wired(Adopted(b, names), retired)
  {
    hide Threaded, Flushed, SentRestores, Restores;
    var live := b.(compute := Some(b.epochs), epochs := b.epochs + 1, restore := {}, posted := []);
    ThreadedElsewhere(b, live, retired);
    if names == [] {
      ThreadedElsewhere(b, live.(ready := true), retired);
      FlushedThreaded(live.(ready := true), retired);
      FlushedPlan(live.(ready := true));
    } else {
      var gated := live.(reopens := live.reopens[b.epochs := |names|]);
      ThreadedElsewhere(b, gated, retired);
      SentRestoresThreaded(gated, b.epochs, names, retired);
      SentRestoresPlan(gated, b.epochs, names);
      RestoresShape(gated, b.epochs, names);
      ItemsAt([]);
      var after := SentRestores(gated, b.epochs, names);
      ItemsAt(after.routes);
      GateHolds(after, Restores(gated, b.epochs, names));
    }
  }

  lemma GateHolds(b: State, restores: seq<Item>)
    requires |b.routes| > 0 && b.epochs > 0 && b.epochs - 1 in b.reopens && b.reopens[b.epochs - 1] == |b.routes| == |restores|
    requires Items(b.routes) == restores
    requires forall i :: 0 <= i < |restores| ==> restores[i].port == Restorer(b.epochs - 1)
    ensures Gate(b)
  {
    ItemsAt(b.routes);
  }
}
