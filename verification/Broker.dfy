/**
 * The SharedWorker broker with tab-hosted compute
 * (packages/driver-web/src/shared-worker.ts): its routing state, and the
 * message handlers that update it in place. Pings and recruitment carry no
 * state a request depends on; a reset and an adoption are events here.
 */
module Brokers {
  import opened RawRecords
  import opened MemoryStores
  import opened Rowsets

  datatype Storage = Opfs | Memory

  /** What reaches the compute: a tab's request, or the version query a joining open becomes. */
  datatype Body =
    | Open(name: string, storage: Storage)
    | Close(name: string)
    | Destroy(name: string)
    | Version(name: string)
    | Work(name: string)

  /** A tab, or the self-addressed port of one adoption's restores. */
  datatype Port = Tab(tab: nat) | Restorer(epoch: nat)

  /** A forwarded request. The ticket is its place in the order of acceptance. */
  datatype Item = Item(port: Port, id: int, body: Body, undo: bool, ticket: Option<nat>)

  datatype Route = Route(routeId: nat, item: Item)

  datatype Accepted = Accepted(tab: nat, id: int)

  datatype Post =
    | Answer(tab: nat, id: int, ok: bool, ticket: Option<nat>)
    | External(tab: nat, name: string, payload: nat)
    | Gone(tab: nat, name: string)

  /**
   * The broker's state; ordered JavaScript Maps and Sets as sequences.
   * posted is everything sent on the current compute port, posts everything
   * sent to tabs, accepted every request taken in for forwarding.
   */
  datatype State = State(
    compute: Option<nat>,
    ready: bool,
    epochs: nat,
    restore: set<string>,
    nextRouteId: nat,
    routes: seq<Route>,
    posted: seq<Route>,
    backlog: seq<Item>,
    holders: map<string, seq<nat>>,
    storage: map<string, Storage>,
    reopens: map<nat, int>,
    posts: seq<Post>,
    accepted: seq<Accepted>
  )

  const FRESH := State(None, false, 0, {}, 1, [], [], [], map[], map[], map[], [], [])

  // ----- what each handler does to the state -----

  function Sent(b: State, item: Item): State {
    var route := Route(b.nextRouteId, item);
    b.(nextRouteId := b.nextRouteId + 1, routes := b.routes + [route], posted := b.posted + [route])
  }

  function SentAll(b: State, items: seq<Item>): State {
    if |items| == 0 then b else Sent(SentAll(b, items[..|items| - 1]), items[|items| - 1])
  }

  function Flushed(b: State): State {
    SentAll(b.(backlog := []), b.backlog)
  }

  function Forwarded(b: State, item: Item): State {
    if b.compute.None? || !b.ready then b.(backlog := b.backlog + [item]) else Sent(b, item)
  }

  /** A tab's request taken in and forwarded. */
  function Taken(b: State, tab: nat, id: int, body: Body, undo: bool): State {
    Forwarded(b.(accepted := b.accepted + [Accepted(tab, id)]), Item(Tab(tab), id, body, undo, Some(|b.accepted|)))
  }

  function Replied(b: State, tab: nat, id: int, ok: bool): State {
    b.(posts := b.posts + [Answer(tab, id, ok, None)])
  }

  function Added(ports: seq<nat>, tab: nat): seq<nat> {
    if tab in ports then ports else ports + [tab]
  }

  function Removed(ports: seq<nat>, tab: nat): seq<nat> {
    if |ports| == 0 then []
    else if ports[|ports| - 1] == tab then Removed(ports[..|ports| - 1], tab)
    else Removed(ports[..|ports| - 1], tab) + [ports[|ports| - 1]]
  }

  function HoldersOf(b: State, name: string): seq<nat> {
    if name in b.holders then b.holders[name] else []
  }

  function Dropped(b: State, name: string): State {
    b.(holders := b.holders - {name}, storage := b.storage - {name})
  }

  /** undoHolder: forget what was recorded before the worker accepted the open. */
  function Undone(b: State, tab: nat, name: string): State {
    if name !in b.holders then b
    else
      var left := Removed(b.holders[name], tab);
      if left == [] then Dropped(b, name) else b.(holders := b.holders[name := left])
  }

  function Opened(b: State, tab: nat, id: int, name: string, storage: Storage): State {
    var existing := HoldersOf(b, name);
    if existing != [] && Lookup(b.storage, name) != Some(storage) then Replied(b, tab, id, false)
    else if existing != [] then
      Taken(b.(holders := b.holders[name := Added(existing, tab)]), tab, id, Version(name), tab !in existing)
    else
      Taken(b.(holders := b.holders[name := [tab]], storage := b.storage[name := storage]), tab, id, Open(name, storage), true)
  }

  function Closed(b: State, tab: nat, id: int, name: string): State {
    var left := Removed(HoldersOf(b, name), tab);
    if left != [] then Replied(b.(holders := b.holders[name := left]), tab, id, true)
    else Taken(Dropped(b, name), tab, id, Close(name), false)
  }

  function GonePosts(ports: seq<nat>, tab: nat, name: string): seq<Post> {
    if |ports| == 0 then []
    else GonePosts(ports[..|ports| - 1], tab, name)
         + if ports[|ports| - 1] == tab then [] else [Gone(ports[|ports| - 1], name)]
  }

  function Destroyed(b: State, tab: nat, id: int, name: string): State {
    Taken(Dropped(b.(posts := b.posts + GonePosts(HoldersOf(b, name), tab, name)), name), tab, id, Destroy(name), false)
  }

  function ExternalPosts(ports: seq<nat>, tab: nat, name: string, payload: nat): seq<Post> {
    if |ports| == 0 then []
    else ExternalPosts(ports[..|ports| - 1], tab, name, payload)
         + if ports[|ports| - 1] == tab then [] else [External(ports[|ports| - 1], name, payload)]
  }

  function Published(b: State, tab: nat, id: int, name: string, payload: nat): State {
    Replied(b.(posts := b.posts + ExternalPosts(HoldersOf(b, name), tab, name, payload)), tab, id, true)
  }

  /** A Set of ports. */
  predicate DistinctPorts(ports: seq<nat>) {
    forall i, j :: 0 <= i < j < |ports| ==> ports[i] != ports[j]
  }

  /** Each other holder is told of the change set exactly once, and nobody is told anything else. */
  ghost predicate TellsOfChanges(told: seq<Post>, ports: seq<nat>, tab: nat, name: string, payload: nat) {
    forall post: Post :: multiset(told)[post]
      == if post.External? && post.name == name && post.payload == payload && post.tab in ports && post.tab != tab then 1 else 0
  }

  /** Each other holder is told exactly once that the database is gone, and nobody is told anything else. */
  ghost predicate TellsOfGone(told: seq<Post>, ports: seq<nat>, tab: nat, name: string) {
    forall post: Post :: multiset(told)[post]
      == if post.Gone? && post.name == name && post.tab in ports && post.tab != tab then 1 else 0
  }

  lemma LastPort(ports: seq<nat>)
    requires DistinctPorts(ports) && |ports| > 0
    ensures DistinctPorts(ports[..|ports| - 1]) && ports[|ports| - 1] !in ports[..|ports| - 1]
    ensures forall p :: p in ports <==> p in ports[..|ports| - 1] || p == ports[|ports| - 1]
  {
    assert ports == ports[..|ports| - 1] + [ports[|ports| - 1]];
  }

  lemma {:induction false} ExternalPostsTell(ports: seq<nat>, tab: nat, name: string, payload: nat)
    requires DistinctPorts(ports)
    ensures TellsOfChanges(ExternalPosts(ports, tab, name, payload), ports, tab, name, payload)
  {
    if |ports| > 0 {
      ExternalPostsTell(ports[..|ports| - 1], tab, name, payload);
      LastPort(ports);
    }
  }

  lemma {:induction false} GonePostsTell(ports: seq<nat>, tab: nat, name: string)
    requires DistinctPorts(ports)
    ensures TellsOfGone(GonePosts(ports, tab, name), ports, tab, name)
  {
    if |ports| > 0 {
      GonePostsTell(ports[..|ports| - 1], tab, name);
      LastPort(ports);
    }
  }

  /** A publish tells the other holders, then answers the sender. */
  ghost predicate PublishTells(before: seq<Post>, after: seq<Post>, ports: seq<nat>, tab: nat, id: int, name: string, payload: nat) {
    && |after| > |before| && after[..|before|] == before
    && after[|after| - 1] == Answer(tab, id, true, None)
    && (DistinctPorts(ports) ==> TellsOfChanges(after[|before|..|after| - 1], ports, tab, name, payload))
  }

  /** A destroy tells the other holders, and leaves the answer to the compute. */
  ghost predicate DestroyTells(before: seq<Post>, after: seq<Post>, ports: seq<nat>, tab: nat, name: string) {
    && |after| >= |before| && after[..|before|] == before
    && (DistinctPorts(ports) ==> TellsOfGone(after[|before|..], ports, tab, name))
  }

  lemma PublishedTells(b: State, tab: nat, id: int, name: string, payload: nat)
    ensures PublishTells(b.posts, Published(b, tab, id, name, payload).posts, HoldersOf(b, name), tab, id, name, payload)
  {
    var ports := HoldersOf(b, name);
    var after := Published(b, tab, id, name, payload).posts;
    assert after == b.posts + ExternalPosts(ports, tab, name, payload) + [Answer(tab, id, true, None)];
    assert after[|b.posts|..|after| - 1] == ExternalPosts(ports, tab, name, payload);
    if DistinctPorts(ports) { ExternalPostsTell(ports, tab, name, payload); }
  }

  lemma DestroyedTells(b: State, tab: nat, id: int, name: string)
    ensures DestroyTells(b.posts, Destroyed(b, tab, id, name).posts, HoldersOf(b, name), tab, name)
  {
    var ports := HoldersOf(b, name);
    var after := Destroyed(b, tab, id, name).posts;
    assert after[|b.posts|..] == GonePosts(ports, tab, name);
    if DistinctPorts(ports) { GonePostsTell(ports, tab, name); }
  }

  datatype Request =
    | OpenRequest(id: int, name: string, storage: Storage)
    | CloseRequest(id: int, name: string)
    | DestroyRequest(id: int, name: string)
    | PublishRequest(id: int, name: string, payload: nat)
    | WorkRequest(id: int, name: string)

  /** The routing half of handle; slots are SlotArbiters' subject. */
  function Handled(b: State, tab: nat, request: Request): State {
    match request
    case OpenRequest(id, name, storage) => Opened(b, tab, id, name, storage)
    case CloseRequest(id, name) => Closed(b, tab, id, name)
    case DestroyRequest(id, name) => Destroyed(b, tab, id, name)
    case PublishRequest(id, name, payload) => Published(b, tab, id, name, payload)
    case WorkRequest(id, name) => Taken(b, tab, id, Work(name), false)
  }

  function RouteIndex(routes: seq<Route>, routeId: nat): (i: nat)
    ensures i <= |routes|
    ensures i < |routes| ==> routes[i].routeId == routeId
    ensures forall j :: 0 <= j < i ==> routes[j].routeId != routeId
  {
    if |routes| == 0 then 0
    else if routes[0].routeId == routeId then 0
    else 1 + RouteIndex(routes[1..], routeId)
  }

  /** A restore answered; the last one opens the gate. */
  function Reopened(b: State, epoch: nat): State {
    var left := (if epoch in b.reopens then b.reopens[epoch] else 0) - 1;
    var counted := b.(reopens := b.reopens[epoch := left]);
    if left == 0 then Flushed(counted.(ready := true)) else counted
  }

  function Delivered(b: State, item: Item, ok: bool): State {
    match item.port
    case Tab(tab) => b.(posts := b.posts + [Answer(tab, item.id, ok, item.ticket)])
    case Restorer(epoch) => Reopened(b, epoch)
  }

  /** The compute's answer: an unknown route is a late answer and is dropped. */
  function Responded(b: State, routeId: nat, ok: bool): State {
    var i := RouteIndex(b.routes, routeId);
    if i == |b.routes| then b
    else
      var item := b.routes[i].item;
      var taken := b.(routes := b.routes[..i] + b.routes[i + 1..]);
      var settled := if !ok && item.undo && item.port.Tab? then Undone(taken, item.port.tab, item.body.name) else taken;
      Delivered(settled, item, ok)
  }

  function Items(routes: seq<Route>): seq<Item> {
    if |routes| == 0 then [] else Items(routes[..|routes| - 1]) + [routes[|routes| - 1].item]
  }

  /** Everything accepted and not yet answered, in order: in flight, then waiting. */
  function Plan(b: State): seq<Item> {
    Items(b.routes) + b.backlog
  }

  function OpenedNames(items: seq<Item>): set<string> {
    set item | item in items && item.body.Open? :: item.body.name
  }

  /** The compute is gone: what was in flight goes back in front, what is held will be restored. */
  function Reset(b: State): State {
    if b.compute.None? then b
    else
      b.(compute := None, ready := false, routes := [], posted := [],
         restore := b.holders.Keys - OpenedNames(Plan(b)), backlog := Plan(b))
  }

  function SentRestores(b: State, epoch: nat, names: seq<string>): State {
    if |names| == 0 then b
    else
      var before := SentRestores(b, epoch, names[..|names| - 1]);
      var name := names[|names| - 1];
      var storage := if name in before.storage then before.storage[name] else Opfs;
      Sent(before, Item(Restorer(epoch), -1, Open(name, storage), false, None))
  }

  predicate Enumerates(names: seq<string>, all: set<string>) {
    && (forall i, j :: 0 <= i < j < |names| ==> names[i] != names[j])
    && Elements(names) == all
  }

  /** A tab hands over a fresh compute; names is the order its restores go out in. */
  function Adopted(b: State, names: seq<string>): State {
    if b.compute.Some? then b
    else
      var live := b.(compute := Some(b.epochs), epochs := b.epochs + 1, restore := {}, posted := []);
      if names == [] then Flushed(live.(ready := true))
      else SentRestores(live.(reopens := live.reopens[b.epochs := |names|]), b.epochs, names)
  }

  // ----- the handlers -----

  class Broker {
    var compute: Option<nat>
    var ready: bool
    var epochs: nat
    var restore: set<string>
    var nextRouteId: nat
    var routes: seq<Route>
    var posted: seq<Route>
    var backlog: seq<Item>
    var holders: map<string, seq<nat>>
    var storage: map<string, Storage>
    var reopens: map<nat, int>
    var posts: seq<Post>
    var accepted: seq<Accepted>

    constructor ()
      ensures Now() == FRESH
    {
      compute, ready, epochs, restore, nextRouteId := None, false, 0, {}, 1;
      routes, posted, backlog := [], [], [];
      holders, storage, reopens := map[], map[], map[];
      posts, accepted := [], [];
    }

    ghost function Now(): State
      reads this
    {
      State(compute, ready, epochs, restore, nextRouteId, routes, posted, backlog, holders, storage, reopens, posts, accepted)
    }

    method Send(item: Item)
      modifies this
      ensures Now() == Sent(old(Now()), item)
    {
      var routeId := nextRouteId;
      nextRouteId := nextRouteId + 1;
      routes := routes + [Route(routeId, item)];
      posted := posted + [Route(routeId, item)];
    }

    method FlushBacklog()
      modifies this
      ensures Now() == Flushed(old(Now()))
    {
      var queued := backlog;
      backlog := [];
      ghost var start := Now();
      for i := 0 to |queued|
        invariant Now() == SentAll(start, queued[..i])
      {
        assert queued[..i + 1][..i] == queued[..i];
        Send(queued[i]);
      }
      assert queued[..|queued|] == queued;
    }

    method Forward(item: Item)
      modifies this
      ensures Now() == Forwarded(old(Now()), item)
    {
      if compute.None? || !ready {
        backlog := backlog + [item];
        return;
      }
      Send(item);
    }

    method Take(tab: nat, id: int, body: Body, undo: bool)
      modifies this
      ensures Now() == Taken(old(Now()), tab, id, body, undo)
    {
      var ticket := |accepted|;
      accepted := accepted + [Accepted(tab, id)];
      Forward(Item(Tab(tab), id, body, undo, Some(ticket)));
    }

    method Reply(tab: nat, id: int, ok: bool)
      modifies this`posts
      ensures Now() == Replied(old(Now()), tab, id, ok)
    {
      posts := posts + [Answer(tab, id, ok, None)];
    }

    method UndoHolder(tab: nat, name: string)
      modifies this`holders, this`storage
      ensures Now() == Undone(old(Now()), tab, name)
    {
      if name !in holders { return; }
      var left := Removed(holders[name], tab);
      holders := holders[name := left];
      if left == [] {
        holders := holders - {name};
        storage := storage - {name};
        assert old(holders)[name := left] - {name} == old(holders) - {name};
      }
    }

    method OpenDatabase(tab: nat, id: int, name: string, kind: Storage)
      modifies this
      ensures Now() == Opened(old(Now()), tab, id, name, kind)
    {
      var existing := if name in holders then holders[name] else [];
      var alreadyHeld := tab in existing;
      if existing != [] && Lookup(storage, name) != Some(kind) {
        Reply(tab, id, false);
        return;
      }
      if existing != [] {
        holders := holders[name := Added(existing, tab)];
        Take(tab, id, Version(name), !alreadyHeld);
        return;
      }
      holders := holders[name := Added(existing, tab)];
      assert Added(existing, tab) == [tab];
      storage := storage[name := kind];
      Take(tab, id, Open(name, kind), true);
    }

    method CloseDatabase(tab: nat, id: int, name: string)
      modifies this
      ensures Now() == Closed(old(Now()), tab, id, name)
    {
      if name in holders {
        var left := Removed(holders[name], tab);
        holders := holders[name := left];
        if |left| > 0 {
          Reply(tab, id, true);
          return;
        }
        assert holders - {name} == old(holders) - {name};
      }
      holders := holders - {name};
      storage := storage - {name};
      Take(tab, id, Close(name), false);
    }

    method DestroyDatabase(tab: nat, id: int, name: string)
      modifies this
      ensures Now() == Destroyed(old(Now()), tab, id, name)
      ensures DestroyTells(old(posts), posts, HoldersOf(old(Now()), name), tab, name)
    {
      DestroyedTells(Now(), tab, id, name);
      hide DestroyTells;
      AnnounceGone(if name in holders then holders[name] else [], tab, name);
      holders := holders - {name};
      storage := storage - {name};
      Take(tab, id, Destroy(name), false);
    }

    method PublishChanges(tab: nat, id: int, name: string, payload: nat)
      modifies this
      ensures Now() == Published(old(Now()), tab, id, name, payload)
      ensures PublishTells(old(posts), posts, HoldersOf(old(Now()), name), tab, id, name, payload)
    {
      PublishedTells(Now(), tab, id, name, payload);
      hide PublishTells;
      RelayChanges(if name in holders then holders[name] else [], tab, name, payload);
      Reply(tab, id, true);
    }

    method AnnounceGone(ports: seq<nat>, tab: nat, name: string)
      modifies this`posts
      ensures posts == old(posts) + GonePosts(ports, tab, name)
    {
      for i := 0 to |ports|
        invariant posts == old(posts) + GonePosts(ports[..i], tab, name)
      {
        assert ports[..i + 1][..i] == ports[..i];
        if ports[i] != tab { posts := posts + [Gone(ports[i], name)]; }
      }
      assert ports[..|ports|] == ports;
    }

    method RelayChanges(ports: seq<nat>, tab: nat, name: string, payload: nat)
      modifies this`posts
      ensures posts == old(posts) + ExternalPosts(ports, tab, name, payload)
    {
      for i := 0 to |ports|
        invariant posts == old(posts) + ExternalPosts(ports[..i], tab, name, payload)
      {
        assert ports[..i + 1][..i] == ports[..i];
        if ports[i] != tab { posts := posts + [External(ports[i], name, payload)]; }
      }
      assert ports[..|ports|] == ports;
    }

    method Handle(tab: nat, request: Request)
      modifies this
      ensures Now() == Handled(old(Now()), tab, request)
    {
      match request
      case OpenRequest(id, name, kind) => OpenDatabase(tab, id, name, kind);
      case CloseRequest(id, name) => CloseDatabase(tab, id, name);
      case DestroyRequest(id, name) => DestroyDatabase(tab, id, name);
      case PublishRequest(id, name, payload) => PublishChanges(tab, id, name, payload);
      case WorkRequest(id, name) => Take(tab, id, Work(name), false);
    }

    /** A restore's self-addressed port: postMessage counts down and opens the gate at zero. */
    method RestoreAnswered(epoch: nat)
      modifies this
      ensures Now() == Reopened(old(Now()), epoch)
    {
      var left := (if epoch in reopens then reopens[epoch] else 0) - 1;
      reopens := reopens[epoch := left];
      if left == 0 {
        ready := true;
        FlushBacklog();
      }
    }

    /** The compute port's message listener. */
    method OnResponse(routeId: nat, ok: bool)
      modifies this
      ensures Now() == Responded(old(Now()), routeId, ok)
    {
      var i := RouteIndex(routes, routeId);
      if i == |routes| { return; }
      var route := routes[i];
      routes := routes[..i] + routes[i + 1..];
      if !ok && route.item.undo && route.item.port.Tab? {
        UndoHolder(route.item.port.tab, route.item.body.name);
      }
      match route.item.port
      case Tab(tab) => posts := posts + [Answer(tab, route.item.id, ok, route.item.ticket)];
      case Restorer(epoch) => RestoreAnswered(epoch);
    }

    method Pending() returns (pending: seq<Item>)
      ensures pending == Items(routes)
    {
      pending := [];
      for i := 0 to |routes|
        invariant pending == Items(routes[..i])
      {
        assert routes[..i + 1][..i] == routes[..i];
        pending := pending + [routes[i].item];
      }
      assert routes[..|routes|] == routes;
    }

    method FinishEpochReset()
      modifies this
      ensures Now() == Reset(old(Now()))
    {
      hide Items, OpenedNames;
      if compute.None? { return; }
      compute, ready := None, false;
      var pending := Pending();
      routes, posted := [], [];
      backlog := pending + backlog;
      var replayed := OpenedNames(backlog);
      restore := holders.Keys - replayed;
    }

    method AdoptComputePort() returns (ghost names: seq<string>)
      modifies this
      ensures old(compute).None? ==> Enumerates(names, old(restore))
      ensures Now() == Adopted(old(Now()), names)
    {
      hide SentAll, SentRestores, Enumerates;
      names := [];
      if compute.Some? { return; }
      EnumeratesNothing(restore);
      compute := Some(epochs);
      var epoch := epochs;
      epochs := epochs + 1;
      posted := [];
      var held := restore;
      restore := {};
      if held == {} {
        assert held - held == held;
        ready := true;
        FlushBacklog();
        return;
      }
      names := RestoreHeld(epoch, held);
    }

    method RestoreHeld(epoch: nat, held: set<string>) returns (ghost names: seq<string>)
      requires held != {}
      modifies this
      ensures names != [] && Enumerates(names, held)
      ensures Now() == SentRestores(old(Now()).(reopens := old(reopens)[epoch := |names|]), epoch, names)
    {
      hide SentRestores, Enumerates;
      reopens := reopens[epoch := |held|];
      names := SendRestores(epoch, held);
    }

    method SendRestores(epoch: nat, held: set<string>) returns (ghost names: seq<string>)
      modifies this
      ensures Enumerates(names, held) && |names| == |held|
      ensures Now() == SentRestores(old(Now()), epoch, names)
    {
      hide Enumerates, Sent;
      names := [];
      var todo := held;
      EnumeratesNothing(held);
      while todo != {}
        invariant todo <= held && Enumerates(names, held - todo) && |names| + |todo| == |held|
        invariant Now() == SentRestores(old(Now()), epoch, names)
        decreases |todo|
      {
        var name :| name in todo;
        EnumeratesMore(names, held, todo, name);
        assert (names + [name])[..|names|] == names;
        Send(Item(Restorer(epoch), -1, Open(name, if name in storage then storage[name] else Opfs), false, None));
        todo := todo - {name};
        names := names + [name];
      }
      assert held - {} == held;
    }
  }

  lemma EnumeratesNothing(held: set<string>)
    ensures Enumerates([], held - held)
  {
  }

  lemma EnumeratesMore(names: seq<string>, held: set<string>, todo: set<string>, name: string)
    requires todo <= held && Enumerates(names, held - todo) && name in todo
    ensures Enumerates(names + [name], held - (todo - {name}))
  {
    assert name !in Elements(names);
    assert Elements(names + [name]) == Elements(names) + {name};
    assert held - (todo - {name}) == (held - todo) + {name};
  }
}
