/**
 * The broker's fan-out is the relay step that cache freshness rests on: over
 * any run, a published change set is posted once to each other tab holding
 * the database, which is what TabFreshness takes a relay to do.
 */
module BrokerRelay {
  import opened RawRecords
  import opened MemoryStores
  import opened Rowsets
  import opened Brokers
  import opened BrokerRuns
  import BrokerOpens
  import Tabs = TabFreshness

  // ----- holders are sets -----

  ghost predicate DistinctHolders(b: State) {
    forall n :: n in b.holders ==> DistinctPorts(b.holders[n])
  }

  lemma {:induction false} RemovedDistinct(ports: seq<nat>, tab: nat)
    requires DistinctPorts(ports)
    ensures DistinctPorts(Removed(ports, tab)) && forall p :: p in Removed(ports, tab) <==> p in ports && p != tab
  {
    if |ports| > 0 {
      LastPort(ports);
      RemovedDistinct(ports[..|ports| - 1], tab);
    }
  }

  lemma HandledDistinct(b: State, tab: nat, request: Request)
    requires DistinctHolders(b)
    ensures DistinctHolders(Handled(b, tab, request))
  {
    var mid, item := HandledShape(b, tab, request);
    RemovedDistinct(HoldersOf(b, request.name), tab);
    hide Removed, Handled, Says;
  }

  lemma {:induction false} SentAllHolders(b: State, items: seq<Item>)
    ensures SentAll(b, items).holders == b.holders
  {
    if |items| > 0 { SentAllHolders(b, items[..|items| - 1]); }
  }

  lemma RespondedDistinct(b: State, routeId: nat, ok: bool)
    requires DistinctHolders(b)
    ensures DistinctHolders(Responded(b, routeId, ok))
  {
    hide Removed;
    var i := RouteIndex(b.routes, routeId);
    if i < |b.routes| {
      var item := b.routes[i].item;
      var taken := b.(routes := b.routes[..i] + b.routes[i + 1..]);
      if !ok && item.undo && item.port.Tab? { RemovedDistinct(HoldersOf(b, item.body.name), item.port.tab); }
      var settled := if !ok && item.undo && item.port.Tab? then Undone(taken, item.port.tab, item.body.name) else taken;
      assert DistinctHolders(settled);
      DeliveredHolders(settled, item, ok);
    }
  }

  lemma DeliveredHolders(b: State, item: Item, ok: bool)
    ensures Delivered(b, item, ok).holders == b.holders
  {
    if item.port.Restorer? {
      var epoch := item.port.epoch;
      var left := (if epoch in b.reopens then b.reopens[epoch] else 0) - 1;
      var counted := b.(reopens := b.reopens[epoch := left]);
      SentAllHolders(counted.(ready := true, backlog := []), counted.backlog);
    }
  }

  lemma {:induction false} SentRestoresHolders(b: State, epoch: nat, names: seq<string>)
    ensures SentRestores(b, epoch, names).holders == b.holders
  {
    if |names| > 0 { SentRestoresHolders(b, epoch, names[..|names| - 1]); }
  }

  lemma AdoptedHolders(b: State, names: seq<string>)
    ensures Adopted(b, names).holders == b.holders
  {
    if b.compute.None? {
      var live := b.(compute := Some(b.epochs), epochs := b.epochs + 1, restore := {}, posted := []);
      SentAllHolders(live.(ready := true, backlog := []), b.backlog);
      SentRestoresHolders(live.(reopens := live.reopens[b.epochs := |names|]), b.epochs, names);
    }
  }

  lemma StepKeepsDistinct(w: World, step: Step, w': World)
    requires DistinctHolders(w.b) && Next(w, step, w')
    ensures DistinctHolders(w'.b)
  {
    hide Handled, Responded, Adopted, DistinctHolders;
    match step
    case TabSends(tab, request) => HandledDistinct(w.b, tab, request);
    case Answers => RespondedDistinct(w.b, Outstanding(w.b)[0].routeId, w.done[0]);
    case LateAnswer(routeId, ok) => RespondedDistinct(w.b, routeId, ok);
    case Adopts(names) => AdoptedHolders(w.b, names); SameHolders(w.b, w'.b);
    case _ => SameHolders(w.b, w'.b);
  }

  lemma SameHolders(a: State, b: State)
    requires DistinctHolders(a) && b.holders == a.holders
    ensures DistinctHolders(b)
  {
  }

  lemma {:induction false} HoldersStayDistinct(worlds: seq<World>, steps: seq<Step>)
    requires BrokerOpens.Run(worlds, steps)
    ensures DistinctHolders(worlds[|steps|].b)
    decreases |steps|
  {
    hide Next;
    if |steps| > 0 {
      hide DistinctHolders;
      var n := |steps| - 1;
      HoldersStayDistinct(worlds[..n + 1], steps[..n]);
      StepKeepsDistinct(worlds[n], steps[n], worlds[n + 1]);
    }
  }

  /** Over any run, a publish is posted to every other holder exactly once, and its answer last. */
  lemma EveryPublishReachesHolders(worlds: seq<World>, steps: seq<Step>, tab: nat, id: int, name: string, payload: nat)
    requires BrokerOpens.Run(worlds, steps)
    ensures var b := worlds[|steps|].b;
            var after := Handled(b, tab, PublishRequest(id, name, payload)).posts;
            && |after| > |b.posts| && after[..|b.posts|] == b.posts && after[|after| - 1] == Answer(tab, id, true, None)
            && TellsOfChanges(after[|b.posts|..|after| - 1], HoldersOf(b, name), tab, name, payload)
  {
    hide TellsOfChanges, Handled;
    HoldersStayDistinct(worlds, steps);
    var b := worlds[|steps|].b;
    var mid, item := HandledShape(b, tab, PublishRequest(id, name, payload));
  }

  // ----- the relay step -----

  /** What a tab's port brings its work queue of the broker's posts; decode opens a posted change set. */
  function Inbox(posts: seq<Post>, tab: nat, name: string, decode: nat -> seq<Tabs.Change>): seq<Tabs.Inbound> {
    if |posts| == 0 then []
    else
      var last := posts[|posts| - 1];
      Inbox(posts[..|posts| - 1], tab, name, decode)
      + if last.External? && last.tab == tab && last.name == name then [Tabs.External(decode(last.payload))] else []
  }

  function Repeated(m: Tabs.Inbound, n: nat): seq<Tabs.Inbound> {
    if n == 0 then [] else Repeated(m, n - 1) + [m]
  }

  lemma {:induction false} InboxCounts(told: seq<Post>, tab: nat, name: string, payload: nat, decode: nat -> seq<Tabs.Change>)
    requires forall post :: post in told ==> post.External? && post.name == name && post.payload == payload
    ensures Inbox(told, tab, name, decode)
            == Repeated(Tabs.External(decode(payload)), multiset(told)[External(tab, name, payload)])
  {
    if |told| > 0 {
      var before, last := told[..|told| - 1], told[|told| - 1];
      assert told == before + [last];
      InboxCounts(before, tab, name, payload, decode);
    }
  }

  lemma InboxOfTold(told: seq<Post>, ports: seq<nat>, from: nat, name: string, payload: nat, tab: nat, decode: nat -> seq<Tabs.Change>)
    requires TellsOfChanges(told, ports, from, name, payload)
    ensures Inbox(told, tab, name, decode) == if tab in ports && tab != from then [Tabs.External(decode(payload))] else []
  {
    forall post | post in told ensures post.External? && post.name == name && post.payload == payload {
      assert multiset(told)[post] > 0;
    }
    InboxCounts(told, tab, name, payload, decode);
    var m := Tabs.External(decode(payload));
    assert Repeated(m, 1) == Repeated(m, 0) + [m] == [m];
  }

  /** A publish's answer brings its sender's queue nothing. */
  lemma InboxSkipsAnswer(told: seq<Post>, answer: Post, tab: nat, name: string, decode: nat -> seq<Tabs.Change>)
    requires answer.Answer?
    ensures Inbox(told + [answer], tab, name, decode) == Inbox(told, tab, name, decode)
  {
    assert (told + [answer])[..|told|] == told;
  }

  lemma PublishSends(b: State, from: nat, id: int, name: string, payload: nat) returns (told: seq<Post>)
    requires DistinctPorts(HoldersOf(b, name))
    ensures Handled(b, from, PublishRequest(id, name, payload)).posts[|b.posts|..] == told + [Answer(from, id, true, None)]
    ensures TellsOfChanges(told, HoldersOf(b, name), from, name, payload)
  {
    PublishedTells(b, from, id, name, payload);
    var after := Handled(b, from, PublishRequest(id, name, payload)).posts;
    assert after == Published(b, from, id, name, payload).posts;
    hide TellsOfChanges, Handled, Published;
    told := after[|b.posts|..|after| - 1];
    assert after[|b.posts|..] == told + [after[|after| - 1]];
  }

  lemma PublishInbox(b: State, from: nat, id: int, name: string, payload: nat, tab: nat, decode: nat -> seq<Tabs.Change>)
    requires DistinctPorts(HoldersOf(b, name))
    ensures var sent := Handled(b, from, PublishRequest(id, name, payload)).posts[|b.posts|..];
            Inbox(sent, tab, name, decode)
            == if tab in HoldersOf(b, name) && tab != from then [Tabs.External(decode(payload))] else []
  {
    var told := PublishSends(b, from, id, name, payload);
    hide TellsOfChanges, Handled, Inbox, DistinctPorts;
    InboxSkipsAnswer(told, Answer(from, id, true, None), tab, name, decode);
    InboxOfTold(told, HoldersOf(b, name), from, name, payload, tab, decode);
  }

  /**
   * Where the tabs of the world are the holders of the database, handling a
   * publish puts into their ports exactly what TabFreshness's relay does.
   */
  lemma PublishIsRelay(b: State, w: Tabs.World, from: nat, id: int, name: string, payload: nat, decode: nat -> seq<Tabs.Change>)
    requires DistinctPorts(HoldersOf(b, name)) && forall t :: t in w.tabs <==> t in HoldersOf(b, name)
    ensures var sent := Handled(b, from, PublishRequest(id, name, payload)).posts[|b.posts|..];
            var relayed := Tabs.Relayed(w, from, decode(payload));
            && relayed.storage == w.storage && relayed.slots == w.slots && relayed.tabs.Keys == w.tabs.Keys
            && forall t :: t in w.tabs ==> relayed.tabs[t] == w.tabs[t].(down := w.tabs[t].down + Inbox(sent, t, name, decode))
  {
    var sent := Handled(b, from, PublishRequest(id, name, payload)).posts[|b.posts|..];
    hide Handled, Inbox, DistinctPorts, HoldersOf;
    forall t | t in w.tabs
      ensures Tabs.Relayed(w, from, decode(payload)).tabs[t] == w.tabs[t].(down := w.tabs[t].down + Inbox(sent, t, name, decode))
    {
      PublishInbox(b, from, id, name, payload, t, decode);
      assert w.tabs[t].down + [] == w.tabs[t].down;
    }
  }
}
