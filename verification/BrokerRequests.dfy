/**
 * Requests are conserved across compute deaths: over any run, every forwarded
 * request waits in exactly one place or has been answered once, to its own
 * tab under its own id, and what waits is in the order it was accepted.
 */
module BrokerRequests {
  import opened RawRecords
  import opened MemoryStores
  import opened Rowsets
  import opened Brokers
  import opened BrokerPlans
  import opened BrokerRuns
  import opened BrokerOpens

  function Waiting(plan: seq<Item>): set<nat> {
    set item | item in plan && item.ticket.Some? :: item.ticket.value
  }

  function Settled(posts: seq<Post>): set<nat> {
    set post | post in posts && post.Answer? && post.ticket.Some? :: post.ticket.value
  }

  /** Tickets strictly increase along the plan; a request under a ticket is the one accepted under it. */
  ghost predicate PlanTicketed(plan: seq<Item>, accepted: seq<Accepted>) {
    && (forall i :: 0 <= i < |plan| ==> (plan[i].port.Tab? <==> plan[i].ticket.Some?))
    && (forall i :: 0 <= i < |plan| && plan[i].ticket.Some? ==>
          && plan[i].ticket.value < |accepted|
          && accepted[plan[i].ticket.value] == Accepted(plan[i].port.tab, plan[i].id))
    && (forall i, j :: 0 <= i < j < |plan| && plan[i].ticket.Some? && plan[j].ticket.Some? ==>
          plan[i].ticket.value < plan[j].ticket.value)
  }

  /** No ticket is answered twice, and each answer goes to the tab and id it was accepted under. */
  ghost predicate PostsTicketed(posts: seq<Post>, accepted: seq<Accepted>) {
    && (forall i :: 0 <= i < |posts| && posts[i].Answer? && posts[i].ticket.Some? ==>
          && posts[i].ticket.value < |accepted|
          && accepted[posts[i].ticket.value] == Accepted(posts[i].tab, posts[i].id))
    && (forall i, j :: 0 <= i < j < |posts| && posts[i].Answer? && posts[j].Answer? && posts[i].ticket.Some? ==>
          posts[i].ticket != posts[j].ticket)
  }

  function Tickets(n: nat): (all: set<nat>)
    ensures forall t: nat :: t in all <==> t < n
  {
    if n == 0 then {} else Tickets(n - 1) + {n - 1}
  }

  ghost predicate Conserved(b: State) {
    && PlanTicketed(Plan(b), b.accepted)
    && PostsTicketed(b.posts, b.accepted)
    && Waiting(Plan(b)) !! Settled(b.posts)
    && Waiting(Plan(b)) + Settled(b.posts) == Tickets(|b.accepted|)
  }

  lemma TakesConserves(b: State, after: State, item: Item)
    requires Conserved(b)
    requires Plan(after) == Plan(b) + [item] && item.port.Tab? && item.ticket == Some(|b.accepted|)
    requires after.accepted == b.accepted + [Accepted(item.port.tab, item.id)]
    requires |b.posts| <= |after.posts| && after.posts[..|b.posts|] == b.posts
    requires forall i :: |b.posts| <= i < |after.posts| ==> after.posts[i].Answer? ==> after.posts[i].ticket == None
    ensures Conserved(after)
  {
    var plan := Plan(b);
    UnticketedPosts(b.posts, after.posts, b.accepted, after.accepted);
    hide Plan;
    assert Waiting(plan + [item]) == Waiting(plan) + {|b.accepted|} by {
      WaitingConcat(plan, [item]);
      assert Waiting([item]) == {|b.accepted|} by { assert item in [item]; }
    }
    assert |b.accepted| !in Settled(b.posts);
  }

  lemma WaitingConcat(a: seq<Item>, b: seq<Item>)
    ensures Waiting(a + b) == Waiting(a) + Waiting(b)
  {
    forall t | t in Waiting(a) + Waiting(b) ensures t in Waiting(a + b) {
      if t in Waiting(a) {
        var item :| item in a && item.ticket == Some(t);
        assert item in a + b;
      } else {
        var item :| item in b && item.ticket == Some(t);
        assert item in a + b;
      }
    }
  }

  lemma UnticketedPosts(before: seq<Post>, after: seq<Post>, accepted: seq<Accepted>, more: seq<Accepted>)
    requires PostsTicketed(before, accepted) && accepted <= more
    requires |before| <= |after| && after[..|before|] == before
    requires forall i :: |before| <= i < |after| ==> after[i].Answer? ==> after[i].ticket == None
    ensures PostsTicketed(after, more) && Settled(after) == Settled(before)
  {
    forall t | t in Settled(before) ensures t in Settled(after) {
      var i :| 0 <= i < |before| && before[i].Answer? && before[i].ticket == Some(t);
      assert after[i] == before[i];
    }
    forall t | t in Settled(after) ensures t in Settled(before) {
      var i :| 0 <= i < |after| && after[i].Answer? && after[i].ticket == Some(t);
      assert after[i] == before[i];
    }
    forall i | 0 <= i < |after| && after[i].Answer? && after[i].ticket.Some?
      ensures i < |before| && after[i] == before[i]
    {
    }
  }

  /** An answer moves the oldest ticket from waiting to settled. */
  lemma AnswerConserves(b: State, after: State, ok: bool)
    requires Conserved(b) && |Plan(b)| > 0
    requires Plan(after) == Plan(b)[1..] && after.accepted == b.accepted
    requires var item := Plan(b)[0];
             after.posts == if item.port.Tab? then b.posts + [Answer(item.port.tab, item.id, ok, item.ticket)] else b.posts
    ensures Conserved(after)
  {
    hide Plan;
    var plan := Plan(b);
    var item := plan[0];
    assert plan == [item] + plan[1..];
    WaitingConcat([item], plan[1..]);
    assert Waiting([item]) == (if item.ticket.Some? then {item.ticket.value} else {}) by { assert item in [item]; }
    if item.ticket.Some? {
      SettledOneMore(b.posts, Answer(item.port.tab, item.id, ok, item.ticket), b.accepted);
      assert item.ticket.value !in Waiting(plan[1..]);
    }
  }

  lemma SettledOneMore(posts: seq<Post>, post: Post, accepted: seq<Accepted>)
    requires PostsTicketed(posts, accepted) && post.Answer? && post.ticket.Some? && post.ticket.value !in Settled(posts)
    requires post.ticket.value < |accepted| && accepted[post.ticket.value] == Accepted(post.tab, post.id)
    ensures PostsTicketed(posts + [post], accepted)
    ensures Settled(posts + [post]) == Settled(posts) + {post.ticket.value}
  {
    var more := posts + [post];
    assert more[|posts|] == post;
    forall i | 0 <= i < |posts| && posts[i].Answer? && posts[i].ticket.Some? ensures posts[i].ticket != post.ticket {
      assert posts[i] in posts;
    }
    forall t | t in Settled(posts) ensures t in Settled(more) {
      var p :| p in posts && p.Answer? && p.ticket == Some(t);
      assert p in more;
    }
  }

  lemma UnticketedPlan(restores: seq<Item>, plan: seq<Item>, accepted: seq<Accepted>)
    requires PlanTicketed(plan, accepted)
    requires forall i :: 0 <= i < |restores| ==> restores[i].port.Restorer? && restores[i].ticket == None
    ensures PlanTicketed(restores + plan, accepted) && Waiting(restores + plan) == Waiting(plan)
  {
    WaitingConcat(restores, plan);
    assert Waiting(restores) == {};
    var all := restores + plan;
    forall i | 0 <= i < |all| && all[i].ticket.Some? ensures i >= |restores| && all[i] == plan[i - |restores|] {
    }
  }

  // ----- every step, every run -----

  lemma TabSendsConserves(w: World, tab: nat, request: Request, w': World)
    requires WorldWired(w) && Conserved(w.b) && Next(w, TabSends(tab, request), w')
    ensures Conserved(w'.b) && WorldWired(w')
  {
    hide Wired, Handled, Forwarded, Plan, Conserved, Takes;
    var mid, item := HandledShape(w.b, tab, request);
    PlanElsewhere(w.b, mid);
    WiredElsewhere(w.b, mid, w.retired);
    if item.Some? {
      ReadyMeansFlushed(w.b, w.retired);
      ForwardedWired(mid, item.value, w.retired);
      ForwardedPlan(mid, item.value);
      ForwardedGrows(mid, item.value);
      TakesConserves(w.b, w'.b, item.value);
    } else {
      PostsOnlyConserve(w.b, mid);
    }
  }

  lemma PostsOnlyConserve(b: State, after: State)
    requires Conserved(b) && Plan(after) == Plan(b) && after.accepted == b.accepted
    requires |b.posts| <= |after.posts| && after.posts[..|b.posts|] == b.posts
    requires forall i :: |b.posts| <= i < |after.posts| ==> after.posts[i].Answer? ==> after.posts[i].ticket == None
    ensures Conserved(after)
  {
    hide Plan;
    UnticketedPosts(b.posts, after.posts, b.accepted, b.accepted);
  }

  lemma AnswersConserves(w: World, w': World)
    requires WorldWired(w) && Conserved(w.b) && Next(w, Answers, w')
    ensures Conserved(w'.b) && WorldWired(w')
  {
    hide Wired, Plan, Conserved, Responded, Delivered, Outstanding;
    OutstandingIsPlan(w);
    var taken, settled := AnsweredShape(w.b, w.done[0], w.retired);
    var item := w.b.routes[0].item;
    if !w.done[0] && item.undo && item.port.Tab? { UndoneOutside(taken, item.port.tab, item.body.name); }
    DeliveredEffect(w.b, taken, settled, w.done[0], w.retired);
    AnswerConserves(w.b, w'.b, w.done[0]);
  }

  lemma AdoptsConserves(w: World, names: seq<string>, w': World)
    requires WorldWired(w) && Conserved(w.b) && Next(w, Adopts(names), w')
    ensures Conserved(w'.b) && WorldWired(w')
  {
    AdoptedWired(w.b, names, w.retired);
    AdoptedPlan(w.b, names);
    RestoresShape(w.b, w.b.epochs, names);
    hide Wired, Plan, Adopted, Restores, Enumerates, PlanTicketed, PostsTicketed;
    UnticketedPlan(Restores(w.b, w.b.epochs, names), Plan(w.b), w.b.accepted);
  }

  lemma DiesConserves(w: World, w': World)
    requires WorldWired(w) && Conserved(w.b) && Next(w, Dies, w')
    ensures Conserved(w'.b) && WorldWired(w')
  {
    ResetWired(w.b, w.retired);
    ResetPlan(w.b);
    hide Wired, Plan, PlanTicketed, PostsTicketed, OpenedNames;
  }

  lemma StepConserves(w: World, step: Step, w': World)
    requires WorldWired(w) && Conserved(w.b) && Next(w, step, w')
    ensures Conserved(w'.b) && WorldWired(w')
  {
    hide Next, WorldWired, Conserved, Responded;
    match step
    case TabSends(tab, request) => TabSendsConserves(w, tab, request, w');
    case Runs(choice) => RunsConserves(w, choice, w');
    case Answers => AnswersConserves(w, w');
    case LateAnswer(routeId, ok) => LateConserves(w, routeId, ok, w');
    case Dies => DiesConserves(w, w');
    case Adopts(names) => AdoptsConserves(w, names, w');
  }

  lemma RunsConserves(w: World, choice: bool, w': World)
    requires WorldWired(w) && Conserved(w.b) && Next(w, Runs(choice), w')
    ensures Conserved(w'.b) && WorldWired(w')
  {
    hide Wired, Conserved, SqlRun;
    OutstandingIsPlan(w);
  }

  lemma LateConserves(w: World, routeId: nat, ok: bool, w': World)
    requires WorldWired(w) && Conserved(w.b) && Next(w, LateAnswer(routeId, ok), w')
    ensures Conserved(w'.b) && WorldWired(w')
  {
    hide Wired, Conserved, Responded;
    LateAnswerDropped(w, routeId, ok);
  }

  lemma {:induction false} EveryRunConserves(worlds: seq<World>, steps: seq<Step>)
    requires Run(worlds, steps)
    ensures Conserved(worlds[|steps|].b) && WorldWired(worlds[|steps|])
    decreases |steps|
  {
    if |steps| > 0 {
      hide Next, WorldWired, Conserved;
      var n := |steps| - 1;
      EveryRunConserves(worlds[..n + 1], steps[..n]);
      StepConserves(worlds[n], steps[n], worlds[n + 1]);
    }
  }

  /** Exactly one place: an accepted request is answered, or in the backlog, or in the routes, and nowhere twice. */
  lemma InOnePlace(worlds: seq<World>, steps: seq<Step>, t: nat)
    requires Run(worlds, steps) && t < |worlds[|steps|].b.accepted|
    ensures var b := worlds[|steps|].b;
            var answered := exists i :: 0 <= i < |b.posts| && b.posts[i].Answer? && b.posts[i].ticket == Some(t);
            var waiting := exists i :: 0 <= i < |Plan(b)| && Plan(b)[i].ticket == Some(t);
            answered != waiting
    ensures var b := worlds[|steps|].b;
            forall i, j :: 0 <= i < j < |Plan(b)| && Plan(b)[i].ticket == Some(t) ==> Plan(b)[j].ticket != Some(t)
    ensures var b := worlds[|steps|].b;
            forall i :: 0 <= i < |b.posts| && b.posts[i].Answer? && b.posts[i].ticket == Some(t) ==>
              Accepted(b.posts[i].tab, b.posts[i].id) == b.accepted[t]
  {
    EveryRunConserves(worlds, steps);
    hide Next, WorldWired, Run, Plan;
    var b := worlds[|steps|].b;
    assert t in Waiting(Plan(b)) + Settled(b.posts);
    assert t in Waiting(Plan(b)) <==> exists i :: 0 <= i < |Plan(b)| && Plan(b)[i].ticket == Some(t);
    assert t in Settled(b.posts) <==> exists i :: 0 <= i < |b.posts| && b.posts[i].Answer? && b.posts[i].ticket == Some(t);
  }
}
