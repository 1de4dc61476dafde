/**
 * The broker's plan, everything accepted and not yet answered in order, and
 * what running it would leave open.
 */
module BrokerPlans {
  import opened RawRecords
  import opened MemoryStores
  import opened Rowsets
  import opened Brokers

  // ----- how the handlers move the plan -----

  lemma {:induction false} ItemsConcat(a: seq<Route>, b: seq<Route>)
    ensures Items(a + b) == Items(a) + Items(b)
  {
    if |b| == 0 {
      assert a + b == a;
    } else {
      assert (a + b)[..|a + b| - 1] == a + b[..|b| - 1];
      ItemsConcat(a, b[..|b| - 1]);
    }
  }

  lemma {:induction false} ItemsAt(routes: seq<Route>)
    ensures |Items(routes)| == |routes|
    ensures forall i :: 0 <= i < |routes| ==> Items(routes)[i] == routes[i].item
  {
    if |routes| > 0 { ItemsAt(routes[..|routes| - 1]); }
  }

  /** Everything a send leaves alone. */
  ghost predicate SameOutside(a: State, b: State) {
    b == a.(nextRouteId := b.nextRouteId, routes := b.routes, posted := b.posted, backlog := b.backlog)
  }

  lemma {:induction false} SentAllPlan(b: State, items: seq<Item>)
    ensures SameOutside(b, SentAll(b, items)) && SentAll(b, items).backlog == b.backlog
    ensures Items(SentAll(b, items).routes) == Items(b.routes) + items
  {
    if |items| > 0 {
      var prefix := items[..|items| - 1];
      SentAllPlan(b, prefix);
      var before := SentAll(b, prefix);
      var route := Route(before.nextRouteId, items[|items| - 1]);
      assert (before.routes + [route])[..|before.routes|] == before.routes;
      assert items == prefix + [items[|items| - 1]];
    }
  }

  lemma FlushedPlan(b: State)
    ensures SameOutside(b, Flushed(b)) && Flushed(b).backlog == []
    ensures Plan(Flushed(b)) == Plan(b)
  {
    SentAllPlan(b.(backlog := []), b.backlog);
  }

  lemma ForwardedPlan(b: State, item: Item)
    requires b.ready ==> b.backlog == []
    ensures SameOutside(b, Forwarded(b, item))
    ensures Plan(Forwarded(b, item)) == Plan(b) + [item]
  {
    if !(b.compute.None? || !b.ready) {
      var route := Route(b.nextRouteId, item);
      assert (b.routes + [route])[..|b.routes|] == b.routes;
    }
  }

  function Restores(b: State, epoch: nat, names: seq<string>): seq<Item> {
    if |names| == 0 then []
    else
      var name := names[|names| - 1];
      Restores(b, epoch, names[..|names| - 1])
        + [Item(Restorer(epoch), -1, Open(name, if name in b.storage then b.storage[name] else Opfs), false, None)]
  }

  lemma {:induction false} RestoresShape(b: State, epoch: nat, names: seq<string>)
    ensures |Restores(b, epoch, names)| == |names|
    ensures forall i :: 0 <= i < |names| ==>
              var item := Restores(b, epoch, names)[i];
              item.body.Open? && item.body.name == names[i] && item.port == Restorer(epoch) && !item.undo && item.ticket == None
  {
    if |names| > 0 { RestoresShape(b, epoch, names[..|names| - 1]); }
  }

  lemma {:induction false} SentRestoresPlan(b: State, epoch: nat, names: seq<string>)
    ensures SameOutside(b, SentRestores(b, epoch, names)) && SentRestores(b, epoch, names).backlog == b.backlog
    ensures Items(SentRestores(b, epoch, names).routes) == Items(b.routes) + Restores(b, epoch, names)
  {
    if |names| > 0 {
      var prefix := names[..|names| - 1];
      SentRestoresPlan(b, epoch, prefix);
      var before := SentRestores(b, epoch, prefix);
      var after := SentRestores(b, epoch, names);
      assert after.routes[..|after.routes| - 1] == before.routes;
    }
  }

  /** A reset forgets no request and keeps their order; an adoption puts the restores first. */
  lemma ResetPlan(b: State)
    requires b.compute.Some?
    ensures Plan(Reset(b)) == Plan(b)
  {
    assert Items([]) + Plan(b) == Plan(b);
  }

  lemma AdoptedPlan(b: State, names: seq<string>)
    requires b.compute.None? && b.routes == []
    ensures Plan(Adopted(b, names)) == Restores(b, b.epochs, names) + Plan(b)
    ensures Adopted(b, names).holders == b.holders && Adopted(b, names).compute.Some?
    ensures Adopted(b, names).posts == b.posts && Adopted(b, names).accepted == b.accepted
  {
    hide Flushed, SentRestores, Items;
    var live := b.(compute := Some(b.epochs), epochs := b.epochs + 1, restore := {}, posted := []);
    ItemsAt([]);
    if names == [] {
      RestoresShape(b, b.epochs, []);
      hide Restores;
      FlushedPlan(live.(ready := true));
      assert Restores(b, b.epochs, []) + Plan(b) == Plan(b);
    } else {
      hide Restores;
      var gated := live.(reopens := live.reopens[b.epochs := |names|]);
      SentRestoresPlan(gated, b.epochs, names);
      RestoresSame(b, gated, b.epochs, names);
      assert Items(b.routes) + Restores(b, b.epochs, names) + b.backlog == Restores(b, b.epochs, names) + Plan(b);
    }
  }

  lemma {:induction false} RestoresSame(a: State, b: State, epoch: nat, names: seq<string>)
    requires a.storage == b.storage
    ensures Restores(a, epoch, names) == Restores(b, epoch, names)
  {
    if |names| > 0 { RestoresSame(a, b, epoch, names[..|names| - 1]); }
  }

  // ----- what running a plan leaves open -----

  /** What an item does to a name: opens it, shuts it, or neither. */
  function Effect(item: Item, n: string): Option<bool> {
    match item.body
    case Open(m, _) => if m == n then Some(true) else None
    case Close(m) => if m == n then Some(false) else None
    case Destroy(m) => if m == n then Some(false) else None
    case _ => None
  }

  /** Whether the name ends open; None when an open would meet it already open. */
  function RunPlan(open: bool, items: seq<Item>, n: string): Option<bool>
    decreases |items|
  {
    if |items| == 0 then Some(open)
    else match Effect(items[0], n)
      case None => RunPlan(open, items[1..], n)
      case Some(opens) => if opens && open then None else RunPlan(opens, items[1..], n)
  }

  function LastEffect(items: seq<Item>, n: string): Option<bool> {
    if |items| == 0 then None
    else if Effect(items[|items| - 1], n).Some? then Effect(items[|items| - 1], n)
    else LastEffect(items[..|items| - 1], n)
  }

  lemma {:induction false} RunPlanConcat(open: bool, a: seq<Item>, b: seq<Item>, n: string)
    ensures RunPlan(open, a + b, n) == match RunPlan(open, a, n) case None => None case Some(v) => RunPlan(v, b, n)
    decreases |a|
  {
    if |a| == 0 {
      assert a + b == b;
    } else {
      assert (a + b)[1..] == a[1..] + b;
      var next := if Effect(a[0], n).Some? then Effect(a[0], n).value else open;
      RunPlanConcat(next, a[1..], b, n);
    }
  }

  lemma {:induction false} RunPlanEnds(open: bool, items: seq<Item>, n: string)
    ensures RunPlan(open, items, n).Some? ==>
              RunPlan(open, items, n).value == if LastEffect(items, n).Some? then LastEffect(items, n).value else open
    decreases |items|
  {
    if |items| > 0 {
      var prefix, last := items[..|items| - 1], items[|items| - 1];
      assert items == prefix + [last];
      RunPlanConcat(open, prefix, [last], n);
      RunPlanEnds(open, prefix, n);
      assert [last][1..] == [];
    }
  }

  /** A plan that runs from open runs from shut. */
  lemma {:induction false} RunPlanFromShut(items: seq<Item>, n: string)
    requires RunPlan(true, items, n).Some?
    ensures RunPlan(false, items, n).Some?
  {
    if |items| > 0 && Effect(items[0], n).None? {
      RunPlanFromShut(items[1..], n);
    }
  }

  lemma RunPlanTail(items: seq<Item>, n: string)
    requires |items| > 0 && RunPlan(false, items, n).Some?
    ensures RunPlan(false, items[1..], n).Some?
  {
    if Effect(items[0], n) == Some(true) { RunPlanFromShut(items[1..], n); }
  }

  lemma {:induction false} LastEffectConcat(a: seq<Item>, b: seq<Item>, n: string)
    ensures LastEffect(a + b, n) == if LastEffect(b, n).Some? then LastEffect(b, n) else LastEffect(a, n)
  {
    if |b| == 0 {
      assert a + b == a;
    } else {
      assert (a + b)[..|a + b| - 1] == a + b[..|b| - 1];
      LastEffectConcat(a, b[..|b| - 1], n);
    }
  }

  /** Without an open of the name, a plan always runs. */
  lemma {:induction false} NoOpenRuns(open: bool, items: seq<Item>, n: string)
    requires forall item :: item in items ==> Effect(item, n) != Some(true)
    ensures RunPlan(open, items, n).Some?
    ensures LastEffect(items, n) != Some(true)
  {
    if |items| > 0 {
      assert items[0] in items;
      var next := if Effect(items[0], n).Some? then false else open;
      NoOpenRuns(next, items[1..], n);
      assert items == [items[0]] + items[1..];
      LastEffectConcat([items[0]], items[1..], n);
      assert [items[0]][..0] == [];
    }
  }

  lemma {:induction false} NoEffectRuns(open: bool, items: seq<Item>, n: string)
    requires forall item :: item in items ==> Effect(item, n).None?
    ensures RunPlan(open, items, n) == Some(open) && LastEffect(items, n).None?
  {
    if |items| > 0 {
      assert items[0] in items && items[|items| - 1] in items;
      NoEffectRuns(open, items[1..], n);
      assert items == [items[0]] + items[1..];
      LastEffectConcat([items[0]], items[1..], n);
      assert [items[0]][..0] == [];
    }
  }

  lemma {:induction false} HasEffectLasts(items: seq<Item>, n: string, item: Item)
    requires item in items && Effect(item, n).Some?
    ensures LastEffect(items, n).Some?
  {
    var last := items[|items| - 1];
    if Effect(last, n).None? {
      assert items == items[..|items| - 1] + [last];
      HasEffectLasts(items[..|items| - 1], n, item);
    }
  }

  /** One name's books: the plan runs, from scratch or from where the compute stands, and ends as the holders say. */
  ghost predicate NameSound(plan: seq<Item>, ran: nat, open: bool, held: bool, n: string)
    requires ran <= |plan|
  {
    && RunPlan(false, plan, n).Some?
    && (LastEffect(plan, n).Some? ==> LastEffect(plan, n) == Some(held))
    && RunPlan(open, plan[ran..], n) == Some(held)
  }

  /** A fresh compute that restores what is held and not reopened by the plan runs the whole plan soundly. */
  lemma ReplaySound(plan: seq<Item>, ran: nat, open: bool, held: bool, n: string)
    requires ran <= |plan| && NameSound(plan, ran, open, held, n)
    ensures NameSound(plan, 0, held && n !in OpenedNames(plan), held, n)
  {
    assert plan[0..] == plan;
    var start := held && n !in OpenedNames(plan);
    if n in OpenedNames(plan) {
      var item :| item in plan && item.body.Open? && item.body.name == n;
      HasEffectLasts(plan, n, item);
    } else {
      forall item | item in plan ensures Effect(item, n) != Some(true) {
        if item.body.Open? { assert item.body.name in OpenedNames(plan); }
      }
      NoOpenRuns(start, plan, n);
    }
    RunPlanEnds(start, plan, n);
  }

  /** Restores in front of a plan that counted on them. */
  lemma RestoreSound(restores: seq<Item>, plan: seq<Item>, restored: bool, held: bool, n: string)
    requires NameSound(plan, 0, restored, held, n)
    requires RunPlan(false, restores, n) == Some(restored)
    ensures NameSound(restores + plan, 0, false, held, n)
  {
    assert plan[0..] == plan && (restores + plan)[0..] == restores + plan;
    RunPlanConcat(false, restores, plan, n);
    LastEffectConcat(restores, plan, n);
    RunPlanEnds(false, restores + plan, n);
  }

  lemma AnsweredSound(plan: seq<Item>, ran: nat, open: bool, held: bool, n: string)
    requires 0 < ran <= |plan| && NameSound(plan, ran, open, held, n)
    ensures NameSound(plan[1..], ran - 1, open, held, n)
  {
    assert plan[1..][ran - 1..] == plan[ran..];
    assert plan == [plan[0]] + plan[1..];
    RunPlanTail(plan, n);
    LastEffectConcat([plan[0]], plan[1..], n);
  }

  /** Appending what a request forwards, with the holders it leaves. */
  lemma AppendedSound(plan: seq<Item>, ran: nat, open: bool, held: bool, item: Item, n: string)
    requires ran <= |plan| && NameSound(plan, ran, open, held, n)
    requires Effect(item, n) == Some(true) ==> !held
    ensures NameSound(plan + [item], ran, open, if Effect(item, n).Some? then Effect(item, n).value else held, n)
  {
    assert (plan + [item])[ran..] == plan[ran..] + [item];
    RunPlanConcat(open, plan[ran..], [item], n);
    RunPlanConcat(false, plan, [item], n);
    LastEffectConcat(plan, [item], n);
    RunPlanEnds(false, plan, n);
    assert [item][1..] == [] && [item][..0] == [];
  }
}
