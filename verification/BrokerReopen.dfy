/**
 * Why a tab must wait for its open: a run in which one tab opens a name twice
 * without waiting, another destroys it in between, and the compute dies. The
 * first open, by then a version query with nothing open before it, fails on
 * the fresh compute, and its undo takes away the second open's holder.
 */
module BrokerReopen {
  import opened RawRecords
  import opened MemoryStores
  import opened Rowsets
  import opened Brokers
  import opened BrokerPlans
  import opened BrokerRuns
  import opened BrokerOpens

  const N := "db"
  const FIRST := Item(Tab(1), 1, Open(N, Opfs), true, Some(0))
  const JOIN := Item(Tab(2), 1, Version(N), true, Some(1))
  const DESTROY := Item(Tab(1), 2, Destroy(N), false, Some(2))
  const AGAIN := Item(Tab(2), 2, Open(N, Opfs), true, Some(3))
  const TAKEN := [Accepted(1, 1), Accepted(2, 1), Accepted(1, 2), Accepted(2, 2)]
  const ANSWERED := [Answer(1, 1, true, Some(0))]

  const B1 := FRESH.(compute := Some(0), ready := true, epochs := 1)
  const B2 := B1.(nextRouteId := 2, routes := [Route(1, FIRST)], posted := [Route(1, FIRST)],
                  holders := map[N := [1]], storage := map[N := Opfs], accepted := TAKEN[..1])
  const B4 := B2.(routes := [], posts := ANSWERED)
  const B5 := B4.(nextRouteId := 3, routes := [Route(2, JOIN)], posted := [Route(1, FIRST), Route(2, JOIN)],
                  holders := map[N := [1, 2]], accepted := TAKEN[..2])
  const B6 := B5.(nextRouteId := 4, routes := [Route(2, JOIN), Route(3, DESTROY)],
                  posted := [Route(1, FIRST), Route(2, JOIN), Route(3, DESTROY)],
                  holders := map[], storage := map[], posts := ANSWERED + [Gone(2, N)], accepted := TAKEN[..3])
  const B7 := B6.(nextRouteId := 5, routes := [Route(2, JOIN), Route(3, DESTROY), Route(4, AGAIN)],
                  posted := [Route(1, FIRST), Route(2, JOIN), Route(3, DESTROY), Route(4, AGAIN)],
                  holders := map[N := [2]], storage := map[N := Opfs], accepted := TAKEN)
  const B8 := B7.(compute := None, ready := false, routes := [], posted := [], backlog := [JOIN, DESTROY, AGAIN])
  const REPLAYED := [Route(5, JOIN), Route(6, DESTROY), Route(7, AGAIN)]
  const B9 := B8.(compute := Some(1), ready := true, epochs := 2, nextRouteId := 8,
                  routes := REPLAYED, posted := REPLAYED, backlog := [])
  const B13 := B9.(routes := REPLAYED[1..], holders := map[], storage := map[], posts := B9.posts + [Answer(2, 1, false, Some(1))])
  const B14 := B13.(routes := REPLAYED[2..], posts := B13.posts + [Answer(1, 2, true, Some(2))])
  const B15 := B14.(routes := [], posts := B14.posts + [Answer(2, 2, true, Some(3))])
  const OLD := {1, 2, 3, 4}

  const WORLDS := [
    START, World(B1, [], map[], {}), World(B2, [], map[], {}), World(B2, [true], map[N := Opfs], {}), World(B4, [], map[N := Opfs], {}),
    World(B5, [], map[N := Opfs], {}), World(B6, [], map[N := Opfs], {}), World(B7, [], map[N := Opfs], {}), World(B8, [], map[], OLD), World(B9, [], map[], OLD),
    World(B9, [false], map[], OLD), World(B9, [false, true], map[], OLD), World(B9, [false, true, true], map[N := Opfs], OLD),
    World(B13, [true, true], map[N := Opfs], OLD), World(B14, [true], map[N := Opfs], OLD), World(B15, [], map[N := Opfs], OLD)
  ]

  const STEPS: seq<Step> := [
    Adopts([]), TabSends(1, OpenRequest(1, N, Opfs)), Runs(true), Answers,
    TabSends(2, OpenRequest(1, N, Opfs)), TabSends(1, DestroyRequest(2, N)), TabSends(2, OpenRequest(2, N, Opfs)),
    Dies, Adopts([]), Runs(true), Runs(true), Runs(true), Answers, Answers, Answers
  ]

  lemma Adopts1()
    ensures Next(START, Adopts([]), World(B1, [], map[], {}))
  {
    EnumeratesNothing({});
  }

  lemma Opens2()
    ensures Handled(B1, 1, OpenRequest(1, N, Opfs)) == B2
  {
    assert [] + [Route(1, FIRST)] == [Route(1, FIRST)];
    assert TAKEN[..1] == [] + [Accepted(1, 1)];
  }

  lemma Outstanding2()
    ensures Outstanding(B2) == [Route(1, FIRST)] && B2.compute.Some?
  {
  }

  lemma Runs3()
    ensures Next(World(B2, [], map[], {}), Runs(true), World(B2, [true], map[N := Opfs], {}))
  {
    Outstanding2();
    hide Outstanding, B2;
    var none: map<string, Storage> := map[];
    assert SqlRun(none, FIRST.body, true) == (true, map[N := Opfs]);
    assert [Route(1, FIRST)][0].item == FIRST;
    assert [] + [true] == [true];
  }

  lemma Answers4()
    ensures Next(World(B2, [true], map[N := Opfs], {}), Answers, World(B4, [], map[N := Opfs], {}))
  {
    assert Outstanding(B2) == [Route(1, FIRST)];
    assert RouteIndex(B2.routes, 1) == 0;
    assert B2.routes[..0] + B2.routes[1..] == [];
  }

  lemma Joins5()
    ensures Handled(B4, 2, OpenRequest(1, N, Opfs)) == B5
  {
    assert Added([1], 2) == [1, 2];
    assert TAKEN[..2] == TAKEN[..1] + [Accepted(2, 1)];
    assert B4.holders[N := [1, 2]] == map[N := [1, 2]];
    assert B4.posted + [Route(2, JOIN)] == B5.posted;
  }

  lemma Destroys6()
    ensures Handled(B5, 1, DestroyRequest(2, N)) == B6
  {
    assert [1, 2][..1] == [1];
    assert GonePosts([1], 1, N) == [];
    assert GonePosts([1, 2], 1, N) == [Gone(2, N)];
    assert TAKEN[..3] == TAKEN[..2] + [Accepted(1, 2)];
    assert B5.holders - {N} == map[] && B5.storage - {N} == map[];
  }

  lemma Reopens7()
    ensures Handled(B6, 2, OpenRequest(2, N, Opfs)) == B7
  {
    assert TAKEN == TAKEN[..3] + [Accepted(2, 2)];
  }

  lemma Plan7()
    ensures Plan(B7) == [JOIN, DESTROY, AGAIN] && B7.holders.Keys - OpenedNames(Plan(B7)) == {}
  {
    ItemsAt(B7.routes);
    assert Plan(B7) == [JOIN, DESTROY, AGAIN];
    assert AGAIN in Plan(B7);
  }

  lemma Dies8()
    ensures Next(World(B7, [], map[N := Opfs], {}), Dies, World(B8, [], map[], OLD))
  {
    Plan7();
    assert RouteIds(B7.posted) == OLD by {
      forall k | k in OLD ensures k in RouteIds(B7.posted) {
        assert B7.posted[k - 1] in B7.posted;
      }
    }
  }

  lemma Adopts9()
    ensures Next(World(B8, [], map[], OLD), Adopts([]), World(B9, [], map[], OLD))
  {
    EnumeratesNothing({});
    var live := B8.(compute := Some(1), ready := true, epochs := 2, backlog := []);
    var items := [JOIN, DESTROY, AGAIN];
    assert items[..2][..1] == items[..1] && items[..1][..0] == [];
    assert SentAll(live, items[..1]) == Sent(live, JOIN);
    assert SentAll(live, items[..2]) == Sent(Sent(live, JOIN), DESTROY);
    assert SentAll(live, items) == B9;
  }

  lemma OpensOnce()
    ensures forall i :: 0 <= i < 4 ==> Next(WORLDS[i], STEPS[i], WORLDS[i + 1])
  {
    Adopts1();
    Opens2();
    Runs3();
    Answers4();
    hide Handled, Responded, Adopted, Outstanding;
    assert Next(WORLDS[1], STEPS[1], WORLDS[2]);
  }

  lemma JoinsAndReopens()
    ensures forall i :: 4 <= i < 7 ==> Next(WORLDS[i], STEPS[i], WORLDS[i + 1])
  {
    Joins5();
    Destroys6();
    Reopens7();
    hide Handled, Responded, Adopted, Outstanding;
    assert Next(WORLDS[4], STEPS[4], WORLDS[5]);
    assert Next(WORLDS[5], STEPS[5], WORLDS[6]);
    assert Next(WORLDS[6], STEPS[6], WORLDS[7]);
  }

  lemma DiesAndReplays()
    ensures Next(WORLDS[7], STEPS[7], WORLDS[8]) && Next(WORLDS[8], STEPS[8], WORLDS[9])
  {
    Dies8();
    Adopts9();
    hide Next;
  }

  lemma Outstanding9()
    ensures Outstanding(B9) == REPLAYED && Outstanding(B13) == REPLAYED[1..] && Outstanding(B14) == REPLAYED[2..]
  {
  }

  lemma RunsJoin()
    ensures Next(World(B9, [], map[], OLD), Runs(true), World(B9, [false], map[], OLD))
  {
    Outstanding9();
    hide Outstanding;
    assert REPLAYED[0].item == JOIN;
  }

  lemma RunsDestroy()
    ensures Next(World(B9, [false], map[], OLD), Runs(true), World(B9, [false, true], map[], OLD))
  {
    Outstanding9();
    hide Outstanding;
    assert REPLAYED[1].item == DESTROY;
    var none: map<string, Storage> := map[];
    assert none - {N} == none;
  }

  lemma RunsAgain()
    ensures Next(World(B9, [false, true], map[], OLD), Runs(true), World(B9, [false, true, true], map[N := Opfs], OLD))
  {
    Outstanding9();
    hide Outstanding;
    assert REPLAYED[2].item == AGAIN;
    assert map[][N := Opfs] == map[N := Opfs];
  }

  lemma RunsReplay()
    ensures forall i :: 9 <= i < 12 ==> Next(WORLDS[i], STEPS[i], WORLDS[i + 1])
  {
    RunsJoin();
    RunsDestroy();
    RunsAgain();
    hide Next;
  }

  lemma AnswersJoin()
    ensures Responded(B9, 5, false) == B13
  {
    assert REPLAYED[..0] + REPLAYED[1..] == REPLAYED[1..];
    assert Removed([2], 2) == [] by { assert [2][..0] == []; }
    assert B9.holders - {N} == map[] && B9.storage - {N} == map[];
  }

  lemma AnswersRest()
    ensures Responded(B13, 6, true) == B14 && Responded(B14, 7, true) == B15
  {
    assert REPLAYED[1..][..0] + REPLAYED[1..][1..] == REPLAYED[2..];
    assert REPLAYED[2..][..0] + REPLAYED[2..][1..] == [];
  }

  lemma AnswersReplay()
    ensures forall i :: 12 <= i < 15 ==> Next(WORLDS[i], STEPS[i], WORLDS[i + 1])
  {
    Outstanding9();
    AnswersJoin();
    AnswersRest();
    hide Responded, Outstanding;
    assert [false, true, true][1..] == [true, true] && [true, true][1..] == [true] && [true][1..] == [];
    assert Next(WORLDS[12], STEPS[12], WORLDS[13]);
    assert Next(WORLDS[13], STEPS[13], WORLDS[14]);
    assert Next(WORLDS[14], STEPS[14], WORLDS[15]);
  }

  /** A run that drains with the name open on the compute and held by nobody. */
  lemma ImpoliteRunStrandsAnOpen()
    ensures exists worlds: seq<World>, steps: seq<Step> :: Run(worlds, steps)
              && worlds[|steps|].b.compute.Some? && worlds[|steps|].b.routes == [] && worlds[|steps|].b.backlog == []
              && worlds[|steps|].open.Keys != worlds[|steps|].b.holders.Keys
  {
    OpensOnce();
    JoinsAndReopens();
    DiesAndReplays();
    RunsReplay();
    AnswersReplay();
    hide Next;
    assert Run(WORLDS, STEPS);
    assert N in WORLDS[15].open && N !in WORLDS[15].b.holders;
  }
}
