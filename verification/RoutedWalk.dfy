/** Type-routed fan-out in a finished walk: what the handlers of a source are given together. */
module RoutedWalk {
  import opened Wrappers
  import opened Topology
  import opened Routing
  import opened GroupSpec
  import opened Dispatch
  import opened Confluence
  import opened GroupWalk

  // ------------------------------------------------------------------ tasks for all handlers

  /** The tasks given to handlers of the listed input types, all together. */
  ghost function TasksForAll(w: World, items: seq<Model>, types: seq<TypeName>): multiset<TaskSpec> {
    if types == [] then multiset{}
    else multiset(Serialised(w, Delivered(w.classes, items, types[0]))) + TasksForAll(w, items, types[1..])
  }

  lemma OneMoreItem(w: World, items: seq<Model>, t: TypeName)
    requires items != []
    ensures multiset(Serialised(w, Delivered(w.classes, items, t))) ==
            (if IsSub(w.classes, items[0].typ, t) then multiset{w.serialise(items[0])} else multiset{})
            + multiset(Serialised(w, Delivered(w.classes, items[1..], t)))
  {
    var rest := Delivered(w.classes, items[1..], t);
    if IsSub(w.classes, items[0].typ, t) {
      assert Delivered(w.classes, items, t) == [items[0]] + rest;
      assert ([items[0]] + rest)[1..] == rest;
    } else {
      assert Delivered(w.classes, items, t) == [] + rest == rest;
    }
  }

  /** An item adds its task once for every type its class falls under. */
  lemma {:induction false} ItemForAll(w: World, items: seq<Model>, types: seq<TypeName>)
    requires items != []
    ensures TasksForAll(w, items, types) ==
            TasksForAll(w, items[1..], types) + multiset{}[w.serialise(items[0]) := Takers(w.classes, types, items[0].typ)]
  {
    if types != [] {
      OneMoreItem(w, items, types[0]);
      ItemForAll(w, items, types[1..]);
    }
  }

  lemma {:induction false} NoItems(w: World, types: seq<TypeName>)
    ensures TasksForAll(w, [], types) == multiset{}
  {
    if types != [] {
      NoItems(w, types[1..]);
    }
  }

  lemma {:induction false} TasksAreTheItems(w: World, items: seq<Model>, types: seq<TypeName>)
    requires forall m :: m in items ==> Takers(w.classes, types, m.typ) == 1
    ensures TasksForAll(w, items, types) == multiset(Serialised(w, items))
  {
    if items == [] {
      NoItems(w, types);
    } else {
      ItemForAll(w, items, types);
      assert items[0] in items;
      TasksAreTheItems(w, items[1..], types);
    }
  }

  // ------------------------------------------------------------------ in a walk

  /** The handler's only incoming edge comes from the source and has no mapper. */
  ghost predicate RoutedBy(g: AgentGroup, source: Agent, d: Agent, edge: Edge) {
    Incoming(g, d) == [(source, edge)] && edge.mapper.None?
  }

  /** The source ran once and succeeded with these items. */
  ghost predicate Emitted(st: Store, source: Agent, items: seq<Model>) {
    && source in st.results && st.results[source].Single? && st.results[source].result.IsOk()
    && st.results[source].result.output.value.items == items
  }

  /** The store has, for the handler, what a gather over the tasks of the items of its type came to. */
  ghost predicate GatheredItsItems(job: Job, st: Store, source: Agent, d: Agent, items: seq<Model>) {
    && d.inputType.Some? && d in st.results && st.results[d].Batch?
    && exists edge {:trigger RoutedBy(job.group, source, d, edge)} :: RoutedBy(job.group, source, d, edge) &&
         job.world.gather(FrameOf(job, d), d,
                          Serialised(job.world, Delivered(job.world.classes, items, d.inputType.value)),
                          edge.maxConcurrency) == Ok(st.results[d].results)
  }

  /** In a store that settles all nodes every handler of an emitting source was gathered over its items, and every item was
      an instance of a member of the union. */
  lemma HandlerGathered(job: Job, st: Store, source: Agent, d: Agent, edge: Edge, items: seq<Model>)
    requires IsDict(job.group) && Accepted(job.world.classes, job.group) && SolvesAll(WalkOf(job), st)
    requires source in job.group.nodes && RoutesByType(job.group, source) && Emitted(st, source, items)
    requires d in Out(job.group, source) && RoutedBy(job.group, source, d, edge)
    ensures GatheredItsItems(job, st, source, d, items) && AllExpected(job.world, items, source.fanOut.members)
  {
    var w := WalkOf(job);
    assert d in job.group.nodes && RoutingSound(job.world.classes, job.group, source);
    assert Holds(st, d, w.resolve(d, st));
    IncomingMeaning(job.group, d);
    assert (source, edge) in Incoming(job.group, d);
    if AllExpected(job.world, items, source.fanOut.members) {
      HandlerGetsItsItems(job, FrameOf(job, d), d, source, edge, st.results, st.skipped);
    }
  }

  /** For every finished walk and every source that routes by type, emitted its items and feeds single-input handlers
      without mappers: each handler was gathered over the items of its type, in order, and all handlers together were given
      one task for every item. */
  lemma RoutedWalkConservesItems(job: Job, st: Store, source: Agent, items: seq<Model>)
    requires IsDict(job.group) && Accepted(job.world.classes, job.group) && SolvesAll(WalkOf(job), st)
    requires SingleInheritance(job.world.classes)
    requires source in job.group.nodes && RoutesByType(job.group, source) && Emitted(st, source, items)
    requires forall d :: d in Out(job.group, source) ==> exists edge :: RoutedBy(job.group, source, d, edge)
    ensures forall d :: d in Out(job.group, source) ==> GatheredItsItems(job, st, source, d, items)
    ensures forall d :: d in Out(job.group, source) ==> d.inputType.Some?
    ensures TasksForAll(job.world, items, InputTypes(Out(job.group, source))) == multiset(Serialised(job.world, items))
  {
    var handlers := Out(job.group, source);
    forall d | d in handlers
      ensures GatheredItsItems(job, st, source, d, items) && AllExpected(job.world, items, source.fanOut.members)
    {
      var edge :| RoutedBy(job.group, source, d, edge);
      HandlerGathered(job, st, source, d, edge, items);
    }
    assert handlers[0] in handlers;
    RoutedItemsHaveOneTaker(job.world.classes, job.group, source, items);
    TasksAreTheItems(job.world, items, InputTypes(handlers));
  }

  // ------------------------------------------------------------------ with multiple inheritance

  const ForkHeight: map<Agent, int> := map[Emitter := 0, TakesA := 1, TakesB := 1]

  lemma ForkClimbs()
    ensures IsDict(Fork) && Closed(Fork) && Ranked(Fork, ForkHeight)
  {
    ForkRoutes();
    assert Fork.nodes[0] == Emitter && Fork.nodes[1] == TakesA && Fork.nodes[2] == TakesB;
    assert Out(Fork, TakesA) == [] && Out(Fork, TakesB) == [];
  }

  /** Construction accepts the group in which one item goes to two handlers. */
  lemma ForkIsAccepted()
    ensures IsDict(Fork) && Accepted(Hybrid, Fork)
  {
    ForkClimbs();
    RankedIsAcyclic(Fork, ForkHeight);
    ForkRoutes();
    assert RoutingSound(Hybrid, Fork, TakesA) && RoutingSound(Hybrid, Fork, TakesB);
  }
}
