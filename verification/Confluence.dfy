/** Walks of a group in which what a node comes to depends on its upstreams alone: at most one store settles all nodes,
    and every order of resolving them finds it or fails. */
module Confluence {
  import opened Wrappers
  import opened Seqs
  import opened Topology
  import opened Kahn
  import opened Dispatch

  /** What the walk has stored so far. */
  datatype Store = Store(results: map<Agent, NodeOutput>, skipped: set<Agent>)

  const EmptyStore := Store(map[], {})

  /** A group and what each node resolves to, given what is stored about the others. */
  datatype Walk = Walk(group: AgentGroup, resolve: (Agent, Store) -> Outcome)

  function Commit(st: Store, node: Agent, o: Outcome): Store
    requires !o.Raised?
  {
    match o
    case Skipped => st.(skipped := st.skipped + {node})
    case Produced(output) => st.(results := st.results[node := output])
  }

  // ------------------------------------------------------------------ solutions

  ghost predicate Holds(st: Store, node: Agent, o: Outcome) {
    match o
    case Skipped => node in st.skipped
    case Produced(output) => node in st.results && st.results[node] == output
    case Raised(_) => false
  }

  /** The store settles exactly the nodes in `done`, a set closed under upstreams, each the way it resolves in it. */
  ghost predicate Solves(w: Walk, done: set<Agent>, st: Store) {
    && done <= Elems(w.group.nodes)
    && st.results.Keys !! st.skipped && st.results.Keys + st.skipped == done
    && (forall v {:trigger PredecessorsIn(w.group, done, v)} :: v in done ==> PredecessorsIn(w.group, done, v))
    && (forall v {:trigger w.resolve(v, st)} :: v in done ==> Holds(st, v, w.resolve(v, st)))
  }

  ghost predicate SolvesAll(w: Walk, st: Store) {
    Solves(w, Elems(w.group.nodes), st)
  }

  /** Some store settles all nodes. */
  ghost predicate Solvable(w: Walk) {
    exists whole :: SolvesAll(w, whole)
  }

  /** Both stores agree on every upstream of v. */
  ghost predicate AgreeAbove(w: Walk, st1: Store, st2: Store, v: Agent) {
    forall u :: u in w.group.nodes && v in Out(w.group, u) ==>
      SameAt(st1.results, st1.skipped, st2.results, st2.skipped, u)
  }

  /** What a node resolves to depends on its upstreams alone. */
  ghost predicate Local(w: Walk) {
    forall v, st1, st2 {:trigger w.resolve(v, st1), w.resolve(v, st2)} ::
      AgreeAbove(w, st1, st2, v) ==> w.resolve(v, st1) == w.resolve(v, st2)
  }

  /** Settling one more node whose upstreams are settled leaves every earlier node the way it resolves. */
  lemma ExtendSolution(w: Walk, done: set<Agent>, st: Store, v: Agent)
    requires IsDict(w.group) && Local(w) && Solves(w, done, st)
    requires v in w.group.nodes && v !in done && PredecessorsIn(w.group, done, v)
    requires !w.resolve(v, st).Raised?
    ensures Solves(w, done + {v}, Commit(st, v, w.resolve(v, st)))
  {
    var st' := Commit(st, v, w.resolve(v, st));
    forall x | x in done + {v}
      ensures PredecessorsIn(w.group, done + {v}, x)
      ensures Holds(st', x, w.resolve(x, st'))
    {
      assert PredecessorsIn(w.group, done, x);
      assert AgreeAbove(w, st, st', x);
      assert x in done ==> Holds(st, x, w.resolve(x, st));
    }
  }

  /** Ranks that every edge raises. */
  ghost predicate Ranks(g: AgentGroup, rank: map<Agent, nat>) {
    && rank.Keys == Elems(g.nodes)
    && (forall a, t :: a in g.nodes && t in Out(g, a) && t in g.nodes ==> rank[a] < rank[t])
  }

  lemma OrderGivesRanks(g: AgentGroup, order: seq<Agent>) returns (rank: map<Agent, nat>)
    requires IsTopologicalOrder(g, order)
    ensures Ranks(g, rank)
  {
    rank := map v | v in Elems(g.nodes) :: IndexOf(order, v);
    forall a, t | a in g.nodes && t in Out(g, a) && t in g.nodes
      ensures rank[a] < rank[t]
    {
      var i := IndexOf(order, t);
      assert PredecessorsIn(g, Elems(order[..i]), t);
      assert a in order[..i];
      var k :| 0 <= k < i && order[k] == a;
    }
  }

  /** Two solutions agree wherever both settle a node. */
  lemma {:induction false} SolutionsAgree(w: Walk, rank: map<Agent, nat>, d1: set<Agent>, st1: Store,
                                          d2: set<Agent>, st2: Store, v: Agent)
    requires IsDict(w.group) && Local(w) && Ranks(w.group, rank)
    requires Solves(w, d1, st1) && Solves(w, d2, st2) && v in d1 && v in d2
    ensures SameAt(st1.results, st1.skipped, st2.results, st2.skipped, v)
    decreases rank[v]
  {
    assert PredecessorsIn(w.group, d1, v) && PredecessorsIn(w.group, d2, v);
    forall u | u in w.group.nodes && v in Out(w.group, u)
      ensures SameAt(st1.results, st1.skipped, st2.results, st2.skipped, u)
    {
      assert v in Elems(w.group.nodes);
      SolutionsAgree(w, rank, d1, st1, d2, st2, u);
    }
    assert AgreeAbove(w, st1, st2, v);
    assert Holds(st1, v, w.resolve(v, st1)) && Holds(st2, v, w.resolve(v, st2));
  }

  lemma SolutionIsUnique(w: Walk, rank: map<Agent, nat>, st1: Store, st2: Store)
    requires IsDict(w.group) && Local(w) && Ranks(w.group, rank) && SolvesAll(w, st1) && SolvesAll(w, st2)
    ensures st1 == st2
  {
    var all := Elems(w.group.nodes);
    forall v | v in all
      ensures SameAt(st1.results, st1.skipped, st2.results, st2.skipped, v)
    {
      SolutionsAgree(w, rank, all, st1, all, st2, v);
    }
    assert st1.results == st2.results && st1.skipped == st2.skipped;
  }

  /** A node resolves in a partial solution the way it does in a whole one. */
  lemma SettledInWhole(w: Walk, rank: map<Agent, nat>, done: set<Agent>, st: Store, v: Agent, whole: Store)
    requires IsDict(w.group) && Local(w) && Ranks(w.group, rank) && Solves(w, done, st) && SolvesAll(w, whole)
    requires v in w.group.nodes && PredecessorsIn(w.group, done, v)
    ensures Holds(whole, v, w.resolve(v, st))
  {
    var all := Elems(w.group.nodes);
    forall u | u in w.group.nodes && v in Out(w.group, u)
      ensures SameAt(st.results, st.skipped, whole.results, whole.skipped, u)
    {
      SolutionsAgree(w, rank, done, st, all, whole, u);
    }
    assert AgreeAbove(w, st, whole, v);
    assert v in all && Holds(whole, v, w.resolve(v, whole));
  }

  /** Once `done`, which includes v's upstreams, is settled as in st, resolving v raises e. */
  ghost predicate RaisesFrom(w: Walk, v: Agent, e: WalkError, done: set<Agent>, st: Store) {
    Solves(w, done, st) && v in w.group.nodes && PredecessorsIn(w.group, done, v) && w.resolve(v, st) == Raised(e)
  }

  /** Some node whose upstreams can be settled raises e. */
  ghost predicate IsFailure(w: Walk, e: WalkError) {
    exists v, done, st :: RaisesFrom(w, v, e, done, st)
  }

  /** If a node raises once its upstreams are settled, no store settles all nodes. */
  lemma RaisingHasNoSolution(w: Walk, rank: map<Agent, nat>, done: set<Agent>, st: Store, v: Agent)
    requires IsDict(w.group) && Local(w) && Ranks(w.group, rank) && Solves(w, done, st)
    requires v in w.group.nodes && PredecessorsIn(w.group, done, v) && w.resolve(v, st).Raised?
    ensures !Solvable(w) && IsFailure(w, w.resolve(v, st).error)
  {
    assert RaisesFrom(w, v, w.resolve(v, st).error, done, st);
    if Solvable(w) {
      var whole :| SolvesAll(w, whole);
      SettledInWhole(w, rank, done, st, v, whole);
    }
  }

  /** What a node raises does not depend on which other nodes were settled before it. */
  lemma FailureIsTheNodes(w: Walk, order: seq<Agent>, v: Agent, e1: WalkError, d1: set<Agent>, st1: Store,
                          e2: WalkError, d2: set<Agent>, st2: Store)
    requires IsDict(w.group) && Local(w) && IsTopologicalOrder(w.group, order)
    requires RaisesFrom(w, v, e1, d1, st1) && RaisesFrom(w, v, e2, d2, st2)
    ensures e1 == e2
  {
    var rank := OrderGivesRanks(w.group, order);
    forall u | u in w.group.nodes && v in Out(w.group, u)
      ensures SameAt(st1.results, st1.skipped, st2.results, st2.skipped, u)
    {
      SolutionsAgree(w, rank, d1, st1, d2, st2, u);
    }
    assert AgreeAbove(w, st1, st2, v);
  }

  // ------------------------------------------------------------------ the walk in sequence

  /** Reference: resolve and commit one node at a time from position i of the given order, stopping at the first error. */
  ghost function WalkFrom(w: Walk, order: seq<Agent>, i: nat, st: Store): Result<Store, WalkError>
    requires i <= |order|
    decreases |order| - i
  {
    if i == |order| then Ok(st)
    else match w.resolve(order[i], st)
      case Raised(e) => Err(e)
      case o => WalkFrom(w, order, i + 1, Commit(st, order[i], o))
  }

  ghost function WalkInOrder(w: Walk, order: seq<Agent>): Result<Store, WalkError> {
    WalkFrom(w, order, 0, EmptyStore)
  }

  /** The result is the solution when it is a store; when it is an error there is no solution, and a node raises it. */
  ghost predicate Decides(w: Walk, r: Result<Store, WalkError>) {
    if r.Ok? then SolvesAll(w, r.value) else !Solvable(w) && IsFailure(w, r.error)
  }

  /** The next node of an order is new and has its upstreams settled; unless it raises, storing it settles it too. */
  lemma StepAlong(w: Walk, order: seq<Agent>, i: nat, st: Store)
    requires IsDict(w.group) && Local(w) && IsTopologicalOrder(w.group, order)
    requires i < |order| && Solves(w, Elems(order[..i]), st)
    ensures order[i] in w.group.nodes && PredecessorsIn(w.group, Elems(order[..i]), order[i])
    ensures !w.resolve(order[i], st).Raised? ==>
              Solves(w, Elems(order[..i + 1]), Commit(st, order[i], w.resolve(order[i], st)))
  {
    var v, done := order[i], Elems(order[..i]);
    SplitAt(order, i);
    assert v in Elems(order) && PredecessorsIn(w.group, done, v);
    if !w.resolve(v, st).Raised? {
      ExtendSolution(w, done, st, v);
    }
  }

  lemma {:induction false} WalkFromDecides(w: Walk, rank: map<Agent, nat>, order: seq<Agent>, i: nat, st: Store)
    requires IsDict(w.group) && Local(w) && Ranks(w.group, rank) && IsTopologicalOrder(w.group, order)
    requires i <= |order| && Solves(w, Elems(order[..i]), st)
    ensures Decides(w, WalkFrom(w, order, i, st))
    decreases |order| - i
  {
    if i == |order| {
      assert order[..i] == order;
    } else {
      StepAlong(w, order, i, st);
      var o := w.resolve(order[i], st);
      if o.Raised? {
        RaisingHasNoSolution(w, rank, Elems(order[..i]), st, order[i]);
      } else {
        WalkFromDecides(w, rank, order, i + 1, Commit(st, order[i], o));
      }
    }
  }

  lemma SplitAt(order: seq<Agent>, i: nat)
    requires i < |order| && NoDup(order)
    ensures Elems(order[..i]) + {order[i]} == Elems(order[..i + 1])
    ensures order[i] !in Elems(order[..i])
  {
    assert order[..i + 1] == order[..i] + [order[i]];
  }

  lemma EmptySolution(w: Walk)
    ensures Solves(w, {}, EmptyStore)
  {
  }

  lemma DecisionsAgree(w: Walk, rank: map<Agent, nat>, r1: Result<Store, WalkError>, r2: Result<Store, WalkError>)
    requires IsDict(w.group) && Local(w) && Ranks(w.group, rank) && Decides(w, r1) && Decides(w, r2)
    ensures SameResult(r1, r2)
  {
    if r1.Ok? && r2.Ok? {
      SolutionIsUnique(w, rank, r1.value, r2.value);
    }
  }

  lemma WalkInOrderDecides(w: Walk, rank: map<Agent, nat>, order: seq<Agent>)
    requires IsDict(w.group) && Local(w) && Ranks(w.group, rank) && IsTopologicalOrder(w.group, order)
    ensures Decides(w, WalkInOrder(w, order))
  {
    EmptySolution(w);
    assert Elems(order[..0]) == {};
    WalkFromDecides(w, rank, order, 0, EmptyStore);
  }

  /** Any two one-node-at-a-time walks along linear extensions of the graph both fail or end with the same store. */
  lemma OrdersAreConfluent(w: Walk, order1: seq<Agent>, order2: seq<Agent>)
    requires IsDict(w.group) && Local(w) && IsTopologicalOrder(w.group, order1) && IsTopologicalOrder(w.group, order2)
    ensures SameResult(WalkInOrder(w, order1), WalkInOrder(w, order2))
  {
    var rank := OrderGivesRanks(w.group, order1);
    WalkInOrderDecides(w, rank, order1);
    WalkInOrderDecides(w, rank, order2);
    DecisionsAgree(w, rank, WalkInOrder(w, order1), WalkInOrder(w, order2));
  }

  ghost predicate SameResult(r1: Result<Store, WalkError>, r2: Result<Store, WalkError>) {
    (r1.Ok? <==> r2.Ok?) && (r1.Ok? ==> r1 == r2)
  }

  /** What a walk that decides comes to is what every walk of one node at a time comes to. */
  lemma AgreesWithEveryOrder(w: Walk, rank: map<Agent, nat>, r: Result<Store, WalkError>)
    requires IsDict(w.group) && Local(w) && Ranks(w.group, rank) && Decides(w, r)
    ensures forall order :: IsTopologicalOrder(w.group, order) ==> SameResult(r, WalkInOrder(w, order))
  {
    forall order | IsTopologicalOrder(w.group, order)
      ensures SameResult(r, WalkInOrder(w, order))
    {
      WalkInOrderDecides(w, rank, order);
      DecisionsAgree(w, rank, r, WalkInOrder(w, order));
    }
  }

  // ------------------------------------------------------------------ several nodes at once

  /** Every node of the tier is new and has its upstreams settled. */
  ghost predicate TierReady(g: AgentGroup, tier: seq<Agent>, done: set<Agent>) {
    && NoDup(tier) && Elems(tier) !! done && Elems(tier) <= Elems(g.nodes)
    && (forall v {:trigger PredecessorsIn(g, done, v)} :: v in tier ==> PredecessorsIn(g, done, v))
  }

  /** Both stores agree on what is settled in done. */
  ghost predicate AgreeOn(st1: Store, st2: Store, done: set<Agent>) {
    forall u :: u in done ==> SameAt(st1.results, st1.skipped, st2.results, st2.skipped, u)
  }

  /** The next node of a tier resolves in the store that has its earlier siblings the way it did without them. */
  lemma SiblingsUnseen(w: Walk, tier: seq<Agent>, i: nat, st: Store, st': Store, done: set<Agent>, now: set<Agent>)
    requires IsDict(w.group) && Local(w) && TierReady(w.group, tier, done) && AgreeOn(st, st', done) && i < |tier|
    requires now == done + Elems(tier[..i])
    ensures tier[i] in w.group.nodes && tier[i] !in now && PredecessorsIn(w.group, now, tier[i])
    ensures w.resolve(tier[i], st') == w.resolve(tier[i], st)
    ensures now + {tier[i]} == done + Elems(tier[..i + 1])
  {
    assert tier[i] in tier && tier[i] in Elems(tier) && PredecessorsIn(w.group, done, tier[i]);
    assert tier[..i + 1] == tier[..i] + [tier[i]];
    assert AgreeAbove(w, st, st', tier[i]);
  }

  /** Committing a tier in declaration order settles the whole tier: siblings do not see each other. */
  method CommitTier(ghost w: Walk, tier: seq<Agent>, outcomes: seq<Outcome>, st: Store, ghost done: set<Agent>)
    returns (st': Store)
    requires IsDict(w.group) && Local(w) && Solves(w, done, st) && TierReady(w.group, tier, done)
    requires |outcomes| == |tier|
    requires forall i :: 0 <= i < |tier| ==> outcomes[i] == w.resolve(tier[i], st) && !outcomes[i].Raised?
    ensures Solves(w, done + Elems(tier), st')
  {
    st' := st;
    ghost var now := done;
    for i := 0 to |tier|
      invariant now == done + Elems(tier[..i]) && Solves(w, now, st') && AgreeOn(st, st', done)
    {
      SiblingsUnseen(w, tier, i, st, st', done, now);
      ExtendSolution(w, now, st', tier[i]);
      now := now + {tier[i]};
      st' := Commit(st', tier[i], outcomes[i]);
    }
    assert tier[..|tier|] == tier;
  }

  lemma TierRaises(w: Walk, rank: map<Agent, nat>, done: set<Agent>, st: Store, tier: seq<Agent>, n: Agent, e: WalkError)
    requires IsDict(w.group) && Local(w) && Ranks(w.group, rank) && Solves(w, done, st) && TierReady(w.group, tier, done)
    requires n in tier && w.resolve(n, st) == Raised(e)
    ensures !Solvable(w) && IsFailure(w, e)
  {
    assert n in Elems(tier) && PredecessorsIn(w.group, done, n);
    RaisingHasNoSolution(w, rank, done, st, n);
  }
}
