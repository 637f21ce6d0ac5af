/** The frozen DAG of agents: nodes in declaration order, edges, walks and cycles. */
module Topology {
  import opened Wrappers
  import opened Seqs

  type TypeName = string

  /** What inspecting an agent's output type for a fan-out field yields. */
  datatype FanOutField = NoField | Malformed | ListOf(members: seq<TypeName>)

  /** Agents compare field by field; `rest` stands for the fields that play no part here. */
  datatype Agent = Agent(name: string, inputType: Option<TypeName>, fanOut: FanOutField, rest: nat)

  /** Mappers and conditions are named; what they compute is a parameter of the walk. */
  datatype Edge = Edge(to: seq<Agent>, mapper: Option<nat>, maxConcurrency: nat, condition: Option<nat>)

  datatype AgentGroup = AgentGroup(name: string, nodes: seq<Agent>, edges: map<Agent, seq<Edge>>)

  /** The topology is a dictionary: distinct keys, and every key has a value. */
  ghost predicate IsDict(g: AgentGroup) {
    NoDup(g.nodes) && g.edges.Keys == Elems(g.nodes)
  }

  /** All targets of a tuple of edges in iteration order, repeats included. */
  function Targets(es: seq<Edge>): seq<Agent> {
    if es == [] then [] else es[0].to + Targets(es[1..])
  }

  function Out(g: AgentGroup, a: Agent): seq<Agent> {
    if a in g.edges then Targets(g.edges[a]) else []
  }

  /** Every target is a node. */
  ghost predicate Closed(g: AgentGroup) {
    forall a, t :: a in g.nodes && t in Out(g, a) ==> t in g.nodes
  }

  lemma TargetsAreNodes(g: AgentGroup, a: Agent)
    requires Closed(g) && a in g.nodes
    ensures forall t :: t in Out(g, a) ==> t in Elems(g.nodes)
  {
  }

  /** A nonempty list of nodes in which each step follows an edge. */
  ghost predicate IsWalk(g: AgentGroup, p: seq<Agent>) {
    && p != []
    && (forall i :: 0 <= i < |p| ==> p[i] in g.nodes)
    && (forall i, j :: 0 <= i < |p| && 0 <= j < |p| && j == i + 1 ==> p[j] in Out(g, p[i]))
  }

  ghost predicate IsCycle(g: AgentGroup, p: seq<Agent>) {
    IsWalk(g, p) && |p| >= 2 && p[0] == p[|p| - 1]
  }

  ghost predicate Cyclic(g: AgentGroup) {
    exists p :: IsCycle(g, p)
  }

  /** Some walk with k edges ends at v and none that ends at v has more. */
  ghost predicate LongestWalkTo(g: AgentGroup, v: Agent, k: nat) {
    && (exists p :: IsWalk(g, p) && p[|p| - 1] == v && |p| == k + 1)
    && (forall p :: IsWalk(g, p) && p[|p| - 1] == v ==> |p| <= k + 1)
  }

  /** Every edge climbs in rank. */
  ghost predicate Ranked(g: AgentGroup, rank: map<Agent, int>) {
    && rank.Keys == Elems(g.nodes)
    && (forall a, t :: a in g.nodes && t in Out(g, a) && t in g.nodes ==> rank[a] < rank[t])
  }

  lemma {:induction false} RankClimbs(g: AgentGroup, rank: map<Agent, int>, p: seq<Agent>)
    requires Ranked(g, rank) && IsWalk(g, p)
    ensures rank[p[0]] + |p| - 1 <= rank[p[|p| - 1]]
  {
    if |p| > 1 {
      var q := p[..|p| - 1];
      RankClimbs(g, rank, q);
      assert p[|p| - 1] in Out(g, q[|q| - 1]);
    }
  }

  lemma RankedIsAcyclic(g: AgentGroup, rank: map<Agent, int>)
    requires Ranked(g, rank)
    ensures !Cyclic(g)
  {
    forall p | IsCycle(g, p)
      ensures false
    {
      RankClimbs(g, rank, p);
    }
  }

  ghost predicate HasPredecessorIn(g: AgentGroup, inside: set<Agent>, v: Agent) {
    exists s :: s in inside && v in Out(g, s)
  }

  /** If every node of a nonempty set has a predecessor inside the set, the graph has a cycle. */
  lemma PredecessorsInsideMakeCycle(g: AgentGroup, inside: set<Agent>)
    requires inside != {} && inside <= Elems(g.nodes)
    requires forall v {:trigger HasPredecessorIn(g, inside, v)} :: v in inside ==> HasPredecessorIn(g, inside, v)
    ensures Cyclic(g)
  {
    var v :| v in inside;
    WalkBackwards(g, inside, [v]);
  }

  lemma PrependWalk(g: AgentGroup, s: Agent, p: seq<Agent>)
    requires IsWalk(g, p) && s in g.nodes && p[0] in Out(g, s)
    ensures IsWalk(g, [s] + p)
  {
  }

  lemma CloseBackwards(g: AgentGroup, s: Agent, p: seq<Agent>)
    requires IsWalk(g, p) && s in p && p[0] in Out(g, s)
    ensures Cyclic(g)
  {
    assert IsCycle(g, [s] + p[..IndexOf(p, s) + 1]);
  }

  lemma {:induction false} WalkBackwards(g: AgentGroup, inside: set<Agent>, p: seq<Agent>)
    requires inside <= Elems(g.nodes)
    requires forall v {:trigger HasPredecessorIn(g, inside, v)} :: v in inside ==> HasPredecessorIn(g, inside, v)
    requires IsWalk(g, p) && NoDup(p) && Elems(p) <= inside
    ensures Cyclic(g)
    decreases |inside| - |p|
  {
    NoDupCard(p);
    SubsetCard(Elems(p), inside);
    assert p[0] in inside && HasPredecessorIn(g, inside, p[0]);
    var s :| s in inside && p[0] in Out(g, s);
    assert s in Elems(g.nodes);
    if s in p {
      CloseBackwards(g, s, p);
    } else {
      var longer := [s] + p;
      PrependWalk(g, s, p);
      NoDupConcat([s], p);
      NoDupCard(longer);
      SubsetCard(Elems(longer), inside);
      WalkBackwards(g, inside, longer);
    }
  }

  lemma CloseCycle(g: AgentGroup, path: seq<Agent>, node: Agent)
    requires IsWalk(g, path) && node in path && node in Out(g, path[|path| - 1])
    ensures Cyclic(g)
  {
    assert IsCycle(g, path[IndexOf(path, node)..] + [node]);
  }

  lemma ExtendWalk(g: AgentGroup, path: seq<Agent>, node: Agent)
    requires node in g.nodes
    requires path != [] ==> IsWalk(g, path) && node in Out(g, path[|path| - 1])
    ensures IsWalk(g, path + [node])
  {
  }

  /** If every node of a nonempty topology has a successor, the graph has a cycle. */
  lemma {:induction false} WalkForwards(g: AgentGroup, p: seq<Agent>)
    requires IsDict(g) && Closed(g) && IsWalk(g, p) && NoDup(p)
    requires forall v {:trigger Out(g, v)} :: v in g.nodes ==> Out(g, v) != []
    ensures Cyclic(g)
    decreases |g.nodes| - |p|
  {
    NoDupCard(p);
    NoDupCard(g.nodes);
    SubsetCard(Elems(p), Elems(g.nodes));
    var last := p[|p| - 1];
    assert last in g.nodes && Out(g, last) != [];
    var t := Out(g, last)[0];
    assert t in Out(g, last) && t in g.nodes;
    if t in p {
      CloseCycle(g, p, t);
    } else {
      var longer := p + [t];
      ExtendWalk(g, p, t);
      NoDupConcat(p, [t]);
      NoDupCard(longer);
      SubsetCard(Elems(longer), Elems(g.nodes));
      WalkForwards(g, longer);
    }
  }
}
