/** What constructing a group checks, and the nodes at its two ends. */
module GroupSpec {
  import opened Wrappers
  import opened Seqs
  import opened Topology
  import opened CycleSearch
  import opened Routing

  datatype GroupError =
    | EmptyTopology
    | DanglingTarget(target: Agent, source: Agent)
    | HasACycle
    | NoEntryNode
    | NoTerminalNode
    | BadRouting(error: RoutingError)

  /** Nothing leads to a. */
  ghost predicate IsEntry(g: AgentGroup, a: Agent) {
    a in g.nodes && forall s {:trigger Out(g, s)} :: s in g.nodes ==> a !in Out(g, s)
  }

  predicate IsTerminal(g: AgentGroup, a: Agent) {
    a in g.nodes && Out(g, a) == []
  }

  /** One of the first n nodes leads to a. */
  ghost predicate Targeted(g: AgentGroup, n: nat, a: Agent)
    requires n <= |g.nodes|
  {
    n > 0 && (Targeted(g, n - 1, a) || a in Out(g, g.nodes[n - 1]))
  }

  lemma {:induction false} TargetedBySome(g: AgentGroup, n: nat, a: Agent) returns (k: nat)
    requires n <= |g.nodes| && Targeted(g, n, a)
    ensures k < n && a in Out(g, g.nodes[k])
  {
    if a in Out(g, g.nodes[n - 1]) {
      k := n - 1;
    } else {
      k := TargetedBySome(g, n - 1, a);
    }
  }

  lemma {:induction false} TargetedByOne(g: AgentGroup, n: nat, k: nat, a: Agent)
    requires k < n <= |g.nodes| && a in Out(g, g.nodes[k])
    ensures Targeted(g, n, a)
  {
    if k < n - 1 {
      TargetedByOne(g, n - 1, k, a);
    }
  }

  lemma EntryIffNotTargeted(g: AgentGroup, a: Agent)
    requires a in g.nodes
    ensures IsEntry(g, a) <==> !Targeted(g, |g.nodes|, a)
  {
    if Targeted(g, |g.nodes|, a) {
      var k := TargetedBySome(g, |g.nodes|, a);
      assert g.nodes[k] in g.nodes;
    } else {
      forall s | s in g.nodes
        ensures a !in Out(g, s)
      {
        var k :| 0 <= k < |g.nodes| && g.nodes[k] == s;
        if a in Out(g, s) {
          TargetedByOne(g, |g.nodes|, k, a);
        }
      }
    }
  }

  /** The nodes no edge leads to, in declaration order. */
  method EntryNodes(g: AgentGroup) returns (r: seq<Agent>)
    requires IsDict(g)
    ensures forall a :: a in r <==> IsEntry(g, a)
    ensures NoDup(r) && IsSubsequence(r, g.nodes)
  {
    var targets: set<Agent> := {};
    for i := 0 to |g.nodes|
      invariant forall a :: a in targets <==> Targeted(g, i, a)
    {
      targets := targets + Elems(Out(g, g.nodes[i]));
    }
    r := Restrict(g.nodes, Elems(g.nodes) - targets);
    RestrictInOrder(g.nodes, Elems(g.nodes) - targets);
    forall a | a in g.nodes
      ensures IsEntry(g, a) <==> a !in targets
    {
      EntryIffNotTargeted(g, a);
    }
  }

  lemma {:induction false} NoTargetsAnywhere(es: seq<Edge>)
    ensures Targets(es) == [] <==> forall e :: e in es ==> e.to == []
  {
    if es != [] {
      NoTargetsAnywhere(es[1..]);
      assert es == [es[0]] + es[1..];
      assert Targets(es) == [] <==> es[0].to == [] && Targets(es[1..]) == [];
    }
  }

  lemma TerminalIffNoTargets(g: AgentGroup, a: Agent)
    requires IsDict(g) && a in g.nodes
    ensures a in g.edges
    ensures IsTerminal(g, a) <==> forall e :: e in g.edges[a] ==> e.to == []
  {
    assert a in Elems(g.nodes);
    NoTargetsAnywhere(g.edges[a]);
  }

  function TerminalSet(g: AgentGroup): set<Agent> {
    set a | a in g.nodes && IsTerminal(g, a)
  }

  function Terminals(g: AgentGroup): seq<Agent> {
    Restrict(g.nodes, TerminalSet(g))
  }

  lemma InTerminalSet(g: AgentGroup, i: nat)
    requires IsDict(g) && i < |g.nodes|
    ensures g.nodes[i] in g.edges
    ensures g.nodes[i] in TerminalSet(g) <==> forall e :: e in g.edges[g.nodes[i]] ==> e.to == []
  {
    assert g.nodes[i] in g.nodes;
    TerminalIffNoTargets(g, g.nodes[i]);
  }

  /** The nodes whose edges all lead nowhere, in declaration order. */
  method TerminalNodes(g: AgentGroup) returns (r: seq<Agent>)
    requires IsDict(g)
    ensures r == Terminals(g)
    ensures forall a :: a in r <==> IsTerminal(g, a)
  {
    r := [];
    for i := 0 to |g.nodes|
      invariant r == Restrict(g.nodes[..i], TerminalSet(g))
    {
      var node := g.nodes[i];
      InTerminalSet(g, i);
      RestrictNext(g.nodes, i, TerminalSet(g));
      if forall e :: e in g.edges[node] ==> e.to == [] {
        r := r + [node];
      }
    }
    assert g.nodes[..|g.nodes|] == g.nodes;
  }

  lemma AcyclicHasEntry(g: AgentGroup)
    requires g.nodes != [] && !Cyclic(g)
    ensures exists a :: IsEntry(g, a)
  {
    if forall a :: !IsEntry(g, a) {
      var all := Elems(g.nodes);
      forall v | v in all
        ensures HasPredecessorIn(g, all, v)
      {
        assert !IsEntry(g, v);
        var s :| s in g.nodes && v in Out(g, s);
        assert s in all;
      }
      assert g.nodes[0] in all;
      PredecessorsInsideMakeCycle(g, all);
    }
  }

  lemma AcyclicHasTerminal(g: AgentGroup)
    requires IsDict(g) && Closed(g) && g.nodes != [] && !Cyclic(g)
    ensures exists a :: IsTerminal(g, a)
  {
    if forall a :: !IsTerminal(g, a) {
      forall v | v in g.nodes
        ensures Out(g, v) != []
      {
        assert !IsTerminal(g, v);
      }
      WalkForwards(g, [g.nodes[0]]);
    }
  }

  /** The topologies that construction accepts. */
  ghost predicate Accepted(h: Hierarchy, g: AgentGroup) {
    && g.nodes != [] && Closed(g) && !Cyclic(g)
    && forall a :: a in g.nodes ==> RoutingSound(h, g, a)
  }

  /** Construction accepts exactly the nonempty, closed, acyclic topologies with sound routing; the entry and
      terminal checks never fire. */
  method Validate(h: Hierarchy, g: AgentGroup) returns (r: Result<(), GroupError>)
    requires IsDict(g)
    ensures r.Ok? <==> Accepted(h, g)
    ensures r == Err(EmptyTopology) <==> g.nodes == []
    ensures r.Err? && r.error.DanglingTarget? <==> g.nodes != [] && !Closed(g)
    ensures r == Err(HasACycle) <==> g.nodes != [] && Closed(g) && Cyclic(g)
    ensures r.Err? && r.error.BadRouting? ==> exists a :: a in g.nodes && IsFault(h, g, a, r.error.error)
    ensures r.Err? ==> !r.error.NoEntryNode? && !r.error.NoTerminalNode?
  {
    if g.nodes == [] {
      return Err(EmptyTopology);
    }
    var dangling := FindDangling(g);
    if dangling.Some? {
      return Err(dangling.value);
    }
    var cyclic := HasCycle(g);
    if cyclic {
      return Err(HasACycle);
    }
    AcyclicHasEntry(g);
    AcyclicHasTerminal(g);
    var entries := EntryNodes(g);
    if entries == [] {
      return Err(NoEntryNode);
    }
    var terminals := TerminalNodes(g);
    if terminals == [] {
      return Err(NoTerminalNode);
    }
    for i := 0 to |g.nodes|
      invariant forall k :: 0 <= k < i ==> RoutingSound(h, g, g.nodes[k])
    {
      assert g.nodes[i] in g.nodes;
      var table := HeterogeneousDispatchFor(h, g, g.nodes[i]);
      if table.Err? {
        return Err(BadRouting(table.error));
      }
    }
    r := Ok(());
  }

  method FindDangling(g: AgentGroup) returns (r: Option<GroupError>)
    requires IsDict(g)
    ensures r.None? <==> Closed(g)
    ensures r.Some? ==> r.value.DanglingTarget? && r.value.target !in g.nodes && r.value.target in Out(g, r.value.source)
  {
    for i := 0 to |g.nodes|
      invariant forall k, t :: 0 <= k < i && t in Out(g, g.nodes[k]) ==> t in g.nodes
    {
      var targets := Out(g, g.nodes[i]);
      for j := 0 to |targets|
        invariant forall k :: 0 <= k < j ==> targets[k] in g.nodes
      {
        if targets[j] !in g.nodes {
          assert g.nodes[i] in g.nodes && targets[j] in Out(g, g.nodes[i]);
          return Some(DanglingTarget(targets[j], g.nodes[i]));
        }
      }
    }
    forall a, t | a in g.nodes && t in Out(g, a)
      ensures t in g.nodes
    {
      var k :| 0 <= k < |g.nodes| && g.nodes[k] == a;
    }
    r := None;
  }
}
