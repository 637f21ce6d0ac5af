/** Kahn's algorithm: a flat topological order, and dependency tiers. */
module Kahn {
  import opened Wrappers
  import opened Seqs
  import opened Topology

  /** Edges into v from the first n nodes that are not yet done, each as often as it is declared. */
  ghost function Pending(g: AgentGroup, n: nat, done: set<Agent>, v: Agent): nat
    requires n <= |g.nodes|
  {
    if n == 0 then 0
    else
      Pending(g, n - 1, done, v) +
      (if g.nodes[n - 1] in done then 0 else multiset(Out(g, g.nodes[n - 1]))[v])
  }

  ghost function Waiting(g: AgentGroup, done: set<Agent>, v: Agent): nat {
    Pending(g, |g.nodes|, done, v)
  }

  lemma {:induction false} PendingZero(g: AgentGroup, n: nat, done: set<Agent>, v: Agent)
    requires n <= |g.nodes|
    ensures Pending(g, n, done, v) == 0 <==>
            forall i :: 0 <= i < n && g.nodes[i] !in done ==> v !in Out(g, g.nodes[i])
  {
    if n > 0 {
      PendingZero(g, n - 1, done, v);
    }
  }

  lemma {:induction false} PendingAfter(g: AgentGroup, n: nat, done: set<Agent>, a: Agent, v: Agent)
    requires n <= |g.nodes| && NoDup(g.nodes) && a !in done
    ensures Pending(g, n, done, v) ==
            Pending(g, n, done + {a}, v) + (if a in g.nodes[..n] then multiset(Out(g, a))[v] else 0)
  {
    if n > 0 {
      PendingAfter(g, n - 1, done, a, v);
      assert g.nodes[..n] == g.nodes[..n - 1] + [g.nodes[n - 1]];
    }
  }

  /** Every predecessor of v lies in `done`. */
  ghost predicate PredecessorsIn(g: AgentGroup, done: set<Agent>, v: Agent) {
    forall s {:trigger Out(g, s)} :: s in g.nodes && v in Out(g, s) ==> s in done
  }

  lemma WaitingZero(g: AgentGroup, done: set<Agent>, v: Agent)
    ensures Waiting(g, done, v) == 0 <==> PredecessorsIn(g, done, v)
  {
    PendingZero(g, |g.nodes|, done, v);
    if PredecessorsIn(g, done, v) {
      forall i | 0 <= i < |g.nodes| && g.nodes[i] !in done
        ensures v !in Out(g, g.nodes[i])
      {
      }
    }
  }

  lemma WaitingAfter(g: AgentGroup, done: set<Agent>, a: Agent, v: Agent)
    requires NoDup(g.nodes) && a in g.nodes && a !in done
    ensures Waiting(g, done, v) == Waiting(g, done + {a}, v) + multiset(Out(g, a))[v]
  {
    PendingAfter(g, |g.nodes|, done, a, v);
    assert g.nodes[..|g.nodes|] == g.nodes;
  }

  /** The counters hold, for every node, the edges into it from nodes not done. */
  ghost predicate Counts(g: AgentGroup, done: set<Agent>, indeg: map<Agent, int>) {
    indeg.Keys == Elems(g.nodes) && forall v :: v in indeg ==> indeg[v] == Waiting(g, done, v)
  }

  method AddEdges(targets: seq<Agent>, indeg: map<Agent, int>) returns (indeg': map<Agent, int>)
    requires forall t :: t in targets ==> t in indeg
    ensures indeg'.Keys == indeg.Keys
    ensures forall v :: v in indeg ==> indeg'[v] == indeg[v] + multiset(targets)[v]
  {
    indeg' := indeg;
    for j := 0 to |targets|
      invariant indeg'.Keys == indeg.Keys
      invariant forall v :: v in indeg ==> indeg'[v] == indeg[v] + multiset(targets[..j])[v]
    {
      assert targets[..j + 1] == targets[..j] + [targets[j]];
      indeg' := indeg'[targets[j] := indeg'[targets[j]] + 1];
    }
    assert targets[..|targets|] == targets;
  }

  /** Take edges off the counters and list, once each, the targets whose counter reaches zero. */
  method RemoveEdges(targets: seq<Agent>, indeg: map<Agent, int>)
    returns (indeg': map<Agent, int>, freed: seq<Agent>)
    requires forall t :: t in targets ==> t in indeg
    requires forall v :: v in indeg ==> multiset(targets)[v] <= indeg[v]
    ensures indeg'.Keys == indeg.Keys && NoDup(freed)
    ensures forall v :: v in indeg ==> indeg'[v] == indeg[v] - multiset(targets)[v]
    ensures forall v :: v in freed <==> v in indeg && v in targets && indeg'[v] == 0
  {
    indeg', freed := indeg, [];
    for j := 0 to |targets|
      invariant indeg'.Keys == indeg.Keys && NoDup(freed)
      invariant forall v :: v in indeg ==> indeg'[v] == indeg[v] - multiset(targets[..j])[v]
      invariant forall v :: v in freed <==> v in indeg && v in targets[..j] && indeg'[v] == 0
    {
      var t := targets[j];
      assert targets[..j + 1] == targets[..j] + [t];
      assert targets == targets[..j + 1] + targets[j + 1..];
      assert multiset(targets)[t] >= multiset(targets[..j + 1])[t];
      indeg' := indeg'[t := indeg'[t] - 1];
      if indeg'[t] == 0 {
        freed := freed + [t];
      }
    }
    assert targets[..|targets|] == targets;
  }

  method InDegrees(g: AgentGroup) returns (indeg: map<Agent, int>)
    requires IsDict(g) && Closed(g)
    ensures Counts(g, {}, indeg)
  {
    indeg := map a | a in Elems(g.nodes) :: 0;
    for i := 0 to |g.nodes|
      invariant indeg.Keys == Elems(g.nodes)
      invariant forall v :: v in indeg ==> indeg[v] == Pending(g, i, {}, v)
    {
      TargetsAreNodes(g, g.nodes[i]);
      ghost var before := indeg;
      indeg := AddEdges(Out(g, g.nodes[i]), indeg);
      forall v | v in indeg
        ensures indeg[v] == Pending(g, i + 1, {}, v)
      {
        assert indeg[v] == before[v] + multiset(Out(g, g.nodes[i]))[v];
      }
    }
  }

  /** Exactly the nodes that are done or ready have all their predecessors done. */
  ghost predicate Frontier(g: AgentGroup, done: set<Agent>, ready: set<Agent>, indeg: map<Agent, int>) {
    && Counts(g, done, indeg)
    && done !! ready && done + ready <= Elems(g.nodes)
    && (forall v :: v in indeg ==> (indeg[v] == 0 <==> v in done || v in ready))
  }

  lemma ReadyHavePredecessorsDone(g: AgentGroup, done: set<Agent>, ready: set<Agent>, indeg: map<Agent, int>, v: Agent)
    requires Frontier(g, done, ready, indeg) && v in ready
    ensures PredecessorsIn(g, done, v)
  {
    WaitingZero(g, done, v);
  }

  /** Finish one ready node: take its edges off the counters and list what becomes ready by that. */
  method Release(g: AgentGroup, node: Agent, indeg: map<Agent, int>, ghost done: set<Agent>, ghost ready: set<Agent>)
    returns (indeg': map<Agent, int>, freed: seq<Agent>)
    requires IsDict(g) && Closed(g) && Frontier(g, done, ready, indeg) && node in ready
    ensures Frontier(g, done + {node}, ready - {node} + Elems(freed), indeg')
    ensures NoDup(freed) && Elems(freed) !! ready && Elems(freed) !! done
    ensures forall v :: v in freed ==> v in Out(g, node)
  {
    assert node in g.nodes;
    TargetsAreNodes(g, node);
    WaitingDrops(g, node, indeg, done);
    indeg', freed := RemoveEdges(Out(g, node), indeg);
    FrontierMoves(g, node, indeg, indeg', freed, done, ready);
  }

  lemma WaitingDrops(g: AgentGroup, node: Agent, indeg: map<Agent, int>, done: set<Agent>)
    requires NoDup(g.nodes) && Counts(g, done, indeg) && node in g.nodes && node !in done
    ensures forall v :: v in indeg ==> indeg[v] == Waiting(g, done + {node}, v) + multiset(Out(g, node))[v]
  {
    forall v | v in indeg
      ensures indeg[v] == Waiting(g, done + {node}, v) + multiset(Out(g, node))[v]
    {
      WaitingAfter(g, done, node, v);
    }
  }

  lemma FrontierMoves(g: AgentGroup, node: Agent, indeg: map<Agent, int>, indeg': map<Agent, int>, freed: seq<Agent>,
                      done: set<Agent>, ready: set<Agent>)
    requires Frontier(g, done, ready, indeg) && node in ready && indeg'.Keys == indeg.Keys
    requires forall v :: v in indeg ==> indeg[v] == Waiting(g, done + {node}, v) + multiset(Out(g, node))[v]
    requires forall v :: v in indeg ==> indeg'[v] == indeg[v] - multiset(Out(g, node))[v]
    requires forall v :: v in freed <==> v in indeg && v in Out(g, node) && indeg'[v] == 0
    ensures Frontier(g, done + {node}, ready - {node} + Elems(freed), indeg')
    ensures Elems(freed) !! ready && Elems(freed) !! done
  {
    forall v | v in freed
      ensures v !in ready && v !in done && v in g.nodes
    {
      assert multiset(Out(g, node))[v] > 0 && indeg[v] > 0;
    }
    forall v | v in indeg'
      ensures indeg'[v] == 0 <==> v in done + {node} || v in ready - {node} + Elems(freed)
    {
      if indeg'[v] == 0 && indeg[v] != 0 {
        assert v in Out(g, node);
      }
    }
  }

  /** A permutation of the nodes in which every node comes after all its predecessors. */
  ghost predicate IsTopologicalOrder(g: AgentGroup, order: seq<Agent>) {
    && NoDup(order) && Elems(order) == Elems(g.nodes)
    && IsTopologicalPrefix(g, order)
  }

  ghost predicate IsTopologicalPrefix(g: AgentGroup, order: seq<Agent>) {
    forall i :: 0 <= i < |order| ==> PredecessorsIn(g, Elems(order[..i]), order[i])
  }

  lemma ExtendPrefix(g: AgentGroup, order: seq<Agent>, a: Agent)
    requires IsTopologicalPrefix(g, order) && PredecessorsIn(g, Elems(order), a)
    ensures IsTopologicalPrefix(g, order + [a])
  {
    forall i | 0 <= i < |order + [a]|
      ensures PredecessorsIn(g, Elems((order + [a])[..i]), (order + [a])[i])
    {
      assert (order + [a])[..i] == order[..i];
    }
  }

  lemma OrderedIsAcyclic(g: AgentGroup, order: seq<Agent>)
    requires IsTopologicalOrder(g, order)
    ensures !Cyclic(g)
  {
    var rank: map<Agent, int> := map a | a in Elems(g.nodes) :: IndexOf(order, a);
    forall a, t | a in g.nodes && t in Out(g, a) && t in g.nodes
      ensures rank[a] < rank[t]
    {
      var i := IndexOf(order, t);
      assert PredecessorsIn(g, Elems(order[..i]), t);
      assert a in order[..i];
      var k :| 0 <= k < i && order[k] == a;
    }
    RankedIsAcyclic(g, rank);
  }

  /** An acyclic topology has a topological order. */
  lemma AcyclicHasOrder(g: AgentGroup) returns (order: seq<Agent>)
    requires IsDict(g) && !Cyclic(g)
    ensures IsTopologicalOrder(g, order)
  {
    order := CompleteOrder(g, []);
  }

  lemma {:induction false} CompleteOrder(g: AgentGroup, part: seq<Agent>) returns (order: seq<Agent>)
    requires IsDict(g) && !Cyclic(g)
    requires NoDup(part) && Elems(part) <= Elems(g.nodes) && IsTopologicalPrefix(g, part)
    ensures IsTopologicalOrder(g, order)
    decreases |g.nodes| - |part|
  {
    LengthOfPart(g, part);
    var inside := Elems(g.nodes) - Elems(part);
    if inside == {} {
      assert Elems(g.nodes) == Elems(part) + inside;
      order := part;
    } else {
      if forall v {:trigger HasPredecessorIn(g, inside, v)} :: v in inside ==> HasPredecessorIn(g, inside, v) {
        PredecessorsInsideMakeCycle(g, inside);
      }
      var v :| v in inside && !HasPredecessorIn(g, inside, v);
      forall s | s in g.nodes && v in Out(g, s)
        ensures s in Elems(part)
      {
        assert s in Elems(g.nodes);
      }
      ExtendPrefix(g, part, v);
      NoDupConcat(part, [v]);
      LengthOfPart(g, part + [v]);
      order := CompleteOrder(g, part + [v]);
    }
  }

  /** When the frontier runs dry before every node is done, the rest of the nodes hold a cycle. */
  lemma StuckIsCyclic(g: AgentGroup, done: set<Agent>, indeg: map<Agent, int>)
    requires Frontier(g, done, {}, indeg) && done != Elems(g.nodes)
    ensures Cyclic(g)
  {
    var inside := Elems(g.nodes) - done;
    forall v | v in inside
      ensures HasPredecessorIn(g, inside, v)
    {
      assert v in indeg;
      WaitingZero(g, done, v);
      var s :| s in g.nodes && v in Out(g, s) && s !in done;
      assert s in inside;
    }
    assert Elems(g.nodes) == done + inside;
    PredecessorsInsideMakeCycle(g, inside);
  }

  /** The flat order exists exactly when the topology has no cycle. */
  method TopologicalOrder(g: AgentGroup) returns (r: Option<seq<Agent>>)
    requires IsDict(g) && Closed(g)
    ensures r.Some? <==> !Cyclic(g)
    ensures r.Some? ==> IsTopologicalOrder(g, r.value)
  {
    var indeg := InDegrees(g);
    var queue := SelectZeros(g, indeg);
    var order := [];
    FirstFrontier(g, indeg, queue);
    assert Elems(order) == {};
    while queue != []
      invariant Frontier(g, Elems(order), Elems(queue), indeg)
      invariant NoDup(order) && NoDup(queue) && IsTopologicalPrefix(g, order)
      decreases |g.nodes| - |order|
    {
      var node := queue[0];
      ghost var done, ready := Elems(order), Elems(queue);
      ReadyHavePredecessorsDone(g, done, ready, indeg, node);
      ExtendPrefix(g, order, node);
      var freed;
      indeg, freed := Release(g, node, indeg, done, ready);
      order := order + [node];
      NoDupTail(queue);
      NoDupConcat(queue[1..], freed);
      queue := queue[1..] + freed;
      assert Elems(order) == done + {node};
      LengthOfPart(g, order);
    }
    LengthOfPart(g, order);
    if |order| != |g.nodes| {
      assert Elems(queue) == {};
      StuckIsCyclic(g, Elems(order), indeg);
      return None;
    }
    OrderedIsAcyclic(g, order);
    r := Some(order);
  }

  /** The nodes whose counter is zero, in declaration order. */
  function SelectZeros(g: AgentGroup, indeg: map<Agent, int>): (zeros: seq<Agent>)
    requires indeg.Keys == Elems(g.nodes)
    ensures forall v :: v in zeros <==> v in g.nodes && indeg[v] == 0
  {
    Restrict(g.nodes, set v | v in indeg && indeg[v] == 0)
  }

  lemma FirstFrontier(g: AgentGroup, indeg: map<Agent, int>, zeros: seq<Agent>)
    requires IsDict(g) && Counts(g, {}, indeg) && zeros == SelectZeros(g, indeg)
    ensures Frontier(g, {}, Elems(zeros), indeg) && NoDup(zeros)
  {
    RestrictInOrder(g.nodes, set v | v in indeg && indeg[v] == 0);
  }

  lemma LengthOfPart(g: AgentGroup, part: seq<Agent>)
    requires NoDup(part) && Elems(part) <= Elems(g.nodes) && NoDup(g.nodes)
    ensures |part| <= |g.nodes|
    ensures |part| == |g.nodes| <==> Elems(part) == Elems(g.nodes)
  {
    NoDupCard(part);
    NoDupCard(g.nodes);
    SubsetCard(Elems(part), Elems(g.nodes));
  }
}
