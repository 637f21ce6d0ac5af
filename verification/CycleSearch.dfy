/** The white/gray depth-first cycle test of a group's topology. */
module CycleSearch {
  import opened Seqs
  import opened Topology

  ghost predicate LeadsInto(g: AgentGroup, a: Agent, s: seq<Agent>) {
    forall t :: t in Out(g, a) ==> t in s
  }

  /** Every listed node only leads to nodes listed before it. */
  ghost predicate LeadsBackwards(g: AgentGroup, s: seq<Agent>) {
    forall i :: 0 <= i < |s| ==> LeadsInto(g, s[i], s[..i])
  }

  lemma ExtendBackwards(g: AgentGroup, s: seq<Agent>, a: Agent)
    requires LeadsBackwards(g, s) && LeadsInto(g, a, s)
    ensures LeadsBackwards(g, s + [a])
  {
    forall i | 0 <= i < |s + [a]|
      ensures LeadsInto(g, (s + [a])[i], (s + [a])[..i])
    {
      assert (s + [a])[..i] == s[..i];
    }
  }

  /** The three colours partition the nodes and every finished node only leads to nodes finished before it. */
  ghost predicate Coloured(g: AgentGroup, white: set<Agent>, gray: set<Agent>, finished: seq<Agent>) {
    && NoDup(finished) && LeadsBackwards(g, finished)
    && white !! gray && white !! Elems(finished) && gray !! Elems(finished)
    && white + gray + Elems(finished) == Elems(g.nodes)
  }

  lemma EnterNode(g: AgentGroup, white: set<Agent>, gray: set<Agent>, finished: seq<Agent>, node: Agent)
    requires Coloured(g, white, gray, finished) && node in white
    ensures Coloured(g, white - {node}, gray + {node}, finished)
    ensures node !in gray && node in g.nodes
  {
    assert node in Elems(g.nodes);
    assert white - {node} + (gray + {node}) == white + gray;
  }

  lemma LeaveNode(g: AgentGroup, white: set<Agent>, gray: set<Agent>, finished: seq<Agent>, node: Agent)
    requires Coloured(g, white, gray, finished) && node in gray && LeadsInto(g, node, finished)
    ensures Coloured(g, white, gray - {node}, finished + [node])
  {
    ExtendBackwards(g, finished, node);
    NoDupConcat(finished, [node]);
    assert white + (gray - {node}) + (Elems(finished) + {node}) == white + gray + Elems(finished);
  }

  class Search {
    const g: AgentGroup
    var white: set<Agent>
    var gray: set<Agent>
    // Nodes that left gray, in the order in which they left it.
    ghost var finished: seq<Agent>

    constructor (g: AgentGroup)
      requires IsDict(g) && Closed(g)
      ensures Valid() && this.g == g && gray == {} && white == Elems(g.nodes)
    {
      this.g := g;
      white := Elems(g.nodes);
      gray := {};
      finished := [];
    }

    ghost predicate Valid()
      reads this
    {
      IsDict(g) && Closed(g) && Coloured(g, white, gray, finished)
    }

    /** `path` is the chain of gray nodes from the root down to the caller. */
    method Visit(node: Agent, ghost path: seq<Agent>) returns (found: bool)
      requires Valid() && node in g.nodes && Elems(path) == gray
      requires path != [] ==> IsWalk(g, path) && node in Out(g, path[|path| - 1])
      modifies this`white, this`gray, this`finished
      ensures white <= old(white)
      ensures found ==> Cyclic(g)
      ensures !found ==> Valid() && gray == old(gray) && node in finished
      ensures !found ==> old(finished) <= finished
      decreases white
    {
      if node in gray {
        CloseCycle(g, path, node);
        return true;
      }
      if node !in white {
        return false;
      }
      EnterNode(g, white, gray, finished, node);
      white := white - {node};
      gray := gray + {node};
      ghost var below := path + [node];
      ExtendWalk(g, path, node);
      assert below[|below| - 1] == node && Elems(below) == gray;
      TargetsAreNodes(g, node);
      var targets := Out(g, node);
      for j := 0 to |targets|
        invariant Valid() && white < old(white)
        invariant gray == old(gray) + {node}
        invariant forall k :: 0 <= k < j ==> targets[k] in finished
        invariant old(finished) <= finished
      {
        found := Visit(targets[j], below);
        if found {
          return true;
        }
      }
      LeaveNode(g, white, gray, finished, node);
      gray := gray - {node};
      finished := finished + [node];
      found := false;
    }
  }

  /** The cycle test starts a visit from every node, in no particular order, until one finds a cycle. */
  method HasCycle(g: AgentGroup) returns (found: bool)
    requires IsDict(g) && Closed(g)
    ensures found <==> Cyclic(g)
  {
    var search := new Search(g);
    var roots := search.white;
    while roots != {}
      invariant search.Valid() && search.g == g && search.gray == {}
      invariant roots <= Elems(g.nodes)
      invariant Elems(g.nodes) <= roots + Elems(search.finished)
      decreases |roots|
    {
      var a :| a in roots;
      roots := roots - {a};
      found := search.Visit(a, []);
      if found {
        return true;
      }
    }
    FinishedIsAcyclic(g, search.finished);
    found := false;
  }

  lemma FinishedIsAcyclic(g: AgentGroup, finished: seq<Agent>)
    requires IsDict(g) && Elems(finished) == Elems(g.nodes)
    requires LeadsBackwards(g, finished)
    ensures !Cyclic(g)
  {
    var rank: map<Agent, int> := map a | a in Elems(g.nodes) :: -(IndexOf(finished, a) as int);
    forall a, t | a in g.nodes && t in Out(g, a) && t in g.nodes
      ensures rank[a] < rank[t]
    {
      var i := IndexOf(finished, a);
      assert LeadsInto(g, finished[i], finished[..i]);
      var k :| 0 <= k < i && finished[k] == t;
    }
    RankedIsAcyclic(g, rank);
  }
}
