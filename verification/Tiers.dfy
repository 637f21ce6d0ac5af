/** Dependency tiers: the topological order grouped by longest distance from an entry node. */
module Tiers {
  import opened Wrappers
  import opened Seqs
  import opened Topology
  import opened Kahn

  /** v sits above all its predecessors, and directly above one of them unless it is on level zero. */
  ghost predicate LevelFits(g: AgentGroup, level: map<Agent, nat>, v: Agent)
    requires v in level
  {
    && (forall s {:trigger Out(g, s)} :: s in g.nodes && v in Out(g, s) ==> s in level && level[s] < level[v])
    && (level[v] == 0 || exists s :: s in level && level[s] + 1 == level[v] && v in Out(g, s))
  }

  ghost predicate Layered(g: AgentGroup, level: map<Agent, nat>) {
    && level.Keys <= Elems(g.nodes)
    && (forall v {:trigger LevelFits(g, level, v)} :: v in level ==> LevelFits(g, level, v))
  }

  lemma {:induction false} WalksFitLevel(g: AgentGroup, level: map<Agent, nat>, p: seq<Agent>)
    requires Layered(g, level) && IsWalk(g, p) && p[|p| - 1] in level
    ensures |p| <= level[p[|p| - 1]] + 1
  {
    if |p| > 1 {
      var q := p[..|p| - 1];
      assert LevelFits(g, level, p[|p| - 1]);
      assert p[|p| - 1] in Out(g, q[|q| - 1]);
      WalksFitLevel(g, level, q);
    }
  }

  lemma {:induction false} WalkOfLevel(g: AgentGroup, level: map<Agent, nat>, v: Agent) returns (p: seq<Agent>)
    requires Layered(g, level) && v in level
    ensures IsWalk(g, p) && p[|p| - 1] == v && |p| == level[v] + 1
    decreases level[v]
  {
    if level[v] == 0 {
      p := [v];
    } else {
      assert LevelFits(g, level, v);
      var s :| s in level && level[s] + 1 == level[v] && v in Out(g, s);
      var q := WalkOfLevel(g, level, s);
      p := q + [v];
    }
  }

  lemma LevelIsLongestWalk(g: AgentGroup, level: map<Agent, nat>, v: Agent)
    requires Layered(g, level) && v in level
    ensures LongestWalkTo(g, v, level[v])
  {
    var p := WalkOfLevel(g, level, v);
    forall q | IsWalk(g, q) && q[|q| - 1] == v
      ensures |q| <= level[v] + 1
    {
      WalksFitLevel(g, level, q);
    }
  }

  /** A nonempty list of nodes in declaration order. */
  ghost predicate IsTier(g: AgentGroup, tier: seq<Agent>) {
    tier != [] && NoDup(tier) && IsSubsequence(tier, g.nodes)
  }

  ghost predicate AreTiers(g: AgentGroup, tiers: seq<seq<Agent>>) {
    forall t :: 0 <= t < |tiers| ==> IsTier(g, tiers[t])
  }

  lemma AppendTier(g: AgentGroup, tiers: seq<seq<Agent>>, tier: seq<Agent>)
    requires AreTiers(g, tiers) && IsTier(g, tier)
    ensures AreTiers(g, tiers + [tier])
  {
    forall t | 0 <= t < |tiers + [tier]|
      ensures IsTier(g, (tiers + [tier])[t])
    {
      assert t < |tiers| ==> (tiers + [tier])[t] == tiers[t];
    }
  }

  /** Tier t lists, in declaration order, exactly the nodes whose longest incoming walk has t edges. */
  ghost predicate IsTiering(g: AgentGroup, tiers: seq<seq<Agent>>) {
    && AreTiers(g, tiers)
    && (forall t, v :: 0 <= t < |tiers| && v in tiers[t] ==> v in g.nodes && LongestWalkTo(g, v, t))
    && (forall v {:trigger InSomeTier(tiers, v)} :: v in g.nodes ==> InSomeTier(tiers, v))
  }

  ghost predicate InSomeTier(tiers: seq<seq<Agent>>, v: Agent) {
    exists t :: 0 <= t < |tiers| && v in tiers[t]
  }

  lemma LongestWalkIsUnique(g: AgentGroup, v: Agent, j: nat, k: nat)
    requires LongestWalkTo(g, v, j) && LongestWalkTo(g, v, k)
    ensures j == k
  {
    var p :| IsWalk(g, p) && p[|p| - 1] == v && |p| == j + 1;
    var q :| IsWalk(g, q) && q[|q| - 1] == v && |q| == k + 1;
  }

  lemma EdgeLengthensWalk(g: AgentGroup, s: Agent, v: Agent, i: nat, j: nat)
    requires LongestWalkTo(g, s, i) && LongestWalkTo(g, v, j) && v in Out(g, s) && v in g.nodes
    ensures i < j
  {
    var p :| IsWalk(g, p) && p[|p| - 1] == s && |p| == i + 1;
    assert IsWalk(g, p + [v]) && (p + [v])[|p|] == v;
  }

  /** No node is in two tiers, and every edge leads to a strictly later tier. */
  lemma EdgesClimbTiers(g: AgentGroup, tiers: seq<seq<Agent>>, s: Agent, v: Agent, i: nat, j: nat)
    requires IsTiering(g, tiers) && i < |tiers| && j < |tiers| && s in tiers[i] && v in tiers[j]
    ensures v in Out(g, s) ==> i < j
    ensures s == v ==> i == j
  {
    assert LongestWalkTo(g, s, i) && LongestWalkTo(g, v, j) && v in g.nodes;
    if s == v {
      LongestWalkIsUnique(g, s, i, j);
    }
    if v in Out(g, s) {
      EdgeLengthensWalk(g, s, v, i, j);
    }
  }

  /** Sorting by declaration index a duplicate-free list of nodes. */
  function SortByDeclaration(g: AgentGroup, xs: seq<Agent>): (r: seq<Agent>)
    requires NoDup(xs)
  {
    Restrict(g.nodes, Elems(xs))
  }

  lemma SortedByDeclaration(g: AgentGroup, xs: seq<Agent>)
    requires IsDict(g) && NoDup(xs) && Elems(xs) <= Elems(g.nodes)
    ensures var r := SortByDeclaration(g, xs);
            NoDup(r) && IsSubsequence(r, g.nodes) && Elems(r) == Elems(xs) && |r| == |xs|
  {
    RestrictInOrder(g.nodes, Elems(xs));
    NoDupCard(xs);
    NoDupCard(SortByDeclaration(g, xs));
    assert Elems(SortByDeclaration(g, xs)) == Elems(xs);
  }

  /** Finish every node of a tier; what that frees has a predecessor in the tier. */
  method ReleaseTier(g: AgentGroup, tier: seq<Agent>, indeg: map<Agent, int>, ghost done: set<Agent>)
    returns (indeg': map<Agent, int>, next: seq<Agent>)
    requires IsDict(g) && Closed(g) && NoDup(tier) && Frontier(g, done, Elems(tier), indeg)
    ensures Frontier(g, done + Elems(tier), Elems(next), indeg') && NoDup(next)
    ensures forall v :: v in next ==> HasPredecessorIn(g, Elems(tier), v)
  {
    indeg', next := indeg, [];
    ghost var gone, left := {}, Elems(tier);
    assert done + gone == done && left + Elems(next) == Elems(tier);
    for j := 0 to |tier|
      invariant gone == Elems(tier[..j]) && left == Elems(tier[j..])
      invariant Frontier(g, done + gone, left + Elems(next), indeg')
      invariant NoDup(next) && Elems(next) !! Elems(tier)
      invariant forall v :: v in next ==> HasPredecessorIn(g, Elems(tier), v)
    {
      TakeOne(tier, j);
      var freed;
      indeg', freed := Release(g, tier[j], indeg', done + gone, left + Elems(next));
      NoDupConcat(next, freed);
      assert done + gone + {tier[j]} == done + (gone + {tier[j]});
      assert left + Elems(next) - {tier[j]} + Elems(freed) == left - {tier[j]} + Elems(next + freed);
      assert Elems(freed) !! Elems(tier);
      next, gone, left := next + freed, gone + {tier[j]}, left - {tier[j]};
    }
    assert tier[..|tier|] == tier;
  }

  lemma TakeOne(tier: seq<Agent>, j: nat)
    requires NoDup(tier) && j < |tier|
    ensures tier[j] in tier[j..]
    ensures Elems(tier[..j + 1]) == Elems(tier[..j]) + {tier[j]}
    ensures Elems(tier[j + 1..]) == Elems(tier[j..]) - {tier[j]}
    ensures Elems(tier) == Elems(tier[..j]) + Elems(tier[j..])
  {
    assert tier[..j + 1] == tier[..j] + [tier[j]];
    NoDupTail(tier[j..]);
    assert tier[j..][1..] == tier[j + 1..];
    assert tier == tier[..j] + tier[j..];
  }

  /** Levels of the finished tiers and of the one that is ready. */
  ghost predicate LevelsMatch(g: AgentGroup, tiers: seq<seq<Agent>>, done: set<Agent>, ready: set<Agent>,
                              level: map<Agent, nat>) {
    && Layered(g, level) && level.Keys == done + ready
    && (forall v :: v in ready ==> level[v] == |tiers|)
    && (forall v :: v in done ==> level[v] < |tiers| && v in tiers[level[v]])
    && (forall t, v :: 0 <= t < |tiers| && v in tiers[t] ==> v in done && level[v] == t)
  }

  lemma RaiseLevels(g: AgentGroup, tiers: seq<seq<Agent>>, done: set<Agent>, tier: seq<Agent>, next: set<Agent>,
                    level: map<Agent, nat>, indeg: map<Agent, int>) returns (level': map<Agent, nat>)
    requires LevelsMatch(g, tiers, done, Elems(tier), level) && done !! Elems(tier)
    requires Frontier(g, done + Elems(tier), next, indeg)
    requires forall v :: v in next ==> HasPredecessorIn(g, Elems(tier), v)
    ensures LevelsMatch(g, tiers + [tier], done + Elems(tier), next, level')
  {
    level' := map v | v in level.Keys + next :: if v in next then |tiers| + 1 else level[v];
    forall v | v in level'
      ensures LevelFits(g, level', v)
    {
      if v in next {
        ReadyHavePredecessorsDone(g, done + Elems(tier), next, indeg, v);
        assert HasPredecessorIn(g, Elems(tier), v);
        var s :| s in Elems(tier) && v in Out(g, s);
        assert s in level' && level'[s] + 1 == level'[v];
      } else {
        assert LevelFits(g, level, v);
      }
    }
  }

  /** The loop state of the tier walk. */
  ghost predicate TierState(g: AgentGroup, tiers: seq<seq<Agent>>, done: set<Agent>, ready: seq<Agent>,
                            level: map<Agent, nat>, indeg: map<Agent, int>) {
    && Frontier(g, done, Elems(ready), indeg)
    && NoDup(ready) && IsSubsequence(ready, g.nodes)
    && AreTiers(g, tiers)
    && LevelsMatch(g, tiers, done, Elems(ready), level)
  }

  method FirstTier(g: AgentGroup) returns (ready: seq<Agent>, indeg: map<Agent, int>, ghost level: map<Agent, nat>)
    requires IsDict(g) && Closed(g)
    ensures TierState(g, [], {}, ready, level, indeg)
  {
    indeg := InDegrees(g);
    ready := SelectZeros(g, indeg);
    FirstFrontier(g, indeg, ready);
    RestrictInOrder(g.nodes, set v | v in indeg && indeg[v] == 0);
    level := map v | v in ready :: 0;
    FirstLevels(g, indeg, ready, level);
  }

  method NextTier(g: AgentGroup, tiers: seq<seq<Agent>>, ghost done: set<Agent>, tier: seq<Agent>,
                  ghost level: map<Agent, nat>, indeg: map<Agent, int>)
    returns (ready: seq<Agent>, indeg': map<Agent, int>, ghost level': map<Agent, nat>)
    requires IsDict(g) && Closed(g) && tier != [] && TierState(g, tiers, done, tier, level, indeg)
    ensures TierState(g, tiers + [tier], done + Elems(tier), ready, level', indeg')
    ensures |done + Elems(tier)| == |done| + |tier| <= |g.nodes|
  {
    NoDupCard(tier);
    assert |done + Elems(tier)| == |done| + |Elems(tier)|;
    NodesBound(g, done + Elems(tier));
    var next;
    indeg', next := ReleaseTier(g, tier, indeg, done);
    level' := RaiseLevels(g, tiers, done, tier, Elems(next), level, indeg');
    AppendTier(g, tiers, tier);
    SortedByDeclaration(g, next);
    ready := SortByDeclaration(g, next);
  }

  /** The tiers exist exactly when the topology has no cycle. */
  method TopologicalTiers(g: AgentGroup) returns (r: Option<seq<seq<Agent>>>)
    requires IsDict(g) && Closed(g)
    ensures r.Some? <==> !Cyclic(g)
    ensures r.Some? ==> IsTiering(g, r.value)
  {
    ghost var done: set<Agent> := {};
    ghost var level: map<Agent, nat>;
    var ready, indeg;
    ready, indeg, level := FirstTier(g);
    var tiers: seq<seq<Agent>>, seen := [], 0;
    while ready != []
      invariant TierState(g, tiers, done, ready, level, indeg) && seen == |done|
      decreases |g.nodes| - seen
    {
      var tier := ready;
      ready, indeg, level := NextTier(g, tiers, done, tier, level, indeg);
      tiers, seen := tiers + [tier], seen + |tier|;
      done := done + Elems(tier);
    }
    assert Elems(ready) == {};
    NodesBound(g, done);
    if seen != |g.nodes| {
      StuckIsCyclic(g, done, indeg);
      return None;
    }
    TieringByLevel(g, tiers, level);
    r := Some(tiers);
  }

  lemma FirstLevels(g: AgentGroup, indeg: map<Agent, int>, ready: seq<Agent>, level: map<Agent, nat>)
    requires Frontier(g, {}, Elems(ready), indeg)
    requires level == map v | v in ready :: 0
    ensures LevelsMatch(g, [], {}, Elems(ready), level)
  {
    forall v | v in level
      ensures LevelFits(g, level, v)
    {
      ReadyHavePredecessorsDone(g, {}, Elems(ready), indeg, v);
    }
  }

  lemma NodesBound(g: AgentGroup, part: set<Agent>)
    requires NoDup(g.nodes) && part <= Elems(g.nodes)
    ensures |part| <= |g.nodes|
    ensures |part| == |g.nodes| <==> part == Elems(g.nodes)
  {
    NoDupCard(g.nodes);
    SubsetCard(part, Elems(g.nodes));
  }

  lemma TieringByLevel(g: AgentGroup, tiers: seq<seq<Agent>>, level: map<Agent, nat>)
    requires LevelsMatch(g, tiers, Elems(g.nodes), {}, level)
    requires AreTiers(g, tiers)
    ensures IsTiering(g, tiers) && !Cyclic(g)
  {
    forall t, v | 0 <= t < |tiers| && v in tiers[t]
      ensures LongestWalkTo(g, v, t)
    {
      LevelIsLongestWalk(g, level, v);
    }
    forall v | v in g.nodes
      ensures InSomeTier(tiers, v)
    {
      assert v in Elems(g.nodes) && v in tiers[level[v]];
    }
    forall a, t | a in g.nodes && t in Out(g, a) && t in g.nodes
      ensures level[a] < level[t]
    {
      assert LevelFits(g, level, t);
    }
    RankedIsAcyclic(g, map v | v in level :: level[v] as int);
  }
}
