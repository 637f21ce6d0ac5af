/** A group that construction accepts and that no walk completes: both edges into its last node come from skipped nodes. */
module SkippedDiamond {
  import opened Wrappers
  import opened Topology
  import opened Kahn
  import opened Routing
  import opened GroupSpec
  import opened Dispatch
  import opened Confluence
  import opened GroupWalk

  const Top := Agent("top", None, NoField, 0)
  const Left := Agent("left", None, NoField, 0)
  const Right := Agent("right", None, NoField, 0)
  const Bottom := Agent("bottom", None, NoField, 0)

  /** Both conditions carry the name 0. */
  const ToLeft := Edge([Left], None, 1, Some(0))
  const ToRight := Edge([Right], None, 1, Some(0))
  const Joining := Edge([Bottom], Some(0), 1, None)
  const Plain := Edge([Bottom], None, 1, None)

  const Nodes := [Top, Left, Right, Bottom]

  const Group := AgentGroup("diamond", Nodes,
                            map[Top := [ToLeft, ToRight], Left := [Joining], Right := [Plain], Bottom := []])

  lemma Targeting()
    ensures Out(Group, Top) == [Left, Right] && Out(Group, Left) == [Bottom]
    ensures Out(Group, Right) == [Bottom] && Out(Group, Bottom) == []
  {
    assert [ToLeft, ToRight][1..] == [ToRight];
    assert Targets([ToRight]) == [Right] && Targets([Joining]) == [Bottom] && Targets([Plain]) == [Bottom];
  }

  lemma DiamondIsDict()
    ensures IsDict(Group) && Closed(Group)
  {
    Targeting();
    assert Top in Nodes && Left in Nodes && Right in Nodes && Bottom in Nodes by {
      assert Nodes[0] == Top && Nodes[1] == Left && Nodes[2] == Right && Nodes[3] == Bottom;
    }
  }

  const Height: map<Agent, int> := map[Top := 0, Left := 1, Right := 1, Bottom := 2]

  lemma DiamondClimbs()
    ensures Ranked(Group, Height)
  {
    DiamondIsDict();
    Targeting();
  }

  lemma DiamondIsAccepted(h: Hierarchy)
    ensures IsDict(Group) && Accepted(h, Group)
  {
    DiamondIsDict();
    DiamondClimbs();
    RankedIsAcyclic(Group, Height);
  }

  lemma InOrder()
    ensures IsTopologicalOrder(Group, Nodes)
  {
    DiamondIsDict();
    Targeting();
  }

  lemma PairsOfOne(source: Agent, edge: Edge, target: Agent, node: Agent)
    requires edge.to == [target]
    ensures PairsFrom(source, [edge], 1, node) == if node == target then [(source, edge)] else []
  {
    assert PairsAlong(source, edge, 1, node) == if node == target then [(source, edge)] else [];
  }

  lemma PairsOfTop(node: Agent)
    ensures PairsFrom(Top, [ToLeft, ToRight], 2, node) ==
            (if node == Left then [(Top, ToLeft)] else []) + (if node == Right then [(Top, ToRight)] else [])
  {
    assert PairsAlong(Top, ToLeft, 1, node) == if node == Left then [(Top, ToLeft)] else [];
    assert PairsAlong(Top, ToRight, 1, node) == if node == Right then [(Top, ToRight)] else [];
    assert PairsFrom(Top, [ToLeft, ToRight], 1, node) == if node == Left then [(Top, ToLeft)] else [];
  }

  lemma OneMoreNode(g: AgentGroup, n: nat, source: Agent, edges: seq<Edge>, node: Agent)
    requires n < |g.nodes| && g.nodes[n] == source && EdgesOf(g, source) == edges
    ensures PairsInto(g, n + 1, node) == PairsInto(g, n, node) + PairsFrom(source, edges, |edges|, node)
  {
  }

  lemma EdgesAre()
    ensures Nodes[0] == Top && Nodes[1] == Left && Nodes[2] == Right && Nodes[3] == Bottom
    ensures EdgesOf(Group, Top) == [ToLeft, ToRight] && EdgesOf(Group, Left) == [Joining]
    ensures EdgesOf(Group, Right) == [Plain] && EdgesOf(Group, Bottom) == []
  {
  }

  lemma Pairs(node: Agent)
    ensures Incoming(Group, node) == PairsFrom(Top, [ToLeft, ToRight], 2, node) + PairsFrom(Left, [Joining], 1, node)
                                     + PairsFrom(Right, [Plain], 1, node)
  {
    EdgesAre();
    OneMoreNode(Group, 0, Top, [ToLeft, ToRight], node);
    OneMoreNode(Group, 1, Left, [Joining], node);
    OneMoreNode(Group, 2, Right, [Plain], node);
    OneMoreNode(Group, 3, Bottom, [], node);
  }

  lemma AllPairs(node: Agent)
    ensures Incoming(Group, node) ==
            (if node == Left then [(Top, ToLeft)] else []) + (if node == Right then [(Top, ToRight)] else [])
            + (if node == Bottom then [(Left, Joining)] else []) + (if node == Bottom then [(Right, Plain)] else [])
  {
    Pairs(node);
    PairsOfTop(node);
    PairsOfOne(Left, Joining, Bottom, node);
    PairsOfOne(Right, Plain, Bottom, node);
  }

  lemma WhoLeadsWhere()
    ensures Incoming(Group, Top) == [] && Incoming(Group, Left) == [(Top, ToLeft)]
    ensures Incoming(Group, Right) == [(Top, ToRight)]
    ensures Incoming(Group, Bottom) == [(Left, Joining), (Right, Plain)]
  {
    AllPairs(Top);
    AllPairs(Left);
    AllPairs(Right);
    AllPairs(Bottom);
  }

  // ------------------------------------------------------------------ the walk

  /** The job's conditions named 0 are false of everything, and its first node succeeds. */
  ghost predicate ConditionsFalse(job: Job) {
    && job.group == Group
    && (forall typed :: job.world.condition(0, typed) == Some(false))
    && job.world.run(CallersFrame, Top, job.task).Ok?
    && job.world.run(CallersFrame, Top, job.task).value.IsOk()
  }

  lemma TopRuns(job: Job, st: Store)
    requires ConditionsFalse(job)
    ensures ResolveIn(job, Top, st) == Produced(Single(job.world.run(CallersFrame, Top, job.task).value))
  {
    WhoLeadsWhere();
    EdgesAre();
    IncomingMeaning(Group, Top);
  }

  lemma SideIsSkipped(job: Job, st: Store, node: Agent)
    requires ConditionsFalse(job) && (node == Left || node == Right)
    requires Top in st.results && Top !in st.skipped && st.results[Top].Single? && st.results[Top].result.IsOk()
    ensures ResolveIn(job, node, st) == Skipped
  {
    WhoLeadsWhere();
  }

  lemma BottomRaises(job: Job, st: Store)
    requires ConditionsFalse(job) && Left in st.skipped && Right in st.skipped
    ensures ResolveIn(job, Bottom, st) == Raised(AllAgentsFailed)
  {
    WhoLeadsWhere();
    MultiInputRaisesWhenAllDead(job, FrameOf(job, Bottom), Bottom, st.results, st.skipped);
    assert Mappers([(Left, Joining), (Right, Plain)][..1]) == [Joining];
  }

  lemma WalkOneStep(w: Walk, order: seq<Agent>, i: nat, st: Store, o: Outcome)
    requires i < |order| && w.resolve(order[i], st) == o
    ensures WalkFrom(w, order, i, st) == match o
                                         case Raised(e) => Err(e)
                                         case _ => WalkFrom(w, order, i + 1, Commit(st, order[i], o))
  {
  }

  lemma InSequence(job: Job)
    requires ConditionsFalse(job)
    ensures WalkInOrder(WalkOf(job), Nodes) == Err(AllAgentsFailed)
  {
    var w := WalkOf(job);
    var top := Produced(Single(job.world.run(CallersFrame, Top, job.task).value));
    var st1 := Commit(EmptyStore, Top, top);
    var st2 := Commit(st1, Left, Skipped);
    var st3 := Commit(st2, Right, Skipped);
    TopRuns(job, EmptyStore);
    SideIsSkipped(job, st1, Left);
    SideIsSkipped(job, st2, Right);
    BottomRaises(job, st3);
    WalkOneStep(w, Nodes, 0, EmptyStore, top);
    WalkOneStep(w, Nodes, 1, st1, Skipped);
    WalkOneStep(w, Nodes, 2, st2, Skipped);
    WalkOneStep(w, Nodes, 3, st3, Raised(AllAgentsFailed));
  }

  /** Although the last node depends on skipped edges only, it is not skipped: every walk fails, and one node at a time the
      failure is AllAgentsFailed. */
  lemma DiamondRaises(job: Job)
    requires ConditionsFalse(job)
    ensures IsDict(Group) && Accepted(job.world.classes, Group)
    ensures WalkInOrder(WalkOf(job), Nodes) == Err(AllAgentsFailed)
    ensures !Solvable(WalkOf(job))
  {
    DiamondIsAccepted(job.world.classes);
    InOrder();
    InSequence(job);
    JobsAreLocal(WalkOf(job), job);
    var rank := OrderGivesRanks(Group, Nodes);
    WalkInOrderDecides(WalkOf(job), rank, Nodes);
  }
}
