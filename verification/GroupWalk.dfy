/** Walking a group tier by tier, and why the interleaving inside a tier does not matter. */
module GroupWalk {
  import opened Wrappers
  import opened Seqs
  import opened Topology
  import opened Kahn
  import opened Tiers
  import opened GroupSpec
  import opened Dispatch
  import opened Confluence

  ghost predicate OnlyEntry(g: AgentGroup, e: Agent) {
    IsEntry(g, e) && forall a :: IsEntry(g, a) ==> a == e
  }

  /** Behind a single entry node, unless the caller has a frame, dispatches run under the entry's frame. */
  ghost function FrameOf(job: Job, node: Agent): Frame {
    if !job.outerFrame && !IsEntry(job.group, node) && exists e :: OnlyEntry(job.group, e) then
      var e :| OnlyEntry(job.group, e);
      EntryFrame(e)
    else CallersFrame
  }

  ghost function ResolveIn(job: Job, node: Agent, st: Store): Outcome {
    Resolve(job, FrameOf(job, node), node, st.results, st.skipped)
  }

  /** The walk resolves the nodes of the job's group the way the job does. */
  ghost predicate Models(w: Walk, job: Job) {
    w.group == job.group && forall v, st {:trigger w.resolve(v, st)} :: w.resolve(v, st) == ResolveIn(job, v, st)
  }

  ghost function WalkOf(job: Job): (w: Walk)
    ensures Models(w, job)
  {
    Walk(job.group, (v: Agent, st: Store) => ResolveIn(job, v, st))
  }

  lemma JobsAreLocal(w: Walk, job: Job)
    requires Models(w, job)
    ensures Local(w)
  {
    forall v, st1, st2 | AgreeAbove(w, st1, st2, v)
      ensures w.resolve(v, st1) == w.resolve(v, st2)
    {
      ResolveIsLocal(job, FrameOf(job, v), v, st1.results, st1.skipped, st2.results, st2.skipped);
    }
  }

  // ------------------------------------------------------------------ the walk in tiers

  /** The order in which concurrent siblings complete: any order at all. */
  method CompletionOrder(tier: seq<Agent>) returns (order: seq<Agent>)
    requires NoDup(tier)
    ensures NoDup(order) && Elems(order) == Elems(tier)
  {
    var pending := Elems(tier);
    order := [];
    while pending != {}
      invariant NoDup(order) && pending !! Elems(order) && pending + Elems(order) == Elems(tier)
      decreases |pending|
    {
      var n :| n in pending;
      NoDupConcat(order, [n]);
      pending, order := pending - {n}, order + [n];
    }
  }

  function InTierOrder(tier: seq<Agent>, outputs: map<Agent, Outcome>): (r: seq<Outcome>)
    requires Elems(tier) <= outputs.Keys
    ensures |r| == |tier| && forall i :: 0 <= i < |r| ==> tier[i] in outputs && r[i] == outputs[tier[i]]
  {
    if tier == [] then []
    else
      assert tier[0] in Elems(tier) && Elems(tier[1..]) <= Elems(tier);
      [outputs[tier[0]]] + InTierOrder(tier[1..], outputs)
  }

  /** Every sibling's outcome, in tier order, under an arbitrary completion order; the first sibling to complete
      with an error aborts the rest. */
  method DispatchTierParallel(job: Job, frame: Frame, incoming: map<Agent, seq<Pair>>, tier: seq<Agent>, st: Store)
    returns (r: Result<seq<Outcome>, WalkError>, ghost completed: seq<Agent>)
    requires forall n :: Lookup(incoming, n) == Incoming(job.group, n)
    requires NoDup(tier)
    ensures NoDup(completed) && Elems(completed) <= Elems(tier)
    ensures r.Ok? ==> Elems(completed) == Elems(tier) && |r.value| == |tier|
    ensures r.Ok? ==> forall i :: 0 <= i < |tier| ==>
                        r.value[i] == Resolve(job, frame, tier[i], st.results, st.skipped) && !r.value[i].Raised?
    ensures r.Err? ==> completed != [] &&
                       Resolve(job, frame, completed[|completed| - 1], st.results, st.skipped) == Raised(r.error)
  {
    var order := CompletionOrder(tier);
    var outputs: map<Agent, Outcome> := map[];
    for i := 0 to |order|
      invariant outputs.Keys == Elems(order[..i])
      invariant forall n :: n in outputs ==>
                  outputs[n] == Resolve(job, frame, n, st.results, st.skipped) && !outputs[n].Raised?
    {
      var o := ResolveNode(job, frame, order[i], incoming, st.results, st.skipped);
      SplitAt(order, i);
      if o.Raised? {
        assert Elems(order[..i + 1]) <= Elems(order);
        return Err(o.error), order[..i + 1];
      }
      outputs := outputs[order[i] := o];
    }
    assert order[..|order|] == order;
    r, completed := Ok(InTierOrder(tier, outputs)), order;
  }

  lemma ExtendLog(g: AgentGroup, log: seq<Agent>, more: seq<Agent>)
    requires IsTopologicalPrefix(g, log) && NoDup(log) && NoDup(more) && Elems(more) !! Elems(log)
    requires forall v {:trigger PredecessorsIn(g, Elems(log), v)} :: v in more ==> PredecessorsIn(g, Elems(log), v)
    ensures NoDup(log + more) && IsTopologicalPrefix(g, log + more)
  {
    NoDupConcat(log, more);
    forall i | 0 <= i < |log + more|
      ensures PredecessorsIn(g, Elems((log + more)[..i]), (log + more)[i])
    {
      if i < |log| {
        assert (log + more)[..i] == log[..i];
      } else {
        assert (log + more)[i] == more[i - |log|] && more[i - |log|] in more;
        assert PredecessorsIn(g, Elems(log), (log + more)[i]);
        assert (log + more)[..i] == log + more[..i - |log|];
      }
    }
  }

  lemma ExtendLogByTier(job: Job, log: seq<Agent>, tier: seq<Agent>, completed: seq<Agent>)
    requires IsTopologicalPrefix(job.group, log) && NoDup(log) && TierReady(job.group, tier, Elems(log))
    requires NoDup(completed) && Elems(completed) <= Elems(tier)
    ensures NoDup(log + completed) && IsTopologicalPrefix(job.group, log + completed)
    ensures Elems(log + completed) == Elems(log) + Elems(completed)
  {
    forall v | v in completed
      ensures PredecessorsIn(job.group, Elems(log), v)
    {
      assert v in Elems(completed) && v in tier;
    }
    ExtendLog(job.group, log, completed);
  }

  /** The nodes settled after t tiers. */
  ghost predicate SettledTiers(tiers: seq<seq<Agent>>, t: nat, done: set<Agent>)
    requires t <= |tiers|
  {
    forall v :: v in done <==> exists i :: 0 <= i < t && v in tiers[i]
  }

  lemma NextTierReady(job: Job, tiers: seq<seq<Agent>>, t: nat, done: set<Agent>)
    requires IsTiering(job.group, tiers) && t < |tiers| && SettledTiers(tiers, t, done)
    ensures TierReady(job.group, tiers[t], done)
  {
    var g := job.group;
    assert IsTier(g, tiers[t]);
    forall v | v in tiers[t]
      ensures v !in done && v in g.nodes && PredecessorsIn(g, done, v)
    {
      assert v in g.nodes && LongestWalkTo(g, v, t);
      if v in done {
        var i :| 0 <= i < t && v in tiers[i];
        EdgesClimbTiers(g, tiers, v, v, i, t);
      }
      forall s | s in g.nodes && v in Out(g, s)
        ensures s in done
      {
        assert InSomeTier(tiers, s);
        var i :| 0 <= i < |tiers| && s in tiers[i];
        EdgesClimbTiers(g, tiers, s, v, i, t);
      }
    }
  }

  lemma TiersGiveRanks(g: AgentGroup, tiers: seq<seq<Agent>>) returns (rank: map<Agent, nat>)
    requires IsTiering(g, tiers)
    ensures Ranks(g, rank)
  {
    forall v | v in Elems(g.nodes)
      ensures InSomeTier(tiers, v)
    {
      assert v in g.nodes;
    }
    rank := map v | v in Elems(g.nodes) :: TierOf(tiers, v);
    forall a, t | a in g.nodes && t in Out(g, a) && t in g.nodes
      ensures rank[a] < rank[t]
    {
      assert InSomeTier(tiers, a) && InSomeTier(tiers, t);
      EdgesClimbTiers(g, tiers, a, t, rank[a], rank[t]);
    }
  }

  ghost function TierOf(tiers: seq<seq<Agent>>, v: Agent): (t: nat)
    requires InSomeTier(tiers, v)
    ensures t < |tiers| && v in tiers[t]
  {
    var t :| 0 <= t < |tiers| && v in tiers[t];
    t
  }

  lemma EntriesAreOnLevelZero(g: AgentGroup, tiers: seq<seq<Agent>>, v: Agent, t: nat)
    requires IsTiering(g, tiers) && t < |tiers| && v in tiers[t]
    ensures IsEntry(g, v) <==> t == 0
  {
    assert v in g.nodes && LongestWalkTo(g, v, t);
    if t == 0 {
      forall s | s in g.nodes
        ensures v !in Out(g, s)
      {
        assert InSomeTier(tiers, s);
        if v in Out(g, s) {
          EdgesClimbTiers(g, tiers, s, v, TierOf(tiers, s), t);
        }
      }
    } else {
      var p :| IsWalk(g, p) && p[|p| - 1] == v && |p| == t + 1;
      assert p[|p| - 2] in g.nodes && v in Out(g, p[|p| - 2]);
    }
  }

  /** The frame the tier loop installs is the frame of each of the tier's nodes. */
  lemma TierFrame(job: Job, tiers: seq<seq<Agent>>, t: nat, frame: Frame, v: Agent)
    requires IsTiering(job.group, tiers) && t < |tiers| && v in tiers[t]
    requires frame == if t > 0 && |tiers[0]| == 1 && !job.outerFrame then EntryFrame(tiers[0][0]) else CallersFrame
    ensures frame == FrameOf(job, v)
  {
    var g := job.group;
    EntriesAreOnLevelZero(g, tiers, v, t);
    assert IsTier(g, tiers[0]);
    forall a | IsEntry(g, a)
      ensures a in tiers[0]
    {
      assert InSomeTier(tiers, a);
      EntriesAreOnLevelZero(g, tiers, a, TierOf(tiers, a));
    }
    forall a | a in tiers[0]
      ensures IsEntry(g, a)
    {
      EntriesAreOnLevelZero(g, tiers, a, 0);
    }
    if |tiers[0]| == 1 {
      assert tiers[0][0] in tiers[0] && OnlyEntry(g, tiers[0][0]);
    } else {
      assert tiers[0][0] in tiers[0] && tiers[0][1] in tiers[0];
    }
  }

  /** The tier walk, under every interleaving inside its tiers. It succeeds exactly when some store settles all
      nodes, and then ends with that store; it resolves every node once, after its upstreams; and any walk of one
      node at a time gives the same. */
  method WalkTiers(job: Job) returns (r: Result<Store, WalkError>, ghost log: seq<Agent>)
    requires IsDict(job.group) && Accepted(job.world.classes, job.group)
    ensures NoDup(log) && IsTopologicalPrefix(job.group, log)
    ensures r.Ok? ==> IsTopologicalOrder(job.group, log)
    ensures Decides(WalkOf(job), r)
    ensures forall order :: IsTopologicalOrder(job.group, order) ==> SameResult(r, WalkInOrder(WalkOf(job), order))
  {
    ghost var w := WalkOf(job);
    JobsAreLocal(w, job);
    ghost var rank: map<Agent, nat>;
    r, log, rank := WalkTiersRanked(job, w);
    AgreesWithEveryOrder(w, rank, r);
  }

  method WalkTiersRanked(job: Job, ghost w: Walk)
    returns (r: Result<Store, WalkError>, ghost log: seq<Agent>, ghost rank: map<Agent, nat>)
    requires IsDict(job.group) && Accepted(job.world.classes, job.group) && Models(w, job) && Local(w)
    ensures Ranks(job.group, rank)
    ensures NoDup(log) && IsTopologicalPrefix(job.group, log)
    ensures r.Ok? ==> IsTopologicalOrder(job.group, log)
    ensures Decides(w, r)
  {
    var tiering := TopologicalTiers(job.group);
    var tiers := tiering.value;
    rank := TiersGiveRanks(job.group, tiers);
    var incoming := IncomingEdges(job.group);
    var st := EmptyStore;
    log := [];
    EmptySolution(w);
    assert Elems(log) == {};
    for t := 0 to |tiers|
      invariant NoDup(log) && IsTopologicalPrefix(job.group, log)
      invariant SettledTiers(tiers, t, Elems(log)) && Solves(w, Elems(log), st)
    {
      ghost var done := Elems(log);
      NextTierReady(job, tiers, t, done);
      var frame := if t > 0 && |tiers[0]| == 1 && !job.outerFrame then EntryFrame(tiers[0][0]) else CallersFrame;
      TierFrameFits(job, w, tiers, t, frame, st);
      ghost var completed;
      var committed;
      committed, completed := WalkOneTier(job, w, frame, incoming, tiers[t], st, done, rank);
      ExtendLogByTier(job, log, tiers[t], completed);
      log := log + completed;
      if committed.Err? {
        return Err(committed.error), log, rank;
      }
      st := committed.value;
      assert Elems(log) == done + Elems(tiers[t]);
      SettleOneMore(tiers, t, done);
    }
    AllSettled(job, tiers, Elems(log));
    r := Ok(st);
  }

  lemma SettleOneMore(tiers: seq<seq<Agent>>, t: nat, done: set<Agent>)
    requires t < |tiers| && SettledTiers(tiers, t, done)
    ensures SettledTiers(tiers, t + 1, done + Elems(tiers[t]))
  {
  }

  lemma AllSettled(job: Job, tiers: seq<seq<Agent>>, done: set<Agent>)
    requires IsTiering(job.group, tiers) && SettledTiers(tiers, |tiers|, done)
    ensures done == Elems(job.group.nodes)
  {
    forall v | v in job.group.nodes
      ensures v in done
    {
      assert InSomeTier(tiers, v);
    }
  }

  /** What each of the tier's nodes resolves to under the frame is what it resolves to in the walk. */
  ghost predicate FrameFits(job: Job, w: Walk, tier: seq<Agent>, frame: Frame, st: Store) {
    forall v :: v in tier ==> Resolve(job, frame, v, st.results, st.skipped) == w.resolve(v, st)
  }

  lemma TierFrameFits(job: Job, w: Walk, tiers: seq<seq<Agent>>, t: nat, frame: Frame, st: Store)
    requires IsDict(job.group) && IsTiering(job.group, tiers) && t < |tiers| && Models(w, job)
    requires frame == if t > 0 && |tiers[0]| == 1 && !job.outerFrame then EntryFrame(tiers[0][0]) else CallersFrame
    ensures FrameFits(job, w, tiers[t], frame, st)
  {
    forall v | v in tiers[t]
      ensures Resolve(job, frame, v, st.results, st.skipped) == w.resolve(v, st)
    {
      TierFrame(job, tiers, t, frame, v);
    }
  }

  /** The outcomes of a tier, of one node alone or of several run concurrently. */
  method ResolveTier(job: Job, ghost w: Walk, frame: Frame, incoming: map<Agent, seq<Pair>>, tier: seq<Agent>, st: Store)
    returns (r: Result<seq<Outcome>, WalkError>, ghost completed: seq<Agent>)
    requires forall n :: Lookup(incoming, n) == Incoming(job.group, n)
    requires NoDup(tier) && FrameFits(job, w, tier, frame, st)
    ensures NoDup(completed) && Elems(completed) <= Elems(tier)
    ensures r.Ok? ==> Elems(completed) == Elems(tier) && |r.value| == |tier|
    ensures r.Ok? ==> forall i :: 0 <= i < |tier| ==> r.value[i] == w.resolve(tier[i], st) && !r.value[i].Raised?
    ensures r.Err? ==> completed != [] && completed[|completed| - 1] in tier &&
                       w.resolve(completed[|completed| - 1], st) == Raised(r.error)
  {
    if |tier| == 1 {
      var o := ResolveNode(job, frame, tier[0], incoming, st.results, st.skipped);
      completed := [tier[0]];
      assert tier == completed && tier[0] in tier;
      r := if o.Raised? then Err(o.error) else Ok([o]);
    } else {
      r, completed := DispatchTierParallel(job, frame, incoming, tier, st);
      assert forall i :: 0 <= i < |tier| ==> tier[i] in tier;
      assert forall i :: 0 <= i < |completed| ==> completed[i] in Elems(completed);
    }
  }

  /** One tier: its nodes are resolved from the earlier tiers' store and stored afterwards. */
  method WalkOneTier(job: Job, ghost w: Walk, frame: Frame, incoming: map<Agent, seq<Pair>>, tier: seq<Agent>, st: Store,
                     ghost done: set<Agent>, ghost rank: map<Agent, nat>)
    returns (r: Result<Store, WalkError>, ghost completed: seq<Agent>)
    requires IsDict(w.group) && Local(w) && w.group == job.group && Ranks(w.group, rank)
    requires forall n :: Lookup(incoming, n) == Incoming(job.group, n)
    requires Solves(w, done, st) && TierReady(w.group, tier, done) && FrameFits(job, w, tier, frame, st)
    ensures NoDup(completed) && Elems(completed) <= Elems(tier)
    ensures r.Ok? ==> Elems(completed) == Elems(tier) && Solves(w, done + Elems(tier), r.value)
    ensures r.Err? ==> !Solvable(w) && IsFailure(w, r.error)
  {
    var outcomes;
    outcomes, completed := ResolveTier(job, w, frame, incoming, tier, st);
    if outcomes.Err? {
      TierRaises(w, rank, done, st, tier, completed[|completed| - 1], outcomes.error);
      return Err(outcomes.error), completed;
    }
    var st' := CommitTier(w, tier, outcomes.value, st, done);
    r := Ok(st');
  }
}
