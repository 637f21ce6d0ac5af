/** Which nodes a finished walk has skipped, and what running a group returns. */
module GroupRun {
  import opened Wrappers
  import opened Seqs
  import opened Topology
  import opened Kahn
  import opened GroupSpec
  import opened Dispatch
  import opened Confluence
  import opened GroupWalk

  // ------------------------------------------------------------------ skipped nodes

  /** The edge's condition is false of what its upstream produced. */
  ghost predicate ConditionFalse(job: Job, st: Store, p: Pair) {
    && p.0 in st.results
    && FilterSuccesses(st.results[p.0]).Ok?
    && ConditionFires(job.world, p.1, FilterSuccesses(st.results[p.0]).value) == Ok(false)
  }

  /** chain leads to n, each member being the only upstream of the next, and its first edge has a false condition. */
  ghost predicate SkipChain(job: Job, st: Store, chain: seq<Pair>, n: Agent) {
    && chain != []
    && ConditionFalse(job, st, chain[0])
    && (forall i, j :: 0 <= i < |chain| && 0 <= j < |chain| && j == i + 1 ==> Incoming(job.group, chain[j].0) == [chain[i]])
    && Incoming(job.group, n) == [chain[|chain| - 1]]
  }

  lemma SingleInputSkips(w: World, frame: Frame, node: Agent, p: Pair, results: map<Agent, NodeOutput>, skipped: set<Agent>)
    ensures SingleInput(w, frame, node, p.0, p.1, results, skipped) == Skipped <==>
            p.0 in skipped || p.0 !in results ||
            (FilterSuccesses(results[p.0]).Ok? && ConditionFires(w, p.1, FilterSuccesses(results[p.0]).value) == Ok(false))
  {
  }

  /** A node is skipped because of its only incoming edge or not at all. */
  lemma SkippedByOnlyEdge(job: Job, st: Store, n: Agent)
    requires IsDict(job.group) && SolvesAll(WalkOf(job), st) && n in job.group.nodes
    ensures n in st.skipped ==> |Incoming(job.group, n)| == 1
    ensures |Incoming(job.group, n)| == 1 ==>
              var p := Incoming(job.group, n)[0];
              p.0 in job.group.nodes && (n in st.skipped <==> p.0 in st.skipped || ConditionFalse(job, st, p))
  {
    assert n in Elems(job.group.nodes) && Holds(st, n, WalkOf(job).resolve(n, st));
    IncomingMeaning(job.group, n);
    var pairs := Incoming(job.group, n);
    if |pairs| > 1 {
      MultiInputRaisesWhenAllDead(job, FrameOf(job, n), n, st.results, st.skipped);
    } else if |pairs| == 1 {
      assert pairs[0] in pairs && pairs[0].0 in Elems(job.group.nodes);
      SingleInputSkips(job.world, FrameOf(job, n), n, pairs[0], st.results, st.skipped);
    }
  }

  lemma {:induction false} SkippedHasChain(job: Job, rank: map<Agent, nat>, st: Store, n: Agent) returns (chain: seq<Pair>)
    requires IsDict(job.group) && Ranks(job.group, rank) && SolvesAll(WalkOf(job), st) && n in job.group.nodes && n in st.skipped
    ensures SkipChain(job, st, chain, n)
    decreases rank[n]
  {
    SkippedByOnlyEdge(job, st, n);
    IncomingMeaning(job.group, n);
    var p := Incoming(job.group, n)[0];
    assert p in Incoming(job.group, n);
    if ConditionFalse(job, st, p) {
      chain := [p];
    } else {
      assert n in Elems(job.group.nodes) && n in Out(job.group, p.0);
      var rest := SkippedHasChain(job, rank, st, p.0);
      chain := rest + [p];
      ExtendChain(job, st, rest, p, n);
    }
  }

  lemma ExtendChain(job: Job, st: Store, rest: seq<Pair>, p: Pair, n: Agent)
    requires SkipChain(job, st, rest, p.0) && Incoming(job.group, n) == [p]
    ensures SkipChain(job, st, rest + [p], n)
  {
    var chain := rest + [p];
    assert chain[0] == rest[0];
    forall i, j | 0 <= i < |chain| && 0 <= j < |chain| && j == i + 1
      ensures Incoming(job.group, chain[j].0) == [chain[i]]
    {
      if j < |rest| {
        assert chain[i] == rest[i] && chain[j] == rest[j];
      }
    }
  }

  lemma {:induction false} ChainSkips(job: Job, st: Store, chain: seq<Pair>, n: Agent)
    requires IsDict(job.group) && SolvesAll(WalkOf(job), st) && n in job.group.nodes && SkipChain(job, st, chain, n)
    ensures n in st.skipped
  {
    SkippedByOnlyEdge(job, st, n);
    if |chain| > 1 {
      var rest := chain[..|chain| - 1];
      assert Incoming(job.group, chain[|chain| - 1].0) == [rest[|rest| - 1]];
      ChainSkips(job, st, rest, chain[|chain| - 1].0);
    }
  }

  /** After a successful walk a node is skipped if and only if going backwards over only-upstreams meets a false
      condition before an entry node or a node with several incoming edges. */
  lemma SkippedIffChain(job: Job, st: Store, n: Agent)
    requires IsDict(job.group) && !Cyclic(job.group) && SolvesAll(WalkOf(job), st) && n in job.group.nodes
    ensures n in st.skipped <==> exists chain :: SkipChain(job, st, chain, n)
  {
    if n in st.skipped {
      var order := AcyclicHasOrder(job.group);
      var rank := OrderGivesRanks(job.group, order);
      var chain := SkippedHasChain(job, rank, st, n);
    }
    if exists chain :: SkipChain(job, st, chain, n) {
      var chain :| SkipChain(job, st, chain, n);
      ChainSkips(job, st, chain, n);
    }
  }

  // ------------------------------------------------------------------ what a run returns

  /** One terminal result, or the results of several terminals keyed by agent name. */
  datatype GroupOutput = Leaf(result: AgentResult) | Leaves(outputs: map<string, AgentResult>, metadata: Metadata)

  /** The terminals that produced something, in declaration order. */
  function FiredTerminals(g: AgentGroup, st: Store): seq<Agent> {
    Restrict(Terminals(g), st.results.Keys)
  }

  ghost predicate NoBatch(fired: seq<Agent>, st: Store) {
    forall i :: 0 <= i < |fired| ==> fired[i] in st.results && st.results[fired[i]].Single?
  }

  /** The terminal at i is the first that ran as a batch. */
  ghost predicate IsFirstBatch(fired: seq<Agent>, st: Store, i: nat) {
    i < |fired| && NoBatch(fired[..i], st) && fired[i] in st.results && st.results[fired[i]].Batch?
  }

  /** The results keyed by name, later terminals overwriting earlier ones of the same name. */
  ghost function LeavesOf(fired: seq<Agent>, st: Store): map<string, AgentResult>
    requires NoBatch(fired, st)
  {
    if fired == [] then map[]
    else
      var last := fired[|fired| - 1];
      LeavesOf(fired[..|fired| - 1], st)[last.name := st.results[last].result]
  }

  /** The keys are the names of the fired terminals, nothing else. */
  lemma {:induction false} LeafNames(fired: seq<Agent>, st: Store)
    requires NoBatch(fired, st)
    ensures LeavesOf(fired, st).Keys == set t | t in fired :: t.name
  {
    if fired != [] {
      var init := fired[..|fired| - 1];
      LeafNames(init, st);
      assert fired == init + [fired[|fired| - 1]];
    }
  }

  /** A name is bound to the result of the last fired terminal that carries it. */
  lemma {:induction false} LastLeafCounts(fired: seq<Agent>, st: Store, i: nat)
    requires NoBatch(fired, st) && i < |fired|
    requires forall j :: i < j < |fired| ==> fired[j].name != fired[i].name
    ensures fired[i].name in LeavesOf(fired, st)
    ensures LeavesOf(fired, st)[fired[i].name] == st.results[fired[i]].result
  {
    var k := |fired| - 1;
    if i < k {
      LastLeafCounts(fired[..k], st, i);
      assert fired[k].name != fired[i].name;
    }
  }

  /** The sum of f over all results, in any order. */
  ghost function Total(outputs: map<string, AgentResult>, f: AgentResult -> real): real {
    if outputs == map[] then 0.0
    else
      var k :| k in outputs;
      f(outputs[k]) + Total(outputs - {k}, f)
  }

  lemma {:induction false} TotalWithout(outputs: map<string, AgentResult>, k: string, f: AgentResult -> real)
    requires k in outputs
    ensures Total(outputs, f) == f(outputs[k]) + Total(outputs - {k}, f)
    decreases |outputs|
  {
    var j :| j in outputs && Total(outputs, f) == f(outputs[j]) + Total(outputs - {j}, f);
    if j != k {
      TotalWithout(outputs - {j}, k, f);
      TotalWithout(outputs - {k}, j, f);
      assert outputs - {j} - {k} == outputs - {k} - {j};
    }
  }

  function TokensOf(r: AgentResult): real {
    r.metadata.tokensUsed as real
  }

  function CostOf(r: AgentResult): real {
    r.metadata.cost
  }

  /** Tokens and cost are sums over the leaves, the duration is the longest, 0 without leaves. */
  ghost predicate IsAggregate(m: Metadata, outputs: map<string, AgentResult>) {
    && m.tokensUsed as real == Total(outputs, TokensOf)
    && m.cost == Total(outputs, CostOf)
    && (forall k :: k in outputs ==> outputs[k].metadata.durationMs <= m.durationMs)
    && (if outputs == map[] then m.durationMs == 0 else exists k :: k in outputs && outputs[k].metadata.durationMs == m.durationMs)
  }

  lemma AggregateOneMore(m: Metadata, seen: map<string, AgentResult>, k: string, r: AgentResult)
    requires k !in seen && IsAggregate(m, seen)
    ensures IsAggregate(Metadata(if seen == map[] || m.durationMs < r.metadata.durationMs then r.metadata.durationMs
                                 else m.durationMs,
                                 m.tokensUsed + r.metadata.tokensUsed, m.cost + r.metadata.cost), seen[k := r])
  {
    var more := seen[k := r];
    TotalWithout(more, k, TokensOf);
    TotalWithout(more, k, CostOf);
    assert more - {k} == seen;
    if seen != map[] && m.durationMs >= r.metadata.durationMs {
      var j :| j in seen && seen[j].metadata.durationMs == m.durationMs;
      assert more[j] == seen[j];
    } else {
      assert more[k] == r;
    }
  }

  method AggregateMetadata(outputs: map<string, AgentResult>) returns (m: Metadata)
    ensures IsAggregate(m, outputs)
  {
    var left := outputs.Keys;
    ghost var seen: map<string, AgentResult> := map[];
    m := Metadata(0, 0, 0.0);
    var first := true;
    while left != {}
      invariant left <= outputs.Keys && seen == (map k | k in outputs.Keys - left :: outputs[k])
      invariant first <==> seen == map[]
      invariant IsAggregate(m, seen)
      decreases |left|
    {
      var k :| k in left;
      var r := outputs[k];
      AggregateOneMore(m, seen, k, r);
      var longest := if first || m.durationMs < r.metadata.durationMs then r.metadata.durationMs else m.durationMs;
      m := Metadata(longest, m.tokensUsed + r.metadata.tokensUsed, m.cost + r.metadata.cost);
      seen, left, first := seen[k := r], left - {k}, false;
    }
    assert seen == outputs;
  }

  ghost predicate ConcludesLeaves(leaves: map<string, AgentResult>, r: Result<GroupOutput, WalkError>) {
    r.Ok? && r.value.Leaves? && r.value.outputs == leaves && IsAggregate(r.value.metadata, leaves)
  }

  /** How many terminals fired decides the shape of the result; a terminal that ran as a batch is an error, which names the
      first one. */
  ghost predicate Concludes(g: AgentGroup, st: Store, r: Result<GroupOutput, WalkError>) {
    var fired := FiredTerminals(g, st);
    if fired == [] then r == Err(NoTerminalResult)
    else if !NoBatch(fired, st) then
      exists i: nat :: IsFirstBatch(fired, st, i) && r == Err(TerminalIsFanOut(fired[i].name))
    else if |fired| == 1 then r == Ok(Leaf(st.results[fired[0]].result))
    else ConcludesLeaves(LeavesOf(fired, st), r)
  }

  method Conclude(g: AgentGroup, st: Store) returns (r: Result<GroupOutput, WalkError>)
    ensures Concludes(g, st, r)
  {
    var fired := FiredTerminals(g, st);
    assert forall i :: 0 <= i < |fired| ==> fired[i] in fired;
    if fired == [] {
      return Err(NoTerminalResult);
    }
    if |fired| == 1 {
      match st.results[fired[0]] {
        case Batch(_) =>
          assert IsFirstBatch(fired, st, 0);
          return Err(TerminalIsFanOut(fired[0].name));
        case Single(result) => return Ok(Leaf(result));
      }
    }
    r := KeyLeaves(fired, st);
  }

  method KeyLeaves(fired: seq<Agent>, st: Store) returns (r: Result<GroupOutput, WalkError>)
    requires forall i :: 0 <= i < |fired| ==> fired[i] in st.results
    ensures if NoBatch(fired, st) then ConcludesLeaves(LeavesOf(fired, st), r)
            else exists i: nat :: IsFirstBatch(fired, st, i) && r == Err(TerminalIsFanOut(fired[i].name))
  {
    var outputs: map<string, AgentResult> := map[];
    for i := 0 to |fired|
      invariant NoBatch(fired[..i], st) && outputs == LeavesOf(fired[..i], st)
    {
      if st.results[fired[i]].Batch? {
        assert IsFirstBatch(fired, st, i);
        return Err(TerminalIsFanOut(fired[i].name));
      }
      assert fired[..i + 1][..i] == fired[..i];
      outputs := outputs[fired[i].name := st.results[fired[i]].result];
    }
    assert fired[..|fired|] == fired;
    var metadata := AggregateMetadata(outputs);
    r := Ok(Leaves(outputs, metadata));
  }

  /** Running an accepted group: an error that some node raises, or what the unique store that settles all nodes
      concludes to. */
  method RunGroup(job: Job) returns (r: Result<GroupOutput, WalkError>)
    requires IsDict(job.group) && Accepted(job.world.classes, job.group)
    ensures !Solvable(WalkOf(job)) ==> r.Err? && IsFailure(WalkOf(job), r.error)
    ensures Solvable(WalkOf(job)) ==> exists st :: SolvesAll(WalkOf(job), st) && Concludes(job.group, st, r)
  {
    ghost var log;
    var walked;
    walked, log := WalkTiers(job);
    if walked.Err? {
      return Err(walked.error);
    }
    r := Conclude(job.group, walked.value);
  }
}
