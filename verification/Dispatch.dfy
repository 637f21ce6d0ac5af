/** How one node of a group is resolved from what its upstreams produced. */
module Dispatch {
  import opened Wrappers
  import opened Topology
  import opened Routing
  import opened GroupSpec

  /** `rest` stands for the task's identifiers and metadata. */
  datatype TaskSpec = TaskSpec(input: string, rest: nat)

  datatype Metadata = Metadata(durationMs: int, tokensUsed: int, cost: real)

  datatype AgentResult = AgentResult(output: Option<Model>, error: Option<string>, metadata: Metadata) {
    predicate IsOk() {
      error.None? && output.Some?
    }
  }

  datatype NodeOutput = Single(result: AgentResult) | Batch(results: seq<AgentResult>)

  datatype Typed = One(model: Model) | Many(models: seq<Model>)

  datatype MapperInput = FromUpstream(typed: Typed) | FromAll(contributions: map<string, Typed>)

  datatype MapperOutput = ToOne(task: TaskSpec) | ToMany(tasks: seq<TaskSpec>) | ToSomethingElse

  datatype WalkError =
    | AllAgentsFailed
    | ConditionRaised
    | MapperRaised(exception: nat)
    | MapperReturnedNoTask
    | NoAggregatingMapper
    | SeveralAggregatingMappers
    | FanOutCrossProduct
    | UnexpectedItem
    | MalformedOutputType
    | NoTerminalResult
    | TerminalIsFanOut(terminal: string)
    | RuntimeRaised(exception: nat)

  datatype Outcome = Produced(output: NodeOutput) | Skipped | Raised(error: WalkError)

  /** The spawn frame a dispatch runs under: the caller's, or one naming the only entry node. */
  datatype Frame = CallersFrame | EntryFrame(entry: Agent)

  /** What user code and the runtime compute, as functions of their inputs. */
  datatype World = World(
    classes: Hierarchy,
    run: (Frame, Agent, TaskSpec) -> Result<AgentResult, WalkError>,
    gather: (Frame, Agent, seq<TaskSpec>, nat) -> Result<seq<AgentResult>, WalkError>,
    condition: (nat, Typed) -> Option<bool>,
    mapper: (nat, MapperInput) -> Result<MapperOutput, nat>,
    serialise: Model -> TaskSpec)

  /** One walk of a group: the world, the group, the input, and whether the caller already has a frame. */
  datatype Job = Job(world: World, group: AgentGroup, task: TaskSpec, outerFrame: bool)

  type Pair = (Agent, Edge)

  // ------------------------------------------------------------------ incoming edges

  /** The edge once for every occurrence of node among its first n targets. */
  function PairsAlong(source: Agent, edge: Edge, n: nat, node: Agent): seq<Pair>
    requires n <= |edge.to|
  {
    if n == 0 then []
    else PairsAlong(source, edge, n - 1, node) + (if edge.to[n - 1] == node then [(source, edge)] else [])
  }

  function PairsFrom(source: Agent, edges: seq<Edge>, n: nat, node: Agent): seq<Pair>
    requires n <= |edges|
  {
    if n == 0 then []
    else PairsFrom(source, edges, n - 1, node) + PairsAlong(source, edges[n - 1], |edges[n - 1].to|, node)
  }

  function PairsInto(g: AgentGroup, n: nat, node: Agent): (r: seq<Pair>)
    requires n <= |g.nodes|
    ensures |r| > 0 <==> Targeted(g, n, node)
  {
    if n == 0 then []
    else
      PairsFromNode(g, n - 1, node);
      var edges := EdgesOf(g, g.nodes[n - 1]);
      PairsInto(g, n - 1, node) + PairsFrom(g.nodes[n - 1], edges, |edges|, node)
  }

  /** All (upstream, edge) pairs into a node, in declaration order. */
  function Incoming(g: AgentGroup, node: Agent): seq<Pair> {
    PairsInto(g, |g.nodes|, node)
  }

  function Lookup(incoming: map<Agent, seq<Pair>>, node: Agent): seq<Pair> {
    if node in incoming then incoming[node] else []
  }

  lemma OneMorePair(first: seq<Pair>, before: seq<Pair>, after: seq<Pair>, source: Agent, edge: Edge, j: nat, node: Agent)
    requires j < |edge.to|
    requires before == first + PairsAlong(source, edge, j, node)
    requires after == before + (if edge.to[j] == node then [(source, edge)] else [])
    ensures after == first + PairsAlong(source, edge, j + 1, node)
  {
  }

  method AppendPairs(incoming: map<Agent, seq<Pair>>, source: Agent, edge: Edge) returns (r: map<Agent, seq<Pair>>)
    ensures forall node :: Lookup(r, node) == Lookup(incoming, node) + PairsAlong(source, edge, |edge.to|, node)
  {
    r := incoming;
    for j := 0 to |edge.to|
      invariant forall node :: Lookup(r, node) == Lookup(incoming, node) + PairsAlong(source, edge, j, node)
    {
      var t := edge.to[j];
      ghost var before := r;
      r := r[t := Lookup(r, t) + [(source, edge)]];
      forall node
        ensures Lookup(r, node) == Lookup(incoming, node) + PairsAlong(source, edge, j + 1, node)
      {
        OneMorePair(Lookup(incoming, node), Lookup(before, node), Lookup(r, node), source, edge, j, node);
      }
    }
  }

  lemma OneMoreEdge(first: seq<Pair>, before: seq<Pair>, after: seq<Pair>, source: Agent, edges: seq<Edge>, j: nat,
                    node: Agent)
    requires j < |edges|
    requires before == first + PairsFrom(source, edges, j, node)
    requires after == before + PairsAlong(source, edges[j], |edges[j].to|, node)
    ensures after == first + PairsFrom(source, edges, j + 1, node)
  {
  }

  /** r is `incoming` with the pairs along the first n edges of source appended. */
  ghost predicate Appended(incoming: map<Agent, seq<Pair>>, r: map<Agent, seq<Pair>>, source: Agent, edges: seq<Edge>, n: nat)
    requires n <= |edges|
  {
    forall node :: Lookup(r, node) == Lookup(incoming, node) + PairsFrom(source, edges, n, node)
  }

  lemma AppendedMore(incoming: map<Agent, seq<Pair>>, before: map<Agent, seq<Pair>>, after: map<Agent, seq<Pair>>,
                     source: Agent, edges: seq<Edge>, j: nat)
    requires j < |edges| && Appended(incoming, before, source, edges, j)
    requires forall node :: Lookup(after, node) == Lookup(before, node) + PairsAlong(source, edges[j], |edges[j].to|, node)
    ensures Appended(incoming, after, source, edges, j + 1)
  {
    forall node
      ensures Lookup(after, node) == Lookup(incoming, node) + PairsFrom(source, edges, j + 1, node)
    {
      OneMoreEdge(Lookup(incoming, node), Lookup(before, node), Lookup(after, node), source, edges, j, node);
    }
  }

  method AppendEdges(incoming: map<Agent, seq<Pair>>, source: Agent, edges: seq<Edge>) returns (r: map<Agent, seq<Pair>>)
    ensures Appended(incoming, r, source, edges, |edges|)
  {
    r := incoming;
    for j := 0 to |edges|
      invariant Appended(incoming, r, source, edges, j)
    {
      ghost var before := r;
      r := AppendPairs(r, source, edges[j]);
      AppendedMore(incoming, before, r, source, edges, j);
    }
  }

  /** Every downstream agent's incoming pairs, multi-outgoing and multi-incoming edges included. */
  method IncomingEdges(g: AgentGroup) returns (incoming: map<Agent, seq<Pair>>)
    ensures forall node :: Lookup(incoming, node) == Incoming(g, node)
  {
    incoming := map[];
    for i := 0 to |g.nodes|
      invariant forall node :: Lookup(incoming, node) == PairsInto(g, i, node)
    {
      incoming := AppendEdges(incoming, g.nodes[i], EdgesOf(g, g.nodes[i]));
    }
  }

  lemma {:induction false} PairsAlongMeaning(source: Agent, edge: Edge, n: nat, node: Agent)
    requires n <= |edge.to|
    ensures forall p :: p in PairsAlong(source, edge, n, node) ==> p == (source, edge)
    ensures |PairsAlong(source, edge, n, node)| > 0 <==> node in edge.to[..n]
  {
    if n > 0 {
      PairsAlongMeaning(source, edge, n - 1, node);
      assert edge.to[..n] == edge.to[..n - 1] + [edge.to[n - 1]];
    }
  }

  lemma {:induction false} PairsFromMeaning(source: Agent, edges: seq<Edge>, n: nat, node: Agent)
    requires n <= |edges|
    ensures forall p :: p in PairsFrom(source, edges, n, node) ==> p.0 == source && p.1 in edges
    ensures |PairsFrom(source, edges, n, node)| > 0 <==> node in Targets(edges[..n])
  {
    if n > 0 {
      PairsFromMeaning(source, edges, n - 1, node);
      PairsAlongMeaning(source, edges[n - 1], |edges[n - 1].to|, node);
      TargetsSnoc(edges, n - 1);
      assert edges[n - 1].to[..|edges[n - 1].to|] == edges[n - 1].to;
    }
  }

  ghost predicate IsPairInto(g: AgentGroup, node: Agent, p: Pair) {
    p.0 in g.nodes && node in Out(g, p.0) && p.1 in EdgesOf(g, p.0)
  }

  lemma PairsFromNode(g: AgentGroup, k: nat, node: Agent)
    requires k < |g.nodes|
    ensures var edges := EdgesOf(g, g.nodes[k]);
            var more := PairsFrom(g.nodes[k], edges, |edges|, node);
            && (forall p :: p in more ==> IsPairInto(g, node, p))
            && (|more| > 0 <==> node in Out(g, g.nodes[k]))
  {
    var edges := EdgesOf(g, g.nodes[k]);
    PairsFromMeaning(g.nodes[k], edges, |edges|, node);
    assert edges[..|edges|] == edges;
  }

  lemma {:induction false} PairIntoMeaning(g: AgentGroup, n: nat, node: Agent, p: Pair)
    requires n <= |g.nodes| && p in PairsInto(g, n, node)
    ensures IsPairInto(g, node, p)
  {
    if p in PairsInto(g, n - 1, node) {
      PairIntoMeaning(g, n - 1, node, p);
    } else {
      PairsFromNode(g, n - 1, node);
    }
  }

  /** The upstreams of a node are exactly the nodes with an edge to it. */
  lemma IncomingMeaning(g: AgentGroup, node: Agent)
    ensures forall p :: p in Incoming(g, node) ==> IsPairInto(g, node, p)
    ensures node in g.nodes ==> (Incoming(g, node) == [] <==> IsEntry(g, node))
  {
    forall p | p in Incoming(g, node)
      ensures IsPairInto(g, node, p)
    {
      PairIntoMeaning(g, |g.nodes|, node, p);
    }
    if node in g.nodes {
      EntryIffNotTargeted(g, node);
    }
  }

  // ------------------------------------------------------------------ one upstream

  function Outputs(results: seq<AgentResult>): (r: seq<Model>)
    ensures r != [] <==> exists x :: x in results && x.IsOk()
  {
    if results == [] then []
    else
      var n := |results| - 1;
      assert results == results[..n] + [results[n]];
      Outputs(results[..n]) + (if results[n].IsOk() then [results[n].output.value] else [])
  }

  /** The typed successes of an upstream, or an error when there are none. */
  function FilterSuccesses(output: NodeOutput): Result<Typed, WalkError> {
    match output
    case Batch(results) => if Outputs(results) == [] then Err(AllAgentsFailed) else Ok(Many(Outputs(results)))
    case Single(result) => if result.IsOk() then Ok(One(result.output.value)) else Err(AllAgentsFailed)
  }

  function ConditionFires(w: World, edge: Edge, typed: Typed): Result<bool, WalkError> {
    if edge.condition.None? then Ok(true)
    else match w.condition(edge.condition.value, typed)
      case None => Err(ConditionRaised)
      case Some(fires) => Ok(fires)
  }

  function CallMapper(w: World, mapper: nat, input: MapperInput): Result<MapperOutput, WalkError> {
    match w.mapper(mapper, input)
    case Err(exception) => Err(MapperRaised(exception))
    case Ok(out) => if out.ToSomethingElse? then Err(MapperReturnedNoTask) else Ok(out)
  }

  function Serialised(w: World, items: seq<Model>): (r: seq<TaskSpec>)
    ensures |r| == |items| && forall i :: 0 <= i < |r| ==> r[i] == w.serialise(items[i])
  {
    if items == [] then [] else [w.serialise(items[0])] + Serialised(w, items[1..])
  }

  function DownstreamInput(w: World, upstream: Agent, edge: Edge, typed: Typed): Result<MapperOutput, WalkError> {
    if edge.mapper.Some? then CallMapper(w, edge.mapper.value, FromUpstream(typed))
    else if upstream.fanOut.Malformed? then Err(MalformedOutputType)
    else if typed.Many? then Err(NoAggregatingMapper)
    else if upstream.fanOut.ListOf? then Ok(ToMany(Serialised(w, typed.model.items)))
    else Ok(ToOne(w.serialise(typed.model)))
  }

  function Gathered(w: World, frame: Frame, node: Agent, tasks: seq<TaskSpec>, width: nat): (o: Outcome)
    ensures !o.Skipped?
  {
    match w.gather(frame, node, tasks, width)
    case Ok(results) => Produced(Batch(results))
    case Err(e) => Raised(e)
  }

  function Ran(w: World, frame: Frame, node: Agent, task: TaskSpec): (o: Outcome)
    ensures !o.Skipped?
  {
    match w.run(frame, node, task)
    case Ok(result) => Produced(Single(result))
    case Err(e) => Raised(e)
  }

  function Launched(w: World, frame: Frame, node: Agent, input: Result<MapperOutput, WalkError>, width: nat): (o: Outcome)
    ensures !o.Skipped?
  {
    match input
    case Err(e) => Raised(e)
    case Ok(ToOne(task)) => Ran(w, frame, node, task)
    case Ok(ToMany(tasks)) => Gathered(w, frame, node, tasks, width)
    case Ok(ToSomethingElse) => Raised(MapperReturnedNoTask)
  }

  predicate AllExpected(w: World, items: seq<Model>, members: seq<TypeName>) {
    forall m :: m in items ==> exists u :: u in members && IsSub(w.classes, m.typ, u)
  }

  /** An edge that carries no mapper into a node that declares an input type is routed by type. */
  predicate TypeRouted(upstream: Agent, edge: Edge, node: Agent, typed: Typed) {
    edge.mapper.None? && typed.One? && node.inputType.Some? && IsUnion(upstream.fanOut)
  }

  function Fire(w: World, frame: Frame, node: Agent, upstream: Agent, edge: Edge, typed: Typed): Outcome {
    if TypeRouted(upstream, edge, node, typed) then
      if AllExpected(w, typed.model.items, upstream.fanOut.members) then
        Gathered(w, frame, node,
                 Serialised(w, Delivered(w.classes, typed.model.items, node.inputType.value)), edge.maxConcurrency)
      else Raised(UnexpectedItem)
    else Launched(w, frame, node, DownstreamInput(w, upstream, edge, typed), edge.maxConcurrency)
  }

  function SingleInput(w: World, frame: Frame, node: Agent, upstream: Agent, edge: Edge,
                       results: map<Agent, NodeOutput>, skipped: set<Agent>): Outcome
  {
    if upstream in skipped || upstream !in results then Skipped
    else match FilterSuccesses(results[upstream])
      case Err(e) => Raised(e)
      case Ok(typed) =>
        match ConditionFires(w, edge, typed)
        case Err(e) => Raised(e)
        case Ok(fires) => if fires then Fire(w, frame, node, upstream, edge, typed) else Skipped
  }

  // ------------------------------------------------------------------ several upstreams

  const Nothing: Typed := Many([])

  predicate IsAlive(c: Typed) {
    !(c.Many? && c.models == [])
  }

  /** What one upstream adds to an aggregation; a dead upstream adds the empty list. */
  function Contribution(w: World, p: Pair, results: map<Agent, NodeOutput>, skipped: set<Agent>): Result<Typed, WalkError> {
    if p.0 in skipped || p.0 !in results then Ok(Nothing)
    else
      var output := results[p.0];
      if output.Single? && !output.result.IsOk() then Ok(Nothing)
      else
        var typed := if output.Batch? then Many(Outputs(output.results)) else One(output.result.output.value);
        match ConditionFires(w, p.1, typed)
        case Err(e) => Err(e)
        case Ok(fires) => Ok(if fires then typed else Nothing)
  }

  function AllContributions(w: World, pairs: seq<Pair>, results: map<Agent, NodeOutput>, skipped: set<Agent>)
    : (r: seq<Result<Typed, WalkError>>)
    ensures |r| == |pairs| && forall i :: 0 <= i < |r| ==> r[i] == Contribution(w, pairs[i], results, skipped)
  {
    seq(|pairs|, i requires 0 <= i < |pairs| => Contribution(w, pairs[i], results, skipped))
  }

  /** Contributions keyed by upstream name; of two upstreams with one name the later counts. */
  function ByName(pairs: seq<Pair>, cs: seq<Typed>): (r: map<string, Typed>)
    requires |pairs| == |cs|
    ensures forall i :: 0 <= i < |pairs| ==> pairs[i].0.name in r
  {
    if pairs == [] then map[]
    else
      var k := |pairs| - 1;
      ByName(pairs[..k], cs[..k])[pairs[k].0.name := cs[k]]
  }

  function Mappers(pairs: seq<Pair>): seq<Edge> {
    if pairs == [] then []
    else
      var k := |pairs| - 1;
      Mappers(pairs[..k]) + (if pairs[k].1.mapper.Some? then [pairs[k].1] else [])
  }

  function FanOuts(cs: seq<Typed>): nat {
    if cs == [] then 0
    else FanOuts(cs[..|cs| - 1]) + (if cs[|cs| - 1].Many? && IsAlive(cs[|cs| - 1]) then 1 else 0)
  }

  function AnyAlive(cs: seq<Typed>): bool {
    cs != [] && (AnyAlive(cs[..|cs| - 1]) || IsAlive(cs[|cs| - 1]))
  }

  /** The decision once every contribution is known. */
  function Aggregated(w: World, frame: Frame, node: Agent, pairs: seq<Pair>, cs: seq<Typed>): (o: Outcome)
    requires |pairs| == |cs|
    ensures !o.Skipped?
  {
    if |Mappers(pairs)| > 1 then Raised(SeveralAggregatingMappers)
    else if !AnyAlive(cs) then Raised(AllAgentsFailed)
    else if |Mappers(pairs)| == 0 then Raised(if FanOuts(cs) > 1 then FanOutCrossProduct else NoAggregatingMapper)
    else
      var aggregator := Mappers(pairs)[0];
      MapperEdgesHaveMappers(pairs);
      Launched(w, frame, node, CallMapper(w, aggregator.mapper.value, FromAll(ByName(pairs, cs))), aggregator.maxConcurrency)
  }

  lemma MapperEdgesHaveMappers(pairs: seq<Pair>)
    ensures forall e :: e in Mappers(pairs) ==> e.mapper.Some?
  {
  }

  /** The first upstream whose condition raises stops the aggregation. */
  function MultiInput(w: World, frame: Frame, node: Agent, pairs: seq<Pair>, cs: seq<Result<Typed, WalkError>>): (o: Outcome)
    requires |pairs| == |cs|
    ensures !o.Skipped?
  {
    match FirstError(cs)
    case Some(e) => Raised(e)
    case None => Aggregated(w, frame, node, pairs, Values(cs))
  }

  function FirstError(cs: seq<Result<Typed, WalkError>>): (r: Option<WalkError>)
    ensures r.None? <==> forall c :: c in cs ==> c.Ok?
    ensures r.Some? ==> exists i :: 0 <= i < |cs| && cs[i] == Err(r.value) && forall k :: 0 <= k < i ==> cs[k].Ok?
  {
    if cs == [] then None
    else if cs[0].Err? then (assert cs[0] in cs; Some(cs[0].error))
    else
      var r := FirstError(cs[1..]);
      assert cs == [cs[0]] + cs[1..];
      r
  }

  function Values(cs: seq<Result<Typed, WalkError>>): (r: seq<Typed>)
    requires forall c :: c in cs ==> c.Ok?
    ensures |r| == |cs| && forall i :: 0 <= i < |r| ==> Ok(r[i]) == cs[i]
  {
    if cs == [] then [] else [cs[0].value] + Values(cs[1..])
  }

  /** What the aggregation loop keeps. */
  datatype Tally = Tally(contributions: map<string, Typed>, aggregator: Option<Edge>, duplicates: nat,
                         fanOuts: nat, anyAlive: bool)

  ghost predicate Tallies(t: Tally, pairs: seq<Pair>, cs: seq<Typed>) {
    && |pairs| == |cs|
    && t.contributions == ByName(pairs, cs)
    && |Mappers(pairs)| == t.duplicates + (if t.aggregator.Some? then 1 else 0)
    && (t.aggregator.Some? ==> Mappers(pairs)[0] == t.aggregator.value)
    && (t.aggregator.None? ==> t.duplicates == 0)
    && t.fanOuts == FanOuts(cs)
    && t.anyAlive == AnyAlive(cs)
  }

  /** One round of the aggregation loop. */
  function TallyOne(t: Tally, p: Pair, c: Typed): Tally {
    Tally(
      t.contributions[p.0.name := c],
      if p.1.mapper.Some? && t.aggregator.None? then Some(p.1) else t.aggregator,
      if p.1.mapper.Some? && t.aggregator.Some? then t.duplicates + 1 else t.duplicates,
      if c.Many? && IsAlive(c) then t.fanOuts + 1 else t.fanOuts,
      t.anyAlive || IsAlive(c))
  }

  lemma TallyOneMore(t: Tally, pairs: seq<Pair>, cs: seq<Typed>, p: Pair, c: Typed)
    requires Tallies(t, pairs, cs)
    ensures Tallies(TallyOne(t, p, c), pairs + [p], cs + [c])
  {
    assert (pairs + [p])[..|pairs|] == pairs && (cs + [c])[..|cs|] == cs;
  }

  /** The first |cs| contributions are known and tallied. */
  ghost predicate TalliedSoFar(t: Tally, pairs: seq<Pair>, cs: seq<Typed>, all: seq<Result<Typed, WalkError>>) {
    && |cs| <= |pairs| == |all| && (forall k :: 0 <= k < |cs| ==> all[k] == Ok(cs[k]))
    && Tallies(t, pairs[..|cs|], cs)
  }

  lemma TallyNext(t: Tally, pairs: seq<Pair>, cs: seq<Typed>, all: seq<Result<Typed, WalkError>>)
    requires TalliedSoFar(t, pairs, cs, all) && |cs| < |pairs| && all[|cs|].Ok?
    ensures TalliedSoFar(TallyOne(t, pairs[|cs|], all[|cs|].value), pairs, cs + [all[|cs|].value], all)
  {
    var i := |cs|;
    assert pairs[..i + 1] == pairs[..i] + [pairs[i]];
    TallyOneMore(t, pairs[..i], cs, pairs[i], all[i].value);
  }

  lemma TalliedAll(t: Tally, pairs: seq<Pair>, cs: seq<Typed>, all: seq<Result<Typed, WalkError>>)
    requires TalliedSoFar(t, pairs, cs, all) && |cs| == |pairs|
    ensures FirstError(all).None? && Values(all) == cs && Tallies(t, pairs, cs)
  {
    assert pairs[..|pairs|] == pairs;
    assert forall c :: c in all ==> c.Ok?;
  }

  method DispatchMultiInput(w: World, frame: Frame, node: Agent, pairs: seq<Pair>,
                            results: map<Agent, NodeOutput>, skipped: set<Agent>) returns (o: Outcome)
    ensures o == MultiInput(w, frame, node, pairs, AllContributions(w, pairs, results, skipped))
  {
    ghost var all := AllContributions(w, pairs, results, skipped);
    ghost var cs: seq<Typed> := [];
    var tally := Tally(map[], None, 0, 0, false);
    for i := 0 to |pairs|
      invariant |cs| == i && TalliedSoFar(tally, pairs, cs, all)
    {
      var c := Contribution(w, pairs[i], results, skipped);
      if c.Err? {
        StopsAtFirstError(all, i);
        return Raised(c.error);
      }
      TallyNext(tally, pairs, cs, all);
      tally := TallyOne(tally, pairs[i], c.value);
      cs := cs + [c.value];
    }
    TalliedAll(tally, pairs, cs, all);
    o := Concluded(w, frame, node, tally, pairs, cs);
  }

  /** The decision taken from the loop's tally. */
  method Concluded(w: World, frame: Frame, node: Agent, tally: Tally, ghost pairs: seq<Pair>, ghost cs: seq<Typed>)
    returns (o: Outcome)
    requires Tallies(tally, pairs, cs)
    ensures o == Aggregated(w, frame, node, pairs, cs)
  {
    if tally.duplicates > 0 {
      return Raised(SeveralAggregatingMappers);
    }
    if !tally.anyAlive {
      return Raised(AllAgentsFailed);
    }
    if tally.aggregator.None? {
      return Raised(if tally.fanOuts > 1 then FanOutCrossProduct else NoAggregatingMapper);
    }
    var aggregator := tally.aggregator.value;
    MapperEdgesHaveMappers(pairs);
    assert aggregator in Mappers(pairs);
    o := Launched(w, frame, node, CallMapper(w, aggregator.mapper.value, FromAll(tally.contributions)),
                  aggregator.maxConcurrency);
  }

  lemma StopsAtFirstError(cs: seq<Result<Typed, WalkError>>, i: nat)
    requires i < |cs| && cs[i].Err? && forall k :: 0 <= k < i ==> cs[k].Ok?
    ensures FirstError(cs) == Some(cs[i].error)
  {
    assert cs[i] in cs;
  }

  // ------------------------------------------------------------------ one node

  /** The dispatch of one node given everything stored so far. */
  function Resolve(job: Job, frame: Frame, node: Agent, results: map<Agent, NodeOutput>, skipped: set<Agent>): Outcome {
    var pairs := Incoming(job.group, node);
    if pairs == [] then Ran(job.world, frame, node, job.task)
    else if |pairs| == 1 then SingleInput(job.world, frame, node, pairs[0].0, pairs[0].1, results, skipped)
    else MultiInput(job.world, frame, node, pairs, AllContributions(job.world, pairs, results, skipped))
  }

  method ResolveNode(job: Job, frame: Frame, node: Agent, incoming: map<Agent, seq<Pair>>,
                     results: map<Agent, NodeOutput>, skipped: set<Agent>) returns (o: Outcome)
    requires forall n :: Lookup(incoming, n) == Incoming(job.group, n)
    ensures o == Resolve(job, frame, node, results, skipped)
  {
    var pairs := Lookup(incoming, node);
    if pairs == [] {
      o := Ran(job.world, frame, node, job.task);
    } else if |pairs| == 1 {
      o := SingleInput(job.world, frame, node, pairs[0].0, pairs[0].1, results, skipped);
    } else {
      o := DispatchMultiInput(job.world, frame, node, pairs, results, skipped);
    }
  }

  /** Both stores hold the same about a. */
  ghost predicate SameAt(r1: map<Agent, NodeOutput>, s1: set<Agent>, r2: map<Agent, NodeOutput>, s2: set<Agent>, a: Agent) {
    && (a in s1 <==> a in s2) && (a in r1 <==> a in r2)
    && (a in r1 ==> r1[a] == r2[a])
  }

  /** A dispatch depends on its upstreams alone. */
  lemma ResolveIsLocal(job: Job, frame: Frame, node: Agent, r1: map<Agent, NodeOutput>, s1: set<Agent>,
                       r2: map<Agent, NodeOutput>, s2: set<Agent>)
    requires forall u :: u in job.group.nodes && node in Out(job.group, u) ==> SameAt(r1, s1, r2, s2, u)
    ensures Resolve(job, frame, node, r1, s1) == Resolve(job, frame, node, r2, s2)
  {
    var pairs := Incoming(job.group, node);
    IncomingMeaning(job.group, node);
    forall i | 0 <= i < |pairs|
      ensures SameAt(r1, s1, r2, s2, pairs[i].0)
    {
      assert pairs[i] in pairs;
    }
    assert AllContributions(job.world, pairs, r1, s1) == AllContributions(job.world, pairs, r2, s2);
  }

  /** The upstream adds nothing: it was skipped or is missing, it failed, all of its batch failed, or the edge's condition
      is false of what it produced. */
  predicate IsDead(w: World, p: Pair, results: map<Agent, NodeOutput>, skipped: set<Agent>) {
    var c := Contribution(w, p, results, skipped);
    c.Ok? && !IsAlive(c.value)
  }

  /** A node with several incoming edges is never skipped: with no live upstream the walk raises instead, and it raises
      AllAgentsFailed unless several edges have mappers. */
  lemma MultiInputRaisesWhenAllDead(job: Job, frame: Frame, node: Agent, results: map<Agent, NodeOutput>, skipped: set<Agent>)
    requires |Incoming(job.group, node)| > 1
    ensures !Resolve(job, frame, node, results, skipped).Skipped?
    ensures (forall p :: p in Incoming(job.group, node) ==> IsDead(job.world, p, results, skipped)) ==>
              Resolve(job, frame, node, results, skipped) ==
              Raised(if |Mappers(Incoming(job.group, node))| > 1 then SeveralAggregatingMappers else AllAgentsFailed)
  {
    var pairs := Incoming(job.group, node);
    var all := AllContributions(job.world, pairs, results, skipped);
    if forall p :: p in pairs ==> IsDead(job.world, p, results, skipped) {
      forall i | 0 <= i < |all|
        ensures all[i].Ok? && !IsAlive(all[i].value)
      {
        assert pairs[i] in pairs;
      }
      assert FirstError(all).None?;
      NothingIsAlive(Values(all));
    }
  }

  lemma {:induction false} NothingIsAlive(cs: seq<Typed>)
    requires forall i :: 0 <= i < |cs| ==> !IsAlive(cs[i])
    ensures !AnyAlive(cs)
  {
    if cs != [] {
      NothingIsAlive(cs[..|cs| - 1]);
    }
  }

  /** When an aggregation dispatches, exactly one incoming edge has a mapper, and that mapper is called with every
      upstream's name, bound to the contribution of the last upstream of that name. */
  lemma AggregatorSeesEveryUpstream(w: World, frame: Frame, node: Agent, pairs: seq<Pair>, cs: seq<Result<Typed, WalkError>>)
    requires |pairs| == |cs| && MultiInput(w, frame, node, pairs, cs).Produced?
    ensures |Mappers(pairs)| == 1 && Mappers(pairs)[0].mapper.Some?
    ensures exists contributions ::
              && MultiInput(w, frame, node, pairs, cs) ==
                 Launched(w, frame, node, CallMapper(w, Mappers(pairs)[0].mapper.value, FromAll(contributions)),
                          Mappers(pairs)[0].maxConcurrency)
              && (forall i :: 0 <= i < |pairs| ==> pairs[i].0.name in contributions)
              && (forall i :: 0 <= i < |pairs| && (forall j :: i < j < |pairs| ==> pairs[j].0.name != pairs[i].0.name) ==>
                    Ok(contributions[pairs[i].0.name]) == cs[i])
  {
    MapperEdgesHaveMappers(pairs);
    assert Mappers(pairs)[0] in Mappers(pairs);
    var contributions := ByName(pairs, Values(cs));
    forall i | 0 <= i < |pairs| && (forall j :: i < j < |pairs| ==> pairs[j].0.name != pairs[i].0.name)
      ensures Ok(contributions[pairs[i].0.name]) == cs[i]
    {
      LastOfNameCounts(pairs, Values(cs), i);
    }
  }

  lemma {:induction false} LastOfNameCounts(pairs: seq<Pair>, cs: seq<Typed>, i: nat)
    requires |pairs| == |cs| && i < |pairs|
    requires forall j :: i < j < |pairs| ==> pairs[j].0.name != pairs[i].0.name
    ensures ByName(pairs, cs)[pairs[i].0.name] == cs[i]
  {
    var k := |pairs| - 1;
    if i < k {
      LastOfNameCounts(pairs[..k], cs[..k], i);
      assert pairs[k].0.name != pairs[i].0.name;
    }
  }

  /** A routed handler is dispatched over exactly the items of its type. */
  lemma HandlerGetsItsItems(job: Job, frame: Frame, node: Agent, source: Agent, edge: Edge,
                            results: map<Agent, NodeOutput>, skipped: set<Agent>)
    requires Incoming(job.group, node) == [(source, edge)] && edge.mapper.None? && node.inputType.Some?
    requires source in results && source !in skipped && results[source].Single? && results[source].result.IsOk()
    requires RoutingSound(job.world.classes, job.group, source) && edge in EdgesOf(job.group, source)
    requires RoutesByType(job.group, source)
    requires AllExpected(job.world, results[source].result.output.value.items, source.fanOut.members)
    ensures var items := Delivered(job.world.classes, results[source].result.output.value.items, node.inputType.value);
            Resolve(job, frame, node, results, skipped)
              == Gathered(job.world, frame, node, Serialised(job.world, items), edge.maxConcurrency)
  {
  }
}
