/** What every node of a walk is given and comes to, said by the edges into it, what is stored about its upstreams and what
    the user's code and the runtime answer. */
module Handover {
  import opened Wrappers
  import opened Seqs
  import opened Topology
  import opened Kahn
  import opened Routing
  import opened GroupSpec
  import opened Dispatch
  import opened Confluence
  import opened GroupWalk

  // ------------------------------------------------------------------ answers of the runtime

  /** Dispatches run under the frame of the only entry node, except the entry's own and all where the caller has a frame or
      there are several entries. */
  ghost predicate RunsUnder(job: Job, d: Agent, frame: Frame) {
    if !job.outerFrame && !IsEntry(job.group, d) && exists e :: OnlyEntry(job.group, e)
    then frame.EntryFrame? && OnlyEntry(job.group, frame.entry)
    else frame == CallersFrame
  }

  lemma RunsUnderItsFrame(job: Job, d: Agent, frame: Frame)
    ensures RunsUnder(job, d, frame) <==> frame == FrameOf(job, d)
  {
  }

  /** The outcome of one run on the task. */
  ghost predicate OneRun(job: Job, d: Agent, task: TaskSpec, o: Outcome) {
    exists frame :: RunsUnder(job, d, frame) && match job.world.run(frame, d, task)
                                                case Ok(result) => o == Produced(Single(result))
                                                case Err(e) => o == Raised(e)
  }

  /** The outcome of one gather over the tasks. */
  ghost predicate OneGather(job: Job, d: Agent, tasks: seq<TaskSpec>, width: nat, o: Outcome) {
    exists frame :: RunsUnder(job, d, frame) && match job.world.gather(frame, d, tasks, width)
                                                case Ok(results) => o == Produced(Batch(results))
                                                case Err(e) => o == Raised(e)
  }

  lemma RanIsOneRun(job: Job, d: Agent, task: TaskSpec, o: Outcome)
    ensures OneRun(job, d, task, o) <==> o == Ran(job.world, FrameOf(job, d), d, task)
  {
    RunsUnderItsFrame(job, d, FrameOf(job, d));
    if OneRun(job, d, task, o) {
      var frame :| RunsUnder(job, d, frame) && match job.world.run(frame, d, task)
                                               case Ok(result) => o == Produced(Single(result))
                                               case Err(e) => o == Raised(e);
      RunsUnderItsFrame(job, d, frame);
    }
  }

  lemma GatheredIsOneGather(job: Job, d: Agent, tasks: seq<TaskSpec>, width: nat, o: Outcome)
    ensures OneGather(job, d, tasks, width, o) <==> o == Gathered(job.world, FrameOf(job, d), d, tasks, width)
  {
    RunsUnderItsFrame(job, d, FrameOf(job, d));
    if OneGather(job, d, tasks, width, o) {
      var frame :| RunsUnder(job, d, frame) && match job.world.gather(frame, d, tasks, width)
                                               case Ok(results) => o == Produced(Batch(results))
                                               case Err(e) => o == Raised(e);
      RunsUnderItsFrame(job, d, frame);
    }
  }

  /** The outcome of what the mapper returns on the input: a run for a task, a gather for a list of tasks. */
  ghost predicate Mapped(job: Job, d: Agent, mapper: nat, input: MapperInput, width: nat, o: Outcome) {
    match job.world.mapper(mapper, input)
    case Err(exception) => o == Raised(MapperRaised(exception))
    case Ok(ToOne(task)) => OneRun(job, d, task, o)
    case Ok(ToMany(tasks)) => OneGather(job, d, tasks, width, o)
    case Ok(ToSomethingElse) => o == Raised(MapperReturnedNoTask)
  }

  lemma LaunchedIsMapped(job: Job, d: Agent, mapper: nat, input: MapperInput, width: nat, o: Outcome)
    ensures Mapped(job, d, mapper, input, width, o) <==>
            o == Launched(job.world, FrameOf(job, d), d, CallMapper(job.world, mapper, input), width)
  {
    match job.world.mapper(mapper, input)
    case Err(_) =>
    case Ok(ToOne(task)) => RanIsOneRun(job, d, task, o);
    case Ok(ToMany(tasks)) => GatheredIsOneGather(job, d, tasks, width, o);
    case Ok(ToSomethingElse) =>
  }

  // ------------------------------------------------------------------ picking by position

  /** The positions below n that satisfy keep, from left to right. */
  ghost predicate Picks(n: nat, keep: nat -> bool, positions: seq<nat>) {
    && (forall k, l :: 0 <= k < l < |positions| ==> positions[k] < positions[l])
    && (forall i: nat :: i in positions <==> i < n && keep(i))
  }

  ghost function Picked(n: nat, keep: nat -> bool): seq<nat> {
    if n == 0 then [] else Picked(n - 1, keep) + (if keep(n - 1) then [n - 1] else [])
  }

  lemma {:induction false} PickedIsPicks(n: nat, keep: nat -> bool)
    ensures Picks(n, keep, Picked(n, keep))
  {
    if n > 0 {
      PickedIsPicks(n - 1, keep);
      var before := Picked(n - 1, keep);
      assert forall k :: 0 <= k < |before| ==> before[k] in before;
    }
  }

  lemma PickIsKept(n: nat, keep: nat -> bool, positions: seq<nat>, k: nat)
    requires Picks(n, keep, positions) && k < |positions|
    ensures positions[k] < n && keep(positions[k])
  {
    assert positions[k] in positions;
  }

  lemma LastPick(n: nat, keep: nat -> bool, positions: seq<nat>)
    requires n > 0 && keep(n - 1) && Picks(n, keep, positions)
    ensures positions != [] && positions[|positions| - 1] == n - 1
    ensures Picks(n - 1, keep, positions[..|positions| - 1])
  {
    assert n - 1 in positions;
    var last := |positions| - 1;
    PickIsKept(n, keep, positions, last);
    var before := positions[..last];
    assert positions == before + [positions[last]];
    forall i: nat
      ensures i in before <==> i < n - 1 && keep(i)
    {
      assert i in positions <==> i in before || i == n - 1;
      assert i in before ==> i != n - 1;
    }
  }

  lemma {:induction false} PicksAreUnique(n: nat, keep: nat -> bool, positions: seq<nat>)
    requires Picks(n, keep, positions)
    ensures positions == Picked(n, keep)
  {
    if n == 0 {
      if positions != [] {
        PickIsKept(n, keep, positions, 0);
      }
    } else if keep(n - 1) {
      LastPick(n, keep, positions);
      PicksAreUnique(n - 1, keep, positions[..|positions| - 1]);
    } else {
      PicksAreUnique(n - 1, keep, positions);
    }
  }

  function IsOkAt(rs: seq<AgentResult>): nat -> bool {
    (i: nat) => i < |rs| && rs[i].IsOk()
  }

  ghost predicate OutputsAt(rs: seq<AgentResult>, positions: seq<nat>, ms: seq<Model>) {
    && |ms| == |positions|
    && forall k :: 0 <= k < |ms| ==> positions[k] < |rs| && rs[positions[k]].output == Some(ms[k])
  }

  /** The outputs of exactly the successes, in their order. */
  ghost predicate OkOutputs(rs: seq<AgentResult>, ms: seq<Model>) {
    exists positions :: Picks(|rs|, IsOkAt(rs), positions) && OutputsAt(rs, positions, ms)
  }

  lemma {:induction false} OutputsAtPicked(rs: seq<AgentResult>, n: nat)
    requires n <= |rs|
    ensures OutputsAt(rs, Picked(n, IsOkAt(rs)), Outputs(rs[..n]))
  {
    if n > 0 {
      OutputsAtPicked(rs, n - 1);
      assert rs[..n][..n - 1] == rs[..n - 1];
    }
  }

  lemma OutputsAreOk(rs: seq<AgentResult>, ms: seq<Model>)
    ensures OkOutputs(rs, ms) <==> ms == Outputs(rs)
  {
    assert rs[..|rs|] == rs;
    OutputsAtPicked(rs, |rs|);
    PickedIsPicks(|rs|, IsOkAt(rs));
    if OkOutputs(rs, ms) {
      var positions :| Picks(|rs|, IsOkAt(rs), positions) && OutputsAt(rs, positions, ms);
      PicksAreUnique(|rs|, IsOkAt(rs), positions);
    }
  }

  function IsOfType(h: Hierarchy, items: seq<Model>, t: TypeName): nat -> bool {
    (i: nat) => i < |items| && IsSub(h, items[i].typ, t)
  }

  ghost predicate TasksAt(w: World, items: seq<Model>, positions: seq<nat>, tasks: seq<TaskSpec>) {
    && |tasks| == |positions|
    && forall k :: 0 <= k < |tasks| ==> positions[k] < |items| && tasks[k] == w.serialise(items[positions[k]])
  }

  /** One task for every item of the type, in their order, as the world writes items. */
  ghost predicate TasksOfType(w: World, items: seq<Model>, t: TypeName, tasks: seq<TaskSpec>) {
    exists positions :: Picks(|items|, IsOfType(w.classes, items, t), positions) && TasksAt(w, items, positions, tasks)
  }

  lemma {:induction false} DeliveredSnoc(h: Hierarchy, items: seq<Model>, m: Model, t: TypeName)
    ensures Delivered(h, items + [m], t) == Delivered(h, items, t) + (if IsSub(h, m.typ, t) then [m] else [])
  {
    if items != [] {
      DeliveredSnoc(h, items[1..], m, t);
      assert (items + [m])[1..] == items[1..] + [m];
    }
  }

  lemma {:induction false} DeliveredAtPicked(w: World, items: seq<Model>, t: TypeName, n: nat)
    requires n <= |items|
    ensures TasksAt(w, items, Picked(n, IsOfType(w.classes, items, t)), Serialised(w, Delivered(w.classes, items[..n], t)))
  {
    if n > 0 {
      DeliveredAtPicked(w, items, t, n - 1);
      assert items[..n] == items[..n - 1] + [items[n - 1]];
      DeliveredSnoc(w.classes, items[..n - 1], items[n - 1], t);
    }
  }

  lemma DeliveredAreOfType(w: World, items: seq<Model>, t: TypeName, tasks: seq<TaskSpec>)
    ensures TasksOfType(w, items, t, tasks) <==> tasks == Serialised(w, Delivered(w.classes, items, t))
  {
    assert items[..|items|] == items;
    DeliveredAtPicked(w, items, t, |items|);
    PickedIsPicks(|items|, IsOfType(w.classes, items, t));
    if TasksOfType(w, items, t, tasks) {
      var positions :| Picks(|items|, IsOfType(w.classes, items, t), positions) && TasksAt(w, items, positions, tasks);
      PicksAreUnique(|items|, IsOfType(w.classes, items, t), positions);
    }
  }

  // ------------------------------------------------------------------ entry nodes and nodes with one upstream

  /** What the upstream's results are to a mapper, a condition or the next node: the one success, or the successes of a
      batch, of which there must be some. */
  ghost predicate Gives(output: NodeOutput, typed: Typed) {
    match output
    case Single(r) => r.IsOk() && typed == One(r.output.value)
    case Batch(rs) => typed.Many? && typed.models != [] && OkOutputs(rs, typed.models)
  }

  lemma SuccessesAreGiven(output: NodeOutput, typed: Typed)
    ensures Gives(output, typed) <==> FilterSuccesses(output) == Ok(typed)
  {
    if output.Batch? && typed.Many? {
      OutputsAreOk(output.results, typed.models);
    }
  }

  lemma NothingGivenMeans(output: NodeOutput)
    ensures (forall typed :: !Gives(output, typed)) <==> FilterSuccesses(output) == Err(AllAgentsFailed)
  {
    forall typed
      ensures Gives(output, typed) <==> FilterSuccesses(output) == Ok(typed)
    {
      SuccessesAreGiven(output, typed);
    }
    if FilterSuccesses(output).Ok? {
      assert Gives(output, FilterSuccesses(output).value);
    }
  }

  /** The condition of the edge, if it has one, is true of the input. */
  predicate Fires(w: World, e: Edge, typed: Typed) {
    e.condition.None? || w.condition(e.condition.value, typed) == Some(true)
  }

  predicate IsFalse(w: World, e: Edge, typed: Typed) {
    e.condition.Some? && w.condition(e.condition.value, typed) == Some(false)
  }

  /** One task for every item, in order, as the world writes items. */
  ghost predicate TasksOf(w: World, items: seq<Model>, tasks: seq<TaskSpec>) {
    |tasks| == |items| && forall i :: 0 <= i < |items| ==> tasks[i] == w.serialise(items[i])
  }

  /** The item is of none of the classes. */
  ghost predicate IsUnexpected(w: World, m: Model, members: seq<TypeName>) {
    forall u :: u in members ==> !IsSub(w.classes, m.typ, u)
  }

  /** A gather over the items of a fan-out field: over all of them, or over those of the node's input type where the field's
      items are of several types, all of them expected. */
  ghost predicate FannedOut(job: Job, members: seq<TypeName>, width: nat, d: Agent, items: seq<Model>, o: Outcome) {
    if |members| > 1 && d.inputType.Some? then
      if exists i :: 0 <= i < |items| && IsUnexpected(job.world, items[i], members)
      then o == Raised(UnexpectedItem)
      else exists tasks :: TasksOfType(job.world, items, d.inputType.value, tasks) && OneGather(job, d, tasks, width, o)
    else exists tasks :: TasksOf(job.world, items, tasks) && OneGather(job, d, tasks, width, o)
  }

  /** What a node comes to when its only edge fires: with a mapper, what the mapper makes of the input; without one, a gather
      over the items of a fan-out field, or a run on the whole output. A batch cannot be handed on without a mapper. */
  ghost predicate HandedOn(job: Job, s: Agent, e: Edge, d: Agent, typed: Typed, o: Outcome) {
    if e.mapper.Some? then Mapped(job, d, e.mapper.value, FromUpstream(typed), e.maxConcurrency, o)
    else match s.fanOut
      case Malformed => o == Raised(MalformedOutputType)
      case NoField =>
        if typed.Many? then o == Raised(NoAggregatingMapper) else OneRun(job, d, job.world.serialise(typed.model), o)
      case ListOf(members) =>
        if typed.Many? then o == Raised(NoAggregatingMapper)
        else FannedOut(job, members, e.maxConcurrency, d, typed.model.items, o)
  }

  lemma RoutedIsFannedOut(job: Job, members: seq<TypeName>, width: nat, d: Agent, items: seq<Model>, o: Outcome)
    requires |members| > 1 && d.inputType.Some?
    ensures FannedOut(job, members, width, d, items, o) <==>
            o == if AllExpected(job.world, items, members)
                 then Gathered(job.world, FrameOf(job, d), d,
                               Serialised(job.world, Delivered(job.world.classes, items, d.inputType.value)), width)
                 else Raised(UnexpectedItem)
  {
    var w := job.world;
    var tasks := Serialised(w, Delivered(w.classes, items, d.inputType.value));
    DeliveredAreOfType(w, items, d.inputType.value, tasks);
    GatheredIsOneGather(job, d, tasks, width, o);
    AllExpectedMeans(w, items, members);
    if AllExpected(w, items, members) && FannedOut(job, members, width, d, items, o) {
      var ts :| TasksOfType(w, items, d.inputType.value, ts) && OneGather(job, d, ts, width, o);
      DeliveredAreOfType(w, items, d.inputType.value, ts);
    }
  }

  lemma AllExpectedMeans(w: World, items: seq<Model>, members: seq<TypeName>)
    ensures !AllExpected(w, items, members) <==> exists i :: 0 <= i < |items| && IsUnexpected(w, items[i], members)
  {
    if AllExpected(w, items, members) {
      forall i | 0 <= i < |items|
        ensures !IsUnexpected(w, items[i], members)
      {
        assert items[i] in items;
      }
    } else {
      var m :| m in items && !(exists u :: u in members && IsSub(w.classes, m.typ, u));
      assert IsUnexpected(w, m, members);
      var i :| 0 <= i < |items| && items[i] == m;
    }
  }

  lemma AllItemsAreFannedOut(job: Job, members: seq<TypeName>, width: nat, d: Agent, items: seq<Model>, o: Outcome)
    requires !(|members| > 1 && d.inputType.Some?)
    ensures FannedOut(job, members, width, d, items, o) <==>
            o == Gathered(job.world, FrameOf(job, d), d, Serialised(job.world, items), width)
  {
    var tasks := Serialised(job.world, items);
    assert TasksOf(job.world, items, tasks);
    GatheredIsOneGather(job, d, tasks, width, o);
    if FannedOut(job, members, width, d, items, o) {
      var ts :| TasksOf(job.world, items, ts) && OneGather(job, d, ts, width, o);
      assert ts == tasks;
    }
  }

  lemma FireIsHandedOn(job: Job, s: Agent, e: Edge, d: Agent, typed: Typed, o: Outcome)
    ensures HandedOn(job, s, e, d, typed, o) <==> o == Fire(job.world, FrameOf(job, d), d, s, e, typed)
  {
    if e.mapper.Some? {
      LaunchedIsMapped(job, d, e.mapper.value, FromUpstream(typed), e.maxConcurrency, o);
    } else if typed.One? && s.fanOut.NoField? {
      RanIsOneRun(job, d, job.world.serialise(typed.model), o);
    } else if typed.One? && s.fanOut.ListOf? {
      if |s.fanOut.members| > 1 && d.inputType.Some? {
        RoutedIsFannedOut(job, s.fanOut.members, e.maxConcurrency, d, typed.model.items, o);
      } else {
        AllItemsAreFannedOut(job, s.fanOut.members, e.maxConcurrency, d, typed.model.items, o);
      }
    }
  }

  /** Skipped behind a skipped upstream; raised when the upstream gives nothing or the edge's condition raises; skipped when
      the condition is false of what the upstream gives; otherwise what is handed on. */
  ghost predicate ComesFromOne(job: Job, st: Store, s: Agent, e: Edge, d: Agent, o: Outcome) {
    if s in st.skipped || s !in st.results then o == Skipped
    else if forall typed :: !Gives(st.results[s], typed) then o == Raised(AllAgentsFailed)
    else exists typed :: Gives(st.results[s], typed) && ComesFromInput(job, s, e, d, typed, o)
  }

  ghost predicate ComesFromInput(job: Job, s: Agent, e: Edge, d: Agent, typed: Typed, o: Outcome) {
    if Fires(job.world, e, typed) then HandedOn(job, s, e, d, typed, o)
    else if IsFalse(job.world, e, typed) then o == Skipped
    else o == Raised(ConditionRaised)
  }

  lemma SingleInputIsComesFromOne(job: Job, st: Store, s: Agent, e: Edge, d: Agent, o: Outcome)
    ensures ComesFromOne(job, st, s, e, d, o) <==>
            o == SingleInput(job.world, FrameOf(job, d), d, s, e, st.results, st.skipped)
  {
    if !(s in st.skipped || s !in st.results) {
      NothingGivenMeans(st.results[s]);
      if FilterSuccesses(st.results[s]).Ok? {
        var typed := FilterSuccesses(st.results[s]).value;
        SuccessesAreGiven(st.results[s], typed);
        FireIsHandedOn(job, s, e, d, typed, o);
        if ComesFromOne(job, st, s, e, d, o) {
          var t :| Gives(st.results[s], t) && ComesFromInput(job, s, e, d, t, o);
          SuccessesAreGiven(st.results[s], t);
        }
      }
    }
  }

  // ------------------------------------------------------------------ nodes with several upstreams

  /** What the upstream has to add: nothing when it was skipped or failed, its output, or its batch's successes. */
  ghost predicate Holding(st: Store, s: Agent, typed: Option<Typed>) {
    if s in st.skipped || s !in st.results then typed == None
    else match st.results[s]
      case Single(r) => typed == if r.IsOk() then Some(One(r.output.value)) else None
      case Batch(rs) => typed.Some? && typed.value.Many? && OkOutputs(rs, typed.value.models)
  }

  /** The upstream adds c: what it has to add where the edge fires, the empty list otherwise. */
  ghost predicate Adds(w: World, p: Pair, st: Store, c: Typed) {
    exists typed :: Holding(st, p.0, typed) && AddsOf(w, p.1, typed, c)
  }

  ghost predicate AddsOf(w: World, e: Edge, typed: Option<Typed>, c: Typed) {
    if typed.Some? && Fires(w, e, typed.value) then c == typed.value
    else c == Many([]) && (typed.Some? ==> IsFalse(w, e, typed.value))
  }

  /** The upstream has something to add, and the edge's condition raises on it. */
  ghost predicate Balks(w: World, p: Pair, st: Store) {
    exists typed :: Holding(st, p.0, Some(typed)) && !Fires(w, p.1, typed) && !IsFalse(w, p.1, typed)
  }

  ghost predicate AllAdd(w: World, pairs: seq<Pair>, st: Store, cs: seq<Typed>) {
    |cs| == |pairs| && forall i :: 0 <= i < |pairs| ==> Adds(w, pairs[i], st, cs[i])
  }

  lemma ContributionIsAdds(w: World, p: Pair, st: Store, c: Typed)
    ensures Adds(w, p, st, c) <==> Contribution(w, p, st.results, st.skipped) == Ok(c)
  {
    var held := Held(st, p.0);
    HeldIsHolding(st, p.0, held);
    if Adds(w, p, st, c) {
      var typed :| Holding(st, p.0, typed) && AddsOf(w, p.1, typed, c);
      HeldIsHolding(st, p.0, typed);
    }
  }

  ghost function Held(st: Store, s: Agent): Option<Typed> {
    if s in st.skipped || s !in st.results then None
    else match st.results[s]
      case Single(r) => if r.IsOk() then Some(One(r.output.value)) else None
      case Batch(rs) => Some(Many(Outputs(rs)))
  }

  lemma HeldIsHolding(st: Store, s: Agent, typed: Option<Typed>)
    ensures Holding(st, s, typed) <==> typed == Held(st, s)
  {
    if s in st.results && st.results[s].Batch? && typed.Some? && typed.value.Many? {
      OutputsAreOk(st.results[s].results, typed.value.models);
    }
  }

  /** Every upstream's name is bound to what the last upstream of that name adds, and nothing else is. */
  ghost predicate BoundByName(pairs: seq<Pair>, cs: seq<Typed>, contributions: map<string, Typed>) {
    && |cs| == |pairs|
    && (forall name :: name in contributions ==> exists i :: 0 <= i < |pairs| && pairs[i].0.name == name)
    && (forall i :: 0 <= i < |pairs| ==> pairs[i].0.name in contributions)
    && (forall i :: 0 <= i < |pairs| && IsLastOfName(pairs, i) ==> contributions[pairs[i].0.name] == cs[i])
  }

  ghost predicate IsLastOfName(pairs: seq<Pair>, i: nat)
    requires i < |pairs|
  {
    forall j :: i < j < |pairs| ==> pairs[j].0.name != pairs[i].0.name
  }

  lemma {:induction false} LastOfNameExists(pairs: seq<Pair>, i: nat) returns (l: nat)
    requires i < |pairs|
    ensures l < |pairs| && pairs[l].0.name == pairs[i].0.name && IsLastOfName(pairs, l)
    decreases |pairs| - i
  {
    l := i;
    if !IsLastOfName(pairs, i) {
      var j :| i < j < |pairs| && pairs[j].0.name == pairs[i].0.name;
      l := LastOfNameExists(pairs, j);
    }
  }

  lemma {:induction false} ByNameBindsNames(pairs: seq<Pair>, cs: seq<Typed>, name: string)
    requires |pairs| == |cs| && name in ByName(pairs, cs)
    ensures exists i :: 0 <= i < |pairs| && pairs[i].0.name == name
  {
    var k := |pairs| - 1;
    if pairs[k].0.name != name {
      ByNameBindsNames(pairs[..k], cs[..k], name);
      var i :| 0 <= i < |pairs[..k]| && pairs[..k][i].0.name == name;
      assert pairs[i].0.name == name;
    }
  }

  lemma ByNameIsBound(pairs: seq<Pair>, cs: seq<Typed>)
    requires |pairs| == |cs|
    ensures BoundByName(pairs, cs, ByName(pairs, cs))
  {
    forall name | name in ByName(pairs, cs)
      ensures exists i :: 0 <= i < |pairs| && pairs[i].0.name == name
    {
      ByNameBindsNames(pairs, cs, name);
    }
    forall i | 0 <= i < |pairs| && IsLastOfName(pairs, i)
      ensures ByName(pairs, cs)[pairs[i].0.name] == cs[i]
    {
      LastOfNameCounts(pairs, cs, i);
    }
  }

  lemma BoundIsUnique(pairs: seq<Pair>, cs: seq<Typed>, m1: map<string, Typed>, m2: map<string, Typed>)
    requires BoundByName(pairs, cs, m1) && BoundByName(pairs, cs, m2)
    ensures m1 == m2
  {
    assert m1.Keys == m2.Keys;
    forall name | name in m1
      ensures m1[name] == m2[name]
    {
      var i :| 0 <= i < |pairs| && pairs[i].0.name == name;
      var l := LastOfNameExists(pairs, i);
    }
  }

  predicate HasMapper(pairs: seq<Pair>, i: nat) {
    i < |pairs| && pairs[i].1.mapper.Some?
  }

  predicate IsLiveBatch(cs: seq<Typed>, i: nat) {
    i < |cs| && cs[i].Many? && cs[i].models != []
  }

  /** The one mapper's answer to everything that was added, by name. */
  ghost predicate MappedTogether(job: Job, d: Agent, pairs: seq<Pair>, cs: seq<Typed>, o: Outcome) {
    exists a: nat, contributions ::
      && HasMapper(pairs, a) && BoundByName(pairs, cs, contributions)
      && Mapped(job, d, pairs[a].1.mapper.value, FromAll(contributions), pairs[a].1.maxConcurrency, o)
  }

  /** What the node comes to once it is known what every upstream adds: two mappers are refused first, then upstreams that
      all add nothing, then a missing mapper; the one mapper is called with everything that was added, by name. */
  ghost predicate Combined(job: Job, d: Agent, pairs: seq<Pair>, cs: seq<Typed>, o: Outcome) {
    if exists i: nat, j: nat :: i < j && HasMapper(pairs, i) && HasMapper(pairs, j) then o == Raised(SeveralAggregatingMappers)
    else if forall i :: 0 <= i < |cs| ==> cs[i] == Many([]) then o == Raised(AllAgentsFailed)
    else if exists a: nat :: HasMapper(pairs, a) then MappedTogether(job, d, pairs, cs, o)
    else if exists i: nat, j: nat :: i < j && IsLiveBatch(cs, i) && IsLiveBatch(cs, j) then o == Raised(FanOutCrossProduct)
    else o == Raised(NoAggregatingMapper)
  }

  /** A condition that raises stops the aggregation. */
  ghost predicate ComesFromMany(job: Job, st: Store, d: Agent, pairs: seq<Pair>, o: Outcome) {
    if exists i :: 0 <= i < |pairs| && Balks(job.world, pairs[i], st) then o == Raised(ConditionRaised)
    else exists cs :: AllAdd(job.world, pairs, st, cs) && Combined(job, d, pairs, cs, o)
  }

  // the three questions the aggregation asks about its pairs and contributions

  lemma {:induction false} MappersAreThePairs(pairs: seq<Pair>)
    ensures |Mappers(pairs)| > 0 <==> exists a: nat :: HasMapper(pairs, a)
    ensures |Mappers(pairs)| > 1 <==> exists i: nat, j: nat :: i < j && HasMapper(pairs, i) && HasMapper(pairs, j)
    ensures |Mappers(pairs)| == 1 ==> forall a: nat :: HasMapper(pairs, a) ==> Mappers(pairs)[0] == pairs[a].1
  {
    if pairs != [] {
      var k := |pairs| - 1;
      var before := pairs[..k];
      MappersAreThePairs(before);
      assert forall i: nat :: i < k ==> HasMapper(pairs, i) == HasMapper(before, i) && pairs[i] == before[i];
      if exists a: nat :: HasMapper(before, a) {
        var a: nat :| HasMapper(before, a);
        assert HasMapper(pairs, a);
      }
      if exists i: nat, j: nat :: i < j && HasMapper(before, i) && HasMapper(before, j) {
        var i: nat, j: nat :| i < j && HasMapper(before, i) && HasMapper(before, j);
        assert HasMapper(pairs, i) && HasMapper(pairs, j);
      }
      assert HasMapper(pairs, k) <==> pairs[k].1.mapper.Some?;
    }
  }

  lemma {:induction false} FanOutsAreTheBatches(cs: seq<Typed>)
    ensures FanOuts(cs) > 0 <==> exists a: nat :: IsLiveBatch(cs, a)
    ensures FanOuts(cs) > 1 <==> exists i: nat, j: nat :: i < j && IsLiveBatch(cs, i) && IsLiveBatch(cs, j)
  {
    if cs != [] {
      var k := |cs| - 1;
      var before := cs[..k];
      FanOutsAreTheBatches(before);
      assert forall i: nat :: i < k ==> IsLiveBatch(cs, i) == IsLiveBatch(before, i);
      if exists a: nat :: IsLiveBatch(before, a) {
        var a: nat :| IsLiveBatch(before, a);
        assert IsLiveBatch(cs, a);
      }
      if exists i: nat, j: nat :: i < j && IsLiveBatch(before, i) && IsLiveBatch(before, j) {
        var i: nat, j: nat :| i < j && IsLiveBatch(before, i) && IsLiveBatch(before, j);
        assert IsLiveBatch(cs, i) && IsLiveBatch(cs, j);
      }
      assert IsLiveBatch(cs, k) <==> cs[k].Many? && IsAlive(cs[k]);
    }
  }

  lemma {:induction false} AliveIsSomething(cs: seq<Typed>)
    ensures !AnyAlive(cs) <==> forall i :: 0 <= i < |cs| ==> cs[i] == Many([])
  {
    if cs != [] {
      var k := |cs| - 1;
      AliveIsSomething(cs[..k]);
      assert forall i :: 0 <= i < k ==> cs[..k][i] == cs[i];
    }
  }

  lemma AggregatedIsCombined(job: Job, d: Agent, pairs: seq<Pair>, cs: seq<Typed>, o: Outcome)
    requires |pairs| == |cs|
    ensures Combined(job, d, pairs, cs, o) <==> o == Aggregated(job.world, FrameOf(job, d), d, pairs, cs)
  {
    MappersAreThePairs(pairs);
    FanOutsAreTheBatches(cs);
    AliveIsSomething(cs);
    if |Mappers(pairs)| == 1 && AnyAlive(cs) {
      OneMapperIsCombined(job, d, pairs, cs, o);
    }
  }

  lemma OneMapperIsCombined(job: Job, d: Agent, pairs: seq<Pair>, cs: seq<Typed>, o: Outcome)
    requires |pairs| == |cs| && |Mappers(pairs)| == 1 && AnyAlive(cs)
    ensures MappedTogether(job, d, pairs, cs, o) <==> o == Aggregated(job.world, FrameOf(job, d), d, pairs, cs)
  {
    MappersAreThePairs(pairs);
    MapperEdgesHaveMappers(pairs);
    var m := Mappers(pairs)[0];
    assert m in Mappers(pairs);
    LaunchedIsMapped(job, d, m.mapper.value, FromAll(ByName(pairs, cs)), m.maxConcurrency, o);
    ByNameIsBound(pairs, cs);
    if MappedTogether(job, d, pairs, cs, o) {
      var a: nat, contributions :|
        && HasMapper(pairs, a) && BoundByName(pairs, cs, contributions)
        && Mapped(job, d, pairs[a].1.mapper.value, FromAll(contributions), pairs[a].1.maxConcurrency, o);
      BoundIsUnique(pairs, cs, contributions, ByName(pairs, cs));
    }
  }

  lemma BalkingIsAnError(w: World, p: Pair, st: Store)
    ensures Contribution(w, p, st.results, st.skipped).Err? ==>
              Contribution(w, p, st.results, st.skipped).error == ConditionRaised
    ensures Balks(w, p, st) <==> Contribution(w, p, st.results, st.skipped).Err?
  {
    var held := Held(st, p.0);
    HeldIsHolding(st, p.0, held);
    if Balks(w, p, st) {
      var typed :| Holding(st, p.0, Some(typed)) && !Fires(w, p.1, typed) && !IsFalse(w, p.1, typed);
      HeldIsHolding(st, p.0, Some(typed));
    }
  }

  lemma FirstErrorIsABalk(w: World, pairs: seq<Pair>, st: Store)
    ensures FirstError(AllContributions(w, pairs, st.results, st.skipped)) ==
            if exists i :: 0 <= i < |pairs| && Balks(w, pairs[i], st) then Some(ConditionRaised) else None
  {
    var all := AllContributions(w, pairs, st.results, st.skipped);
    forall i | 0 <= i < |pairs|
      ensures all[i].Err? ==> all[i].error == ConditionRaised
      ensures Balks(w, pairs[i], st) <==> all[i].Err?
    {
      BalkingIsAnError(w, pairs[i], st);
    }
    assert forall i :: 0 <= i < |all| ==> all[i] in all;
  }

  lemma ValuesAreAdded(w: World, pairs: seq<Pair>, st: Store, cs: seq<Typed>)
    requires FirstError(AllContributions(w, pairs, st.results, st.skipped)).None?
    ensures AllAdd(w, pairs, st, cs) <==> cs == Values(AllContributions(w, pairs, st.results, st.skipped))
  {
    var all := AllContributions(w, pairs, st.results, st.skipped);
    if |cs| == |pairs| {
      forall i | 0 <= i < |pairs|
        ensures Adds(w, pairs[i], st, cs[i]) <==> all[i] == Ok(cs[i])
      {
        ContributionIsAdds(w, pairs[i], st, cs[i]);
      }
    }
  }

  lemma MultiInputIsComesFromMany(job: Job, st: Store, d: Agent, pairs: seq<Pair>, o: Outcome)
    ensures ComesFromMany(job, st, d, pairs, o) <==>
            o == MultiInput(job.world, FrameOf(job, d), d, pairs, AllContributions(job.world, pairs, st.results, st.skipped))
  {
    var all := AllContributions(job.world, pairs, st.results, st.skipped);
    FirstErrorIsABalk(job.world, pairs, st);
    if FirstError(all).None? {
      var values := Values(all);
      AggregatedIsCombined(job, d, pairs, values, o);
      ValuesAreAdded(job.world, pairs, st, values);
      if ComesFromMany(job, st, d, pairs, o) {
        var cs :| AllAdd(job.world, pairs, st, cs) && Combined(job, d, pairs, cs, o);
        ValuesAreAdded(job.world, pairs, st, cs);
      }
    }
  }

  // ------------------------------------------------------------------ whole walks

  /** What a node comes to, given what is stored about its upstreams. */
  ghost predicate Comes(job: Job, st: Store, d: Agent, o: Outcome) {
    var pairs := Incoming(job.group, d);
    if pairs == [] then OneRun(job, d, job.task, o)
    else if |pairs| == 1 then ComesFromOne(job, st, pairs[0].0, pairs[0].1, d, o)
    else ComesFromMany(job, st, d, pairs, o)
  }

  /** Resolving a node gives the one outcome that the edges into it, the store and the answers call for. */
  lemma ResolveIsComes(job: Job, st: Store, d: Agent, o: Outcome)
    ensures Comes(job, st, d, o) <==> o == Resolve(job, FrameOf(job, d), d, st.results, st.skipped)
  {
    var pairs := Incoming(job.group, d);
    if pairs == [] {
      RanIsOneRun(job, d, job.task, o);
    } else if |pairs| == 1 {
      SingleInputIsComesFromOne(job, st, pairs[0].0, pairs[0].1, d, o);
    } else {
      MultiInputIsComesFromMany(job, st, d, pairs, o);
    }
  }

  /** The store has exactly the nodes in done, which have their upstreams in done too: stored or skipped, the way each
      comes out of its upstreams. */
  ghost predicate Settles(job: Job, done: set<Agent>, st: Store) {
    && done <= Elems(job.group.nodes)
    && st.results.Keys !! st.skipped && st.results.Keys + st.skipped == done
    && (forall d {:trigger PredecessorsIn(job.group, done, d)} :: d in done ==> PredecessorsIn(job.group, done, d))
    && (forall d :: d in done ==> HasComeTo(job, st, d))
  }

  ghost predicate HasComeTo(job: Job, st: Store, d: Agent) {
    exists o :: Comes(job, st, d, o) && Holds(st, d, o)
  }

  /** All nodes are settled. */
  ghost predicate IsFinished(job: Job, st: Store) {
    Settles(job, Elems(job.group.nodes), st)
  }

  lemma SettlesIffSolves(job: Job, done: set<Agent>, st: Store)
    ensures Settles(job, done, st) <==> Solves(WalkOf(job), done, st)
  {
    var w := WalkOf(job);
    forall d | d in done
      ensures HasComeTo(job, st, d) <==> Holds(st, d, w.resolve(d, st))
    {
      ResolveIsComes(job, st, d, w.resolve(d, st));
      if HasComeTo(job, st, d) {
        var o :| Comes(job, st, d, o) && Holds(st, d, o);
        ResolveIsComes(job, st, d, o);
      }
    }
  }

  /** The error is what some node comes to once its upstreams are settled. */
  ghost predicate SomeNodeRaises(job: Job, e: WalkError) {
    exists done, st, d :: Settles(job, done, st) && UpstreamsSettled(job, done, d) && Comes(job, st, d, Raised(e))
  }

  ghost predicate UpstreamsSettled(job: Job, done: set<Agent>, d: Agent) {
    d in job.group.nodes && PredecessorsIn(job.group, done, d)
  }

  lemma FailureIsRaised(job: Job, e: WalkError)
    ensures SomeNodeRaises(job, e) <==> IsFailure(WalkOf(job), e)
  {
    var w := WalkOf(job);
    if IsFailure(w, e) {
      var v, done, st :| RaisesFrom(w, v, e, done, st);
      SettlesIffSolves(job, done, st);
      ResolveIsComes(job, st, v, Raised(e));
      assert UpstreamsSettled(job, done, v);
    }
    if SomeNodeRaises(job, e) {
      var done, st, d :| Settles(job, done, st) && UpstreamsSettled(job, done, d) && Comes(job, st, d, Raised(e));
      SettlesIffSolves(job, done, st);
      ResolveIsComes(job, st, d, Raised(e));
      assert RaisesFrom(w, d, e, done, st);
    }
  }

  /** What decides a walk are the edges and the answers: it may end with a store exactly when the store is finished, and with
      an error exactly when no store is and some node comes to the error. */
  lemma WalkIsDecidedByAnswers(job: Job, r: Result<Store, WalkError>)
    ensures Decides(WalkOf(job), r) <==>
            if r.Ok? then IsFinished(job, r.value)
            else (forall st :: !IsFinished(job, st)) && SomeNodeRaises(job, r.error)
  {
    var w, all := WalkOf(job), Elems(job.group.nodes);
    forall st
      ensures IsFinished(job, st) <==> SolvesAll(w, st)
    {
      SettlesIffSolves(job, all, st);
    }
    if r.Err? {
      FailureIsRaised(job, r.error);
    }
  }

  lemma OneOutputIsHandedOn(job: Job, st: Store, s: Agent, e: Edge, d: Agent, o: Outcome)
    requires Incoming(job.group, d) == [(s, e)] && Comes(job, st, d, o)
    requires s in st.results && s !in st.skipped && st.results[s].Single? && st.results[s].result.IsOk()
    requires Fires(job.world, e, One(st.results[s].result.output.value))
    ensures HandedOn(job, s, e, d, One(st.results[s].result.output.value), o)
  {
    assert Gives(st.results[s], One(st.results[s].result.output.value));
  }

  lemma GatherIsStored(job: Job, st: Store, d: Agent, tasks: seq<TaskSpec>, width: nat, o: Outcome, frame: Frame)
    requires OneGather(job, d, tasks, width, o) && Holds(st, d, o) && RunsUnder(job, d, frame)
    ensures d in st.results && st.results[d].Batch?
    ensures job.world.gather(frame, d, tasks, width) == Ok(st.results[d].results)
  {
    RunsUnderItsFrame(job, d, frame);
    GatheredIsOneGather(job, d, tasks, width, o);
  }

  /** In a finished walk, a node fed without a mapper by one successful output whose fan-out field holds one type of items
      has the results of one gather with one task for every item. */
  lemma FanOutRunsOneTaskAnItem(job: Job, st: Store, s: Agent, e: Edge, d: Agent, frame: Frame) returns (tasks: seq<TaskSpec>)
    requires IsFinished(job, st) && d in job.group.nodes && Incoming(job.group, d) == [(s, e)] && RunsUnder(job, d, frame)
    requires s in st.results && s !in st.skipped && st.results[s].Single? && st.results[s].result.IsOk()
    requires e.mapper.None? && s.fanOut.ListOf? && |s.fanOut.members| == 1
    requires Fires(job.world, e, One(st.results[s].result.output.value))
    ensures TasksOf(job.world, st.results[s].result.output.value.items, tasks)
    ensures d in st.results && st.results[d].Batch?
    ensures job.world.gather(frame, d, tasks, e.maxConcurrency) == Ok(st.results[d].results)
  {
    var items := st.results[s].result.output.value.items;
    assert d in Elems(job.group.nodes) && HasComeTo(job, st, d);
    var o :| Comes(job, st, d, o) && Holds(st, d, o);
    OneOutputIsHandedOn(job, st, s, e, d, o);
    assert FannedOut(job, s.fanOut.members, e.maxConcurrency, d, items, o);
    tasks :| TasksOf(job.world, items, tasks) && OneGather(job, d, tasks, e.maxConcurrency, o);
    GatherIsStored(job, st, d, tasks, e.maxConcurrency, o, frame);
  }
}
