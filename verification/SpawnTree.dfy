/** Cascading spawns: the context a dispatch derives from its parent's frame, and what chains and trees of accepted
    dispatches look like, across broker hops too. */
module SpawnTree {
  import opened Wrappers
  import opened Seqs

  /** `rest` stands for the conversation and the metadata, which context passers own. */
  datatype AgentContext = AgentContext(depth: int, parentAgent: Option<string>, parentTraceId: Option<string>,
                                       ancestors: set<string>, rest: nat)

  datatype SpawnFrame = SpawnFrame(agentName: string, context: AgentContext, traceId: string)

  datatype ParentSpawn = ParentSpawn(agentName: string, traceId: string, depth: int, ancestors: set<string>)

  datatype Options = Options(maxSpawnDepth: nat, strict: bool)

  const TopLevel := AgentContext(0, None, None, {}, 0)

  function ChildContext(parent: Option<SpawnFrame>): AgentContext {
    match parent
    case None => TopLevel
    case Some(f) =>
      AgentContext(f.context.depth + 1, Some(f.agentName), Some(f.traceId), f.context.ancestors + {f.agentName}, 0)
  }

  datatype Verdict = Accepted(context: AgentContext) | SpawnCycle | DepthLimit

  /** The checks before a dispatch: the cycle check under the strict policy, then the depth limit. */
  function Admit(opts: Options, parent: Option<SpawnFrame>, name: string): Verdict {
    if opts.strict && parent.Some? && name in parent.value.context.ancestors + {parent.value.agentName} then SpawnCycle
    else if ChildContext(parent).depth >= opts.maxSpawnDepth then DepthLimit
    else Accepted(ChildContext(parent))
  }

  /** Whatever the context passer returned, the spawn bookkeeping is put back. */
  function Overlay(prepared: AgentContext, context: AgentContext): AgentContext {
    prepared.(depth := context.depth, parentAgent := context.parentAgent, parentTraceId := context.parentTraceId,
              ancestors := context.ancestors)
  }

  function Dispatched(opts: Options, parent: Option<SpawnFrame>, name: string, traceId: string, prepared: AgentContext)
    : Option<SpawnFrame>
  {
    match Admit(opts, parent, name)
    case Accepted(context) => Some(SpawnFrame(name, Overlay(prepared, context), traceId))
    case _ => None
  }

  // ------------------------------------------------------------------ broker hops

  /** The parent linkage put on a task message. */
  function ParentSpawnOf(context: AgentContext): Option<ParentSpawn> {
    if context.parentAgent.None? || context.parentTraceId.None? then None
    else
      Some(ParentSpawn(context.parentAgent.value, context.parentTraceId.value,
                       if context.depth - 1 > 0 then context.depth - 1 else 0,
                       context.ancestors - {context.parentAgent.value}))
  }

  /** The frame a worker installs before it runs the task. */
  function RebuiltFrame(p: Option<ParentSpawn>): Option<SpawnFrame> {
    match p
    case None => None
    case Some(p) => Some(SpawnFrame(p.agentName, AgentContext(p.depth, None, None, p.ancestors, 0), p.traceId))
  }

  /** A hop carries the child's context to the worker unchanged, so the worker admits what the publisher admitted. */
  lemma HopKeepsContext(opts: Options, parent: Option<SpawnFrame>, name: string, prepared: AgentContext)
    requires parent.Some? ==> parent.value.context.depth >= 0
    ensures var sent := Overlay(prepared, ChildContext(parent));
            var there := RebuiltFrame(ParentSpawnOf(sent));
            ChildContext(there) == ChildContext(parent) && Admit(opts, there, name) == Admit(opts, parent, name)
  {
    if parent.Some? {
      var f := parent.value;
      assert f.context.ancestors + {f.agentName} - {f.agentName} + {f.agentName} == f.context.ancestors + {f.agentName};
    }
  }

  /** The parent's own ancestors survive the hop exactly when its name is not among them. */
  lemma HopKeepsParentIffNoReentry(f: SpawnFrame)
    requires f.context.depth >= 0
    ensures var there := RebuiltFrame(ParentSpawnOf(ChildContext(Some(f))));
            there.Some? && there.value.agentName == f.agentName && there.value.traceId == f.traceId &&
            there.value.context.depth == f.context.depth &&
            (there.value.context.ancestors == f.context.ancestors <==> f.agentName !in f.context.ancestors)
  {
    var a := f.context.ancestors;
    assert a + {f.agentName} - {f.agentName} == a - {f.agentName};
  }

  // ------------------------------------------------------------------ trees of accepted dispatches

  /** A dispatch and the dispatches made from inside it. `prepared` is what the context passer returned; `hops` says
      that the dispatch went through a broker. */
  datatype Spawn = Spawn(name: string, traceId: string, prepared: AgentContext, hops: bool, children: seq<Spawn>)

  /** The frame the runtime that executes the dispatch sees as its parent. */
  function SeenParent(parent: Option<SpawnFrame>, s: Spawn): Option<SpawnFrame> {
    if s.hops then RebuiltFrame(ParentSpawnOf(Overlay(s.prepared, ChildContext(parent)))) else parent
  }

  function FrameOf(opts: Options, parent: Option<SpawnFrame>, s: Spawn): Option<SpawnFrame> {
    Dispatched(opts, SeenParent(parent, s), s.name, s.traceId, s.prepared)
  }

  /** The dispatch and everything below it was accepted. */
  ghost predicate AdmittedTree(opts: Options, parent: Option<SpawnFrame>, s: Spawn)
    decreases s
  {
    && FrameOf(opts, parent, s).Some?
    && (forall c :: c in s.children ==> AdmittedTree(opts, FrameOf(opts, parent, s), c))
  }

  /** path lists the names above a frame and its own, from the top-level dispatch down. */
  ghost predicate OnPath(opts: Options, f: SpawnFrame, path: seq<string>) {
    && path != [] && path[|path| - 1] == f.agentName
    && f.context.depth == |path| - 1 < opts.maxSpawnDepth
    && f.context.ancestors == Elems(path[..|path| - 1])
    && (opts.strict ==> NoDup(path))
  }

  ghost predicate ParentOnPath(opts: Options, parent: Option<SpawnFrame>, path: seq<string>) {
    if parent.None? then path == [] else OnPath(opts, parent.value, path)
  }

  /** A dispatch accepted below a path extends it, whatever the context passer returned and whether or not it hopped. */
  lemma AcceptedExtendsPath(opts: Options, parent: Option<SpawnFrame>, path: seq<string>, s: Spawn)
    requires ParentOnPath(opts, parent, path) && FrameOf(opts, parent, s).Some?
    ensures OnPath(opts, FrameOf(opts, parent, s).value, path + [s.name])
    ensures opts.strict ==> s.name !in path
  {
    HopKeepsContext(opts, parent, s.name, s.prepared);
    var f := FrameOf(opts, parent, s).value;
    assert Admit(opts, SeenParent(parent, s), s.name) == Admit(opts, parent, s.name);
    assert (path + [s.name])[..|path|] == path;
    assert f.context.ancestors == ChildContext(parent).ancestors;
    if parent.Some? {
      assert path == path[..|path| - 1] + [path[|path| - 1]];
      assert Elems(path) == ChildContext(parent).ancestors;
    }
    if opts.strict {
      assert s.name !in Elems(path);
      NoDupConcat(path, [s.name]);
    }
  }

  /** The spawns met going down the tree along the given child positions. */
  ghost predicate IsChain(s: Spawn, chain: seq<Spawn>)
    decreases |chain|
  {
    chain != [] && chain[0] == s &&
    (|chain| > 1 ==> chain[1] in s.children && IsChain(chain[1], chain[1..]))
  }

  function Names(chain: seq<Spawn>): (r: seq<string>)
    ensures |r| == |chain| && forall i :: 0 <= i < |r| ==> r[i] == chain[i].name
  {
    if chain == [] then [] else [chain[0].name] + Names(chain[1..])
  }

  lemma Regroup(a: seq<string>, b: seq<string>, c: seq<string>)
    ensures a + (b + c) == a + b + c
  {
  }

  lemma NamesConcat(path: seq<string>, chain: seq<Spawn>)
    requires chain != []
    ensures path + Names(chain) == path + [chain[0].name] + Names(chain[1..])
    ensures |chain| == 1 ==> path + Names(chain) == path + [chain[0].name]
  {
    Regroup(path, [chain[0].name], Names(chain[1..]));
    if |chain| == 1 {
      assert Names(chain[1..]) == [];
    }
  }

  lemma {:induction false} ChainOnPath(opts: Options, parent: Option<SpawnFrame>, path: seq<string>, s: Spawn,
                                       chain: seq<Spawn>) returns (f: SpawnFrame)
    requires ParentOnPath(opts, parent, path) && AdmittedTree(opts, parent, s) && IsChain(s, chain)
    ensures OnPath(opts, f, path + Names(chain))
    ensures f.agentName == chain[|chain| - 1].name
    decreases |chain|
  {
    AcceptedExtendsPath(opts, parent, path, s);
    NamesConcat(path, chain);
    if |chain| == 1 {
      f := FrameOf(opts, parent, s).value;
    } else {
      f := ChainOnPath(opts, FrameOf(opts, parent, s), path + [s.name], chain[1], chain[1..]);
    }
  }

  /** In an accepted tree every dispatch's ancestors are exactly the names above it, its depth is their number and is
      below the limit; under the strict policy its own name is not among them and no name repeats on the way down. */
  lemma DispatchKnowsItsPath(opts: Options, root: Spawn, chain: seq<Spawn>) returns (f: SpawnFrame)
    requires AdmittedTree(opts, None, root) && IsChain(root, chain)
    ensures f.agentName == chain[|chain| - 1].name
    ensures f.context.ancestors == Elems(Names(chain)[..|chain| - 1])
    ensures f.context.depth == |chain| - 1 < opts.maxSpawnDepth
    ensures opts.strict ==> NoDup(Names(chain)) && f.agentName !in f.context.ancestors
                            && |f.context.ancestors| == f.context.depth
  {
    f := ChainOnPath(opts, None, [], root, chain);
    var names := Names(chain);
    assert [] + names == names;
    if opts.strict {
      NoDupCard(names[..|names| - 1]);
    }
  }

  /** Under the strict policy a chain is no longer than the number of registered names. */
  lemma ChainsBoundedByRegistry(opts: Options, root: Spawn, chain: seq<Spawn>, registry: set<string>)
    requires opts.strict && AdmittedTree(opts, None, root) && IsChain(root, chain)
    requires forall i :: 0 <= i < |chain| ==> chain[i].name in registry
    ensures |chain| <= |registry|
  {
    var f := DispatchKnowsItsPath(opts, root, chain);
    NoDupCard(Names(chain));
    SubsetCard(Elems(Names(chain)), registry);
  }

  function Size(s: Spawn): nat {
    1 + SizeAll(s.children)
  }

  function SizeAll(cs: seq<Spawn>): nat {
    if cs == [] then 0 else Size(cs[0]) + SizeAll(cs[1..])
  }

  ghost predicate BranchesAtMost(s: Spawn, b: nat) {
    |s.children| <= b && forall c :: c in s.children ==> BranchesAtMost(c, b)
  }

  /** 1 + b + b*b + ... with n terms. */
  function Geometric(b: nat, n: nat): nat {
    if n == 0 then 0 else 1 + b * Geometric(b, n - 1)
  }

  lemma MoreOf(m: nat, n: nat, g: nat)
    requires m <= n
    ensures m * g <= n * g
  {
  }

  lemma {:induction false} TreeBelow(opts: Options, parent: Option<SpawnFrame>, path: seq<string>, s: Spawn, b: nat)
    requires ParentOnPath(opts, parent, path) && AdmittedTree(opts, parent, s) && BranchesAtMost(s, b)
    ensures |path| < opts.maxSpawnDepth && Size(s) <= Geometric(b, opts.maxSpawnDepth - |path|)
    decreases s, 1
  {
    AcceptedExtendsPath(opts, parent, path, s);
    var left := opts.maxSpawnDepth - |path| - 1;
    ForestBelow(opts, FrameOf(opts, parent, s), path + [s.name], s, s.children, b);
    MoreOf(|s.children|, b, Geometric(b, left));
  }

  lemma {:induction false} ForestBelow(opts: Options, frame: Option<SpawnFrame>, path: seq<string>, s: Spawn,
                                       cs: seq<Spawn>, b: nat)
    requires frame.Some? && ParentOnPath(opts, frame, path)
    requires forall c :: c in cs ==> c in s.children && AdmittedTree(opts, frame, c) && BranchesAtMost(c, b)
    ensures |path| <= opts.maxSpawnDepth
    ensures SizeAll(cs) <= |cs| * Geometric(b, opts.maxSpawnDepth - |path|)
    decreases s, 0, |cs|
  {
    if cs != [] {
      assert cs[0] in cs;
      var i :| 0 <= i < |s.children| && s.children[i] == cs[0];
      assert s.children[i] < s;
      TreeBelow(opts, frame, path, cs[0], b);
      ForestBelow(opts, frame, path, s, cs[1..], b);
      var g := Geometric(b, opts.maxSpawnDepth - |path|);
      assert |cs| * g == g + (|cs| - 1) * g;
    }
  }

  /** A tree whose dispatches branch at most b ways has at most 1 + b + b^2 + ... dispatches, maxSpawnDepth terms. */
  lemma TreesAreBounded(opts: Options, root: Spawn, b: nat)
    requires AdmittedTree(opts, None, root) && BranchesAtMost(root, b)
    ensures Size(root) <= Geometric(b, opts.maxSpawnDepth)
  {
    TreeBelow(opts, None, [], root, b);
  }

  // ------------------------------------------------------------------ exactly which dispatches are accepted

  /** Below a path a dispatch is accepted exactly if there is room under the depth limit and, under the strict policy, its
      name is not on the path; a refusal says which, the cycle first. Hops make no difference. */
  lemma AcceptedIff(opts: Options, parent: Option<SpawnFrame>, path: seq<string>, s: Spawn)
    requires ParentOnPath(opts, parent, path)
    ensures FrameOf(opts, parent, s).Some? <==> |path| < opts.maxSpawnDepth && (opts.strict ==> s.name !in path)
    ensures Admit(opts, SeenParent(parent, s), s.name).SpawnCycle? <==> opts.strict && s.name in path
    ensures Admit(opts, SeenParent(parent, s), s.name).DepthLimit? <==>
            !(opts.strict && s.name in path) && |path| >= opts.maxSpawnDepth
  {
    HopKeepsContext(opts, parent, s.name, s.prepared);
    if parent.Some? {
      var before := path[..|path| - 1];
      assert path == before + [parent.value.agentName];
      assert Elems(path) == parent.value.context.ancestors + {parent.value.agentName};
      assert s.name in path <==> s.name in Elems(path);
    }
  }

  /** The frame of an accepted dispatch: its own name and trace, its parent's as linkage, and what the context passer made of
      the conversation. */
  lemma AcceptedFrame(opts: Options, parent: Option<SpawnFrame>, path: seq<string>, s: Spawn)
    requires ParentOnPath(opts, parent, path) && FrameOf(opts, parent, s).Some?
    ensures var f := FrameOf(opts, parent, s).value;
            && f.agentName == s.name && f.traceId == s.traceId && f.context.rest == s.prepared.rest
            && f.context.parentAgent == (if parent.Some? then Some(parent.value.agentName) else None)
            && f.context.parentTraceId == (if parent.Some? then Some(parent.value.traceId) else None)
  {
    HopKeepsContext(opts, parent, s.name, s.prepared);
  }

  /** No chain below the path is too long and, under the strict policy, none repeats a name. */
  ghost predicate ChainsFit(opts: Options, path: seq<string>, s: Spawn) {
    forall chain {:trigger IsChain(s, chain)} :: IsChain(s, chain) ==>
      |path| + |chain| <= opts.maxSpawnDepth && (opts.strict ==> NoDup(path + Names(chain)))
  }

  lemma SelfFits(opts: Options, path: seq<string>, s: Spawn)
    requires ChainsFit(opts, path, s)
    ensures |path| < opts.maxSpawnDepth && (opts.strict ==> s.name !in path)
  {
    assert IsChain(s, [s]);
    assert Names([s]) == [s.name];
    var longer := path + [s.name];
    assert longer[|path|] == s.name && forall i :: 0 <= i < |path| ==> longer[i] == path[i];
  }

  lemma ChildFits(opts: Options, path: seq<string>, s: Spawn, c: Spawn)
    requires ChainsFit(opts, path, s) && c in s.children
    ensures ChainsFit(opts, path + [s.name], c)
  {
    forall chain | IsChain(c, chain)
      ensures |path + [s.name]| + |chain| <= opts.maxSpawnDepth
      ensures opts.strict ==> NoDup(path + [s.name] + Names(chain))
    {
      var longer := [s] + chain;
      assert longer[1..] == chain;
      assert IsChain(s, longer);
      NamesConcat(path, longer);
    }
  }

  lemma {:induction false} FittingTreeIsAdmitted(opts: Options, parent: Option<SpawnFrame>, path: seq<string>, s: Spawn)
    requires ParentOnPath(opts, parent, path) && ChainsFit(opts, path, s)
    ensures AdmittedTree(opts, parent, s)
    decreases s
  {
    SelfFits(opts, path, s);
    AcceptedIff(opts, parent, path, s);
    AcceptedExtendsPath(opts, parent, path, s);
    forall c | c in s.children
      ensures AdmittedTree(opts, FrameOf(opts, parent, s), c)
    {
      var i :| 0 <= i < |s.children| && s.children[i] == c;
      assert s.children[i] < s;
      ChildFits(opts, path, s, c);
      FittingTreeIsAdmitted(opts, FrameOf(opts, parent, s), path + [s.name], c);
    }
  }

  /** The chain is no longer than the depth limit and, under the strict policy, has no name twice. */
  ghost predicate Fits(opts: Options, chain: seq<Spawn>) {
    |chain| <= opts.maxSpawnDepth && (opts.strict ==> NoDup(Names(chain)))
  }

  lemma AdmittedChainsFit(opts: Options, root: Spawn, chain: seq<Spawn>)
    requires AdmittedTree(opts, None, root) && IsChain(root, chain)
    ensures Fits(opts, chain)
  {
    var f := DispatchKnowsItsPath(opts, root, chain);
  }

  ghost predicate AllChainsFit(opts: Options, root: Spawn) {
    forall chain {:trigger IsChain(root, chain)} :: IsChain(root, chain) ==> Fits(opts, chain)
  }

  lemma WholeTreeFits(opts: Options, root: Spawn)
    requires AllChainsFit(opts, root)
    ensures ChainsFit(opts, [], root)
  {
    var path: seq<string> := [];
    forall chain | IsChain(root, chain)
      ensures |path| + |chain| <= opts.maxSpawnDepth && (opts.strict ==> NoDup(path + Names(chain)))
    {
      assert path + Names(chain) == Names(chain);
    }
  }

  /** A whole tree of dispatches is accepted exactly if no chain from its root is longer than the depth limit and, under the
      strict policy, no chain has a name twice. */
  lemma AdmittedIffChainsFit(opts: Options, root: Spawn)
    ensures AdmittedTree(opts, None, root) <==> AllChainsFit(opts, root)
  {
    if AdmittedTree(opts, None, root) {
      forall chain | IsChain(root, chain)
        ensures Fits(opts, chain)
      {
        AdmittedChainsFit(opts, root, chain);
      }
    }
    if AllChainsFit(opts, root) {
      WholeTreeFits(opts, root);
      FittingTreeIsAdmitted(opts, None, [], root);
    }
  }

  // ------------------------------------------------------------------ re-entry under the permissive policy

  const Inner := Spawn("a", "t1", TopLevel, false, [])

  /** An agent that spawns itself. */
  const Reentrant := Spawn("a", "t0", TopLevel, false, [Inner])

  /** The permissive policy accepts a tree in which a frame has its own name among its ancestors; a hop below that frame
      rebuilds it without them. */
  lemma ReentryLosesAncestors()
    ensures var opts := Options(2, false);
            && AdmittedTree(opts, None, Reentrant)
            && var inner := FrameOf(opts, FrameOf(opts, None, Reentrant), Inner);
            && inner.Some? && inner.value.context.ancestors == {"a"} && inner.value.agentName == "a"
            && RebuiltFrame(ParentSpawnOf(ChildContext(inner))).value.context.ancestors == {}
  {
    var opts := Options(2, false);
    var outer := FrameOf(opts, None, Reentrant);
    assert outer == Some(SpawnFrame("a", TopLevel, "t0"));
    assert ChildContext(outer).ancestors == {"a"};
    var inner := FrameOf(opts, outer, Inner);
    assert inner == Some(SpawnFrame("a", AgentContext(1, Some("a"), Some("t0"), {"a"}, 0), "t1"));
    assert AdmittedTree(opts, outer, Inner);
    assert forall c :: c in Reentrant.children ==> c == Inner;
    HopKeepsParentIffNoReentry(inner.value);
    assert ChildContext(inner).ancestors - {"a"} == {};
  }
}
