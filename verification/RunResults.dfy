/** What a group run returns, said by the terminal nodes that produced something and their place in the declaration. */
module RunResults {
  import opened Wrappers
  import opened Seqs
  import opened Topology
  import opened GroupSpec
  import opened Dispatch
  import opened Confluence
  import opened GroupWalk
  import opened GroupRun
  import opened Handover

  /** A terminal node that was not skipped. */
  predicate IsFired(g: AgentGroup, st: Store, t: Agent) {
    IsTerminal(g, t) && t in st.results
  }

  /** a is declared before b. */
  ghost predicate Precedes(nodes: seq<Agent>, a: Agent, b: Agent) {
    exists i, j :: 0 <= i < j < |nodes| && nodes[i] == a && nodes[j] == b
  }

  /** The sequence lists the fired terminals once each in declaration order. */
  ghost predicate ListsFired(g: AgentGroup, st: Store, fired: seq<Agent>) {
    && (forall t :: t in fired <==> IsFired(g, st, t))
    && (forall i, j :: 0 <= i < j < |fired| ==> Precedes(g.nodes, fired[i], fired[j]))
  }

  ghost predicate KeepsOrder(a: seq<Agent>, s: seq<Agent>) {
    forall i, j :: 0 <= i < j < |a| ==> Precedes(s, a[i], a[j])
  }

  lemma PrecedesStays(s: seq<Agent>, x: Agent, a: Agent, b: Agent)
    requires Precedes(s, a, b)
    ensures Precedes(s + [x], a, b)
  {
    var i, j :| 0 <= i < j < |s| && s[i] == a && s[j] == b;
    assert (s + [x])[i] == a && (s + [x])[j] == b;
  }

  lemma PrecedesLast(s: seq<Agent>, x: Agent, a: Agent)
    requires a in s
    ensures Precedes(s + [x], a, x)
  {
    var i :| 0 <= i < |s| && s[i] == a;
    assert (s + [x])[i] == a && (s + [x])[|s|] == x;
  }

  lemma {:induction false} RestrictKeepsOrder(s: seq<Agent>, keep: set<Agent>)
    ensures KeepsOrder(Restrict(s, keep), s)
  {
    if s != [] {
      var n := |s| - 1;
      RestrictKeepsOrder(s[..n], keep);
      var before, r := Restrict(s[..n], keep), Restrict(s, keep);
      assert s == s[..n] + [s[n]];
      forall i, j | 0 <= i < j < |r|
        ensures Precedes(s, r[i], r[j])
      {
        if j < |before| {
          PrecedesStays(s[..n], s[n], r[i], r[j]);
        } else {
          assert before[i] in before;
          PrecedesLast(s[..n], s[n], r[i]);
        }
      }
    }
  }

  lemma RestrictSnoc(s: seq<Agent>, x: Agent, keep: set<Agent>)
    ensures Restrict(s + [x], keep) == Restrict(s, keep) + (if x in keep then [x] else [])
  {
    assert (s + [x])[..|s|] == s;
  }

  lemma {:induction false} RestrictTwice(s: seq<Agent>, a: set<Agent>, b: set<Agent>)
    ensures Restrict(Restrict(s, a), b) == Restrict(s, a * b)
  {
    if s != [] {
      var n := |s| - 1;
      RestrictTwice(s[..n], a, b);
      assert s == s[..n] + [s[n]];
      RestrictSnoc(s[..n], s[n], a);
      RestrictSnoc(s[..n], s[n], a * b);
      if s[n] in a {
        RestrictSnoc(Restrict(s[..n], a), s[n], b);
        assert s[n] in a * b <==> s[n] in b;
      } else {
        assert Restrict(s, a) == Restrict(s[..n], a) && Restrict(s, a * b) == Restrict(s[..n], a * b);
      }
    }
  }

  lemma FiredAreListed(g: AgentGroup, st: Store)
    ensures ListsFired(g, st, FiredTerminals(g, st))
  {
    RestrictTwice(g.nodes, TerminalSet(g), st.results.Keys);
    RestrictKeepsOrder(g.nodes, TerminalSet(g) * st.results.Keys);
  }

  /** A fired terminal that ran as a batch, with none declared before it. */
  ghost predicate IsFirstFannedOut(g: AgentGroup, st: Store, t: Agent) {
    && IsFired(g, st, t) && st.results[t].Batch?
    && forall u :: IsFired(g, st, u) && Precedes(g.nodes, u, t) ==> st.results[u].Single?
  }

  /** A fired terminal with no other of its name declared after it. */
  ghost predicate IsLastOfName(g: AgentGroup, st: Store, t: Agent) {
    IsFired(g, st, t) && forall u :: IsFired(g, st, u) && Precedes(g.nodes, t, u) ==> u.name != t.name
  }

  /** Each name of a fired terminal is bound to the result of the last terminal of that name, and nothing else is bound. */
  ghost predicate BindsTerminals(g: AgentGroup, st: Store, outputs: map<string, AgentResult>) {
    && (forall name :: name in outputs <==> exists t :: IsFired(g, st, t) && t.name == name)
    && (forall t {:trigger IsLastOfName(g, st, t)} :: IsLastOfName(g, st, t) ==>
          t.name in outputs && st.results[t] == Single(outputs[t.name]))
  }

  /** The run's result: an error without a fired terminal, an error naming the first that ran as a batch, the one result of
      the only one, or all results by name with their totals. */
  ghost predicate Returns(g: AgentGroup, st: Store, r: Result<GroupOutput, WalkError>) {
    if forall t :: !IsFired(g, st, t) then r == Err(NoTerminalResult)
    else if exists t :: IsFired(g, st, t) && st.results[t].Batch? then
      exists t :: IsFirstFannedOut(g, st, t) && r == Err(TerminalIsFanOut(t.name))
    else if exists t, u :: IsFired(g, st, t) && IsFired(g, st, u) && t != u then
      r.Ok? && r.value.Leaves? && BindsTerminals(g, st, r.value.outputs) && IsAggregate(r.value.metadata, r.value.outputs)
    else exists t :: IsFired(g, st, t) && r.Ok? && r.value.Leaf? && st.results[t] == Single(r.value.result)
  }

  lemma PrecedesOnce(nodes: seq<Agent>, a: Agent, b: Agent)
    requires NoDup(nodes) && Precedes(nodes, a, b)
    ensures a != b && !Precedes(nodes, b, a)
  {
  }

  lemma FirstBatchIsFirst(g: AgentGroup, st: Store, fired: seq<Agent>, i: nat)
    requires NoDup(g.nodes) && ListsFired(g, st, fired) && IsFirstBatch(fired, st, i)
    ensures IsFirstFannedOut(g, st, fired[i])
  {
    assert fired[i] in fired;
    forall u | IsFired(g, st, u) && Precedes(g.nodes, u, fired[i])
      ensures st.results[u].Single?
    {
      assert u in fired;
      var k :| 0 <= k < |fired| && fired[k] == u;
      if k < i {
        assert fired[..i][k] == u;
      } else {
        PrecedesOnce(g.nodes, u, fired[i]);
      }
    }
  }

  lemma LastOfNameIsLast(g: AgentGroup, st: Store, fired: seq<Agent>, t: Agent)
    requires NoDup(g.nodes) && ListsFired(g, st, fired) && NoBatch(fired, st) && IsLastOfName(g, st, t)
    ensures t.name in LeavesOf(fired, st) && st.results[t] == Single(LeavesOf(fired, st)[t.name])
  {
    assert t in fired;
    var k :| 0 <= k < |fired| && fired[k] == t;
    forall j | k < j < |fired|
      ensures fired[j].name != t.name
    {
      assert fired[j] in fired && Precedes(g.nodes, fired[k], fired[j]);
    }
    LastLeafCounts(fired, st, k);
  }

  lemma LeavesBindTerminals(g: AgentGroup, st: Store, fired: seq<Agent>)
    requires NoDup(g.nodes) && ListsFired(g, st, fired) && NoBatch(fired, st)
    ensures BindsTerminals(g, st, LeavesOf(fired, st))
  {
    LeafNames(fired, st);
    forall t | IsLastOfName(g, st, t)
      ensures t.name in LeavesOf(fired, st) && st.results[t] == Single(LeavesOf(fired, st)[t.name])
    {
      LastOfNameIsLast(g, st, fired, t);
    }
    forall name
      ensures name in LeavesOf(fired, st) <==> exists t :: IsFired(g, st, t) && t.name == name
    {
      assert forall t :: t in fired <==> IsFired(g, st, t);
    }
  }

  /** What a finished walk concludes to is what its terminals say. */
  lemma ConcludesIsReturns(g: AgentGroup, st: Store, r: Result<GroupOutput, WalkError>)
    requires NoDup(g.nodes) && Concludes(g, st, r)
    ensures Returns(g, st, r)
  {
    var fired := FiredTerminals(g, st);
    FiredAreListed(g, st);
    if fired == [] {
      assert forall t :: IsFired(g, st, t) ==> t in fired;
    } else {
      assert fired[0] in fired;
      if !NoBatch(fired, st) {
        var i: nat :| IsFirstBatch(fired, st, i) && r == Err(TerminalIsFanOut(fired[i].name));
        FirstBatchIsFirst(g, st, fired, i);
      } else {
        NoBatchMeans(g, st, fired);
        if |fired| == 1 {
          assert forall t :: IsFired(g, st, t) ==> t in fired && t == fired[0];
        } else {
          assert fired[1] in fired && Precedes(g.nodes, fired[0], fired[1]);
          PrecedesOnce(g.nodes, fired[0], fired[1]);
          LeavesBindTerminals(g, st, fired);
        }
      }
    }
  }

  lemma NoBatchMeans(g: AgentGroup, st: Store, fired: seq<Agent>)
    requires ListsFired(g, st, fired) && NoBatch(fired, st)
    ensures forall t :: IsFired(g, st, t) ==> st.results[t].Single?
  {
    forall t | IsFired(g, st, t)
      ensures st.results[t].Single?
    {
      assert t in fired;
    }
  }

  /** What running a group returns when some store settles all nodes is what the terminals of the finished store return. */
  lemma FinishedRunReturns(job: Job, st: Store, r: Result<GroupOutput, WalkError>)
    requires IsDict(job.group) && SolvesAll(WalkOf(job), st) && Concludes(job.group, st, r)
    ensures IsFinished(job, st) && Returns(job.group, st, r)
  {
    SettlesIffSolves(job, Elems(job.group.nodes), st);
    ConcludesIsReturns(job.group, st, r);
  }
}
