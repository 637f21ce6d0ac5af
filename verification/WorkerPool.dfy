/** The queue and worker pool a batch runs on in one process: any number of tasks, workers that take the next index from
    the queue and put a result under it, in every interleaving. */
module WorkerPool {
  import opened Seqs

  datatype AgentResult = Succeeded(output: string) | Failed(error: string)

  datatype Worker = Idle | Busy(index: nat) | Gone

  /** `taken` lists the indices in the order in which they left the queue, `finished` every execution that ended. */
  datatype State = State(queue: seq<nat>, workers: seq<Worker>, results: map<nat, AgentResult>, taken: seq<nat>,
                         finished: seq<(nat, AgentResult)>)

  /** A worker looks at the queue: it takes an index, or leaves because the queue is empty. Or its task ends, with a
      result or with an exception that becomes a failed result. */
  datatype Step = Poll(worker: nat) | Finish(worker: nat, result: AgentResult)

  function Range(from: nat, to: nat): (r: seq<nat>)
    requires from <= to
    ensures |r| == to - from && forall i :: 0 <= i < |r| ==> r[i] == from + i
  {
    seq(to - from, i requires 0 <= i < to - from => from + i)
  }

  function PoolSize(maxConcurrency: int, n: nat): nat {
    var wanted := if maxConcurrency > 1 then maxConcurrency else 1;
    if wanted < n then wanted else n
  }

  function Start(n: nat, maxConcurrency: int): State {
    State(Range(0, n), seq(PoolSize(maxConcurrency, n), _ => Idle), map[], [], [])
  }

  predicate Enabled(s: State, step: Step) {
    match step
    case Poll(w) => w < |s.workers| && s.workers[w].Idle?
    case Finish(w, _) => w < |s.workers| && s.workers[w].Busy?
  }

  function Apply(s: State, step: Step): State
    requires Enabled(s, step)
  {
    match step
    case Poll(w) =>
      if s.queue == [] then s.(workers := s.workers[w := Gone])
      else s.(queue := s.queue[1..], workers := s.workers[w := Busy(s.queue[0])], taken := s.taken + [s.queue[0]])
    case Finish(w, result) =>
      var i := s.workers[w].index;
      s.(workers := s.workers[w := Idle], results := s.results[i := result], finished := s.finished + [(i, result)])
  }

  predicate AllGone(s: State) {
    forall w :: 0 <= w < |s.workers| ==> s.workers[w].Gone?
  }

  function InFlight(workers: seq<Worker>): nat {
    if workers == [] then 0 else InFlight(workers[..|workers| - 1]) + (if workers[|workers| - 1].Busy? then 1 else 0)
  }

  lemma {:induction false} InFlightAtMost(workers: seq<Worker>)
    ensures InFlight(workers) <= |workers|
  {
    if workers != [] {
      InFlightAtMost(workers[..|workers| - 1]);
    }
  }

  lemma {:induction false} InFlightUpdate(workers: seq<Worker>, w: nat, x: Worker)
    requires w < |workers|
    ensures InFlight(workers[w := x]) ==
            InFlight(workers) - (if workers[w].Busy? then 1 else 0) + (if x.Busy? then 1 else 0)
  {
    var n := |workers| - 1;
    if w < n {
      InFlightUpdate(workers[..n], w, x);
      assert workers[w := x][..n] == workers[..n][w := x];
    } else {
      assert workers[w := x][..n] == workers[..n];
    }
  }

  // ------------------------------------------------------------------ invariant

  /** No two workers hold one index; an index that left the queue is held or has its result, not both. */
  ghost predicate Held(s: State) {
    && (forall v, w :: 0 <= v < w < |s.workers| && s.workers[v].Busy? && s.workers[w].Busy? ==>
          s.workers[v].index != s.workers[w].index)
    && (forall w :: 0 <= w < |s.workers| && s.workers[w].Busy? ==>
          s.workers[w].index < |s.taken| && s.workers[w].index !in s.results)
    && (forall i :: i in s.results ==> i < |s.taken|)
    && (forall i :: 0 <= i < |s.taken| ==> i in s.results || IsHeld(s.workers, i))
  }

  ghost predicate IsHeld(workers: seq<Worker>, i: nat) {
    exists w :: 0 <= w < |workers| && workers[w] == Busy(i)
  }

  ghost predicate Logged(s: State) {
    && (forall k :: 0 <= k < |s.finished| ==> s.finished[k].0 in s.results && s.results[s.finished[k].0] == s.finished[k].1)
    && (forall k, l :: 0 <= k < l < |s.finished| ==> s.finished[k].0 != s.finished[l].0)
    && |s.finished| == |s.results|
  }

  ghost predicate Inv(s: State, n: nat) {
    && |s.taken| <= n && s.taken == Range(0, |s.taken|) && s.queue == Range(|s.taken|, n)
    && Held(s) && Logged(s)
    && (forall w :: 0 <= w < |s.workers| && s.workers[w].Gone? ==> s.queue == [])
  }

  lemma PollKeepsInv(s: State, w: nat, n: nat)
    requires Inv(s, n) && Enabled(s, Poll(w))
    ensures Inv(Apply(s, Poll(w)), n)
  {
    var s' := Apply(s, Poll(w));
    forall i | 0 <= i < |s'.taken| && i !in s'.results ensures IsHeld(s'.workers, i) {
      if i < |s.taken| {
        assert IsHeld(s.workers, i);
        var v :| 0 <= v < |s.workers| && s.workers[v] == Busy(i);
        assert s'.workers[v] == Busy(i);
      } else {
        assert s'.workers[w] == Busy(i);
      }
    }
  }

  lemma FinishKeepsInv(s: State, w: nat, result: AgentResult, n: nat)
    requires Inv(s, n) && Enabled(s, Finish(w, result))
    ensures Inv(Apply(s, Finish(w, result)), n)
  {
    var s' := Apply(s, Finish(w, result));
    var index := s.workers[w].index;
    assert s'.results.Keys == s.results.Keys + {index};
    forall i | 0 <= i < |s'.taken| && i !in s'.results ensures IsHeld(s'.workers, i) {
      assert IsHeld(s.workers, i);
      var v :| 0 <= v < |s.workers| && s.workers[v] == Busy(i);
      assert s'.workers[v] == Busy(i);
    }
  }

  lemma StepKeepsInv(s: State, step: Step, n: nat)
    requires Inv(s, n) && Enabled(s, step)
    ensures Inv(Apply(s, step), n) && |Apply(s, step).workers| == |s.workers|
  {
    match step
    case Poll(w) => PollKeepsInv(s, w, n);
    case Finish(w, result) => FinishKeepsInv(s, w, result, n);
  }

  ghost predicate Runs(s: State, steps: seq<Step>, t: State)
    decreases |steps|
  {
    if steps == [] then s == t
    else Enabled(s, steps[0]) && Runs(Apply(s, steps[0]), steps[1..], t)
  }

  lemma {:induction false} RunKeepsInv(s: State, steps: seq<Step>, t: State, n: nat)
    requires Inv(s, n) && Runs(s, steps, t)
    ensures Inv(t, n) && |t.workers| == |s.workers|
    decreases |steps|
  {
    if steps != [] {
      StepKeepsInv(s, steps[0], n);
      RunKeepsInv(Apply(s, steps[0]), steps[1..], t, n);
    }
  }

  // ------------------------------------------------------------------ what every batch comes to

  /** In every interleaving the tasks start in input order, each once, and no more than the pool size are in flight. */
  lemma StartsEachOnce(n: nat, maxConcurrency: int, steps: seq<Step>, t: State)
    requires Runs(Start(n, maxConcurrency), steps, t)
    ensures |t.taken| <= n && t.taken == Range(0, |t.taken|)
    ensures InFlight(t.workers) <= PoolSize(maxConcurrency, n)
  {
    RunKeepsInv(Start(n, maxConcurrency), steps, t, n);
    InFlightAtMost(t.workers);
  }

  function Gathered(results: map<nat, AgentResult>, n: nat): (r: seq<AgentResult>)
    requires forall i :: 0 <= i < n ==> i in results
    ensures |r| == n && forall i :: 0 <= i < n ==> r[i] == results[i]
  {
    seq(n, i requires 0 <= i < n => results[i])
  }

  ghost predicate Complete(s: State, n: nat) {
    && (forall i :: 0 <= i < n ==> i in s.results)
    && |s.finished| == n
    && (forall k, l :: 0 <= k < l < |s.finished| ==> s.finished[k].0 != s.finished[l].0)
    && (forall k :: 0 <= k < |s.finished| ==> s.finished[k].0 < n && s.results[s.finished[k].0] == s.finished[k].1)
  }

  lemma RangeElems(n: nat)
    ensures forall i: nat :: i in Elems(Range(0, n)) <==> i < n
  {
    forall i: nat ensures i in Elems(Range(0, n)) <==> i < n {
      if i < n {
        assert Range(0, n)[i] == i;
      }
    }
  }

  lemma GoneIsComplete(s: State, n: nat)
    requires Inv(s, n) && AllGone(s) && (n > 0 ==> s.workers != [])
    ensures Complete(s, n)
  {
    if n > 0 {
      assert s.workers[0].Gone?;
    }
    assert |s.taken| == n;
    forall i | 0 <= i < n ensures i in s.results {
      assert i in s.results || IsHeld(s.workers, i);
    }
    NoDupCard(Range(0, n));
    RangeElems(n);
    assert s.results.Keys == Elems(Range(0, n));
  }

  /** However the workers interleave, when all of them have left every task was executed exactly once and the list returned
      has, at each task's index, what that execution came to, failures included. */
  lemma EveryTaskIsAnswered(n: nat, maxConcurrency: int, steps: seq<Step>, t: State)
    requires Runs(Start(n, maxConcurrency), steps, t) && AllGone(t)
    ensures Complete(t, n)
    ensures forall k :: 0 <= k < n ==> Gathered(t.results, n)[t.finished[k].0] == t.finished[k].1
  {
    RunKeepsInv(Start(n, maxConcurrency), steps, t, n);
    GoneIsComplete(t, n);
  }

  // ------------------------------------------------------------------ the pool drains

  function Live(workers: seq<Worker>): nat {
    if workers == [] then 0 else Live(workers[..|workers| - 1]) + (if workers[|workers| - 1].Gone? then 0 else 1)
  }

  lemma {:induction false} LiveUpdate(workers: seq<Worker>, w: nat, x: Worker)
    requires w < |workers|
    ensures Live(workers[w := x]) == Live(workers) - (if workers[w].Gone? then 0 else 1) + (if x.Gone? then 0 else 1)
  {
    var n := |workers| - 1;
    if w < n {
      LiveUpdate(workers[..n], w, x);
      assert workers[w := x][..n] == workers[..n][w := x];
    } else {
      assert workers[w := x][..n] == workers[..n];
    }
  }

  /** The steps still to be taken: two for each index in the queue, one for each in flight, one for each worker to leave. */
  function Left(s: State): nat {
    2 * |s.queue| + InFlight(s.workers) + Live(s.workers)
  }

  lemma StepIsOneLess(s: State, step: Step)
    requires Enabled(s, step)
    ensures Left(Apply(s, step)) == Left(s) - 1
  {
    var w := step.worker;
    var x := Apply(s, step).workers[w];
    InFlightUpdate(s.workers, w, x);
    LiveUpdate(s.workers, w, x);
  }

  lemma {:induction false} AllLive(workers: seq<Worker>)
    requires forall w :: 0 <= w < |workers| ==> workers[w].Idle?
    ensures Live(workers) == |workers| && InFlight(workers) == 0
  {
    if workers != [] {
      AllLive(workers[..|workers| - 1]);
    }
  }

  lemma {:induction false} NoneLeft(workers: seq<Worker>)
    ensures Live(workers) == 0 <==> forall w :: 0 <= w < |workers| ==> workers[w].Gone?
    ensures Live(workers) == 0 ==> InFlight(workers) == 0
  {
    if workers != [] {
      NoneLeft(workers[..|workers| - 1]);
    }
  }

  lemma {:induction false} RunsCountDown(s: State, steps: seq<Step>, t: State)
    requires Runs(s, steps, t)
    ensures Left(t) + |steps| == Left(s)
    decreases |steps|
  {
    if steps != [] {
      StepIsOneLess(s, steps[0]);
      RunsCountDown(Apply(s, steps[0]), steps[1..], t);
    }
  }

  /** Every interleaving ends: all workers have left exactly when 2n steps plus one for each worker have been taken, and
      before that some worker can move. */
  lemma PoolDrains(n: nat, maxConcurrency: int, steps: seq<Step>, t: State)
    requires Runs(Start(n, maxConcurrency), steps, t)
    ensures |steps| <= 2 * n + PoolSize(maxConcurrency, n)
    ensures AllGone(t) <==> |steps| == 2 * n + PoolSize(maxConcurrency, n)
    ensures !AllGone(t) ==> exists step :: Enabled(t, step)
  {
    var s := Start(n, maxConcurrency);
    AllLive(s.workers);
    RunsCountDown(s, steps, t);
    RunKeepsInv(s, steps, t, n);
    NoneLeft(t.workers);
    if AllGone(t) {
      assert n > 0 ==> t.workers[0].Gone?;
    } else {
      var w :| 0 <= w < |t.workers| && !t.workers[w].Gone?;
      assert Enabled(t, Poll(w)) || Enabled(t, Finish(w, Failed("")));
    }
  }

  // ------------------------------------------------------------------ a batch as one program

  lemma {:induction false} RunsExtend(s: State, steps: seq<Step>, mid: State, step: Step)
    requires Runs(s, steps, mid) && Enabled(mid, step)
    ensures Runs(s, steps + [step], Apply(mid, step))
    decreases |steps|
  {
    if steps == [] {
      assert (steps + [step])[1..] == [];
    } else {
      RunsExtend(Apply(s, steps[0]), steps[1..], mid, step);
      assert (steps + [step])[1..] == steps[1..] + [step];
    }
  }

  function FirstLive(workers: seq<Worker>, from: nat): (w: nat)
    requires exists w :: from <= w < |workers| && !workers[w].Gone?
    ensures w < |workers| && !workers[w].Gone?
    decreases |workers| - from
  {
    if !workers[from].Gone? then from else FirstLive(workers, from + 1)
  }

  /** The result is what task i came to at some moment. */
  ghost predicate CameFrom(outcome: (State, nat) -> AgentResult, i: nat, r: AgentResult) {
    exists s {:trigger outcome(s, i)} :: r == outcome(s, i)
  }

  /** The event loop moves one worker at a time, whichever `pick` says as long as it has not left; `outcome` says what a
      task comes to when it ends. The list is returned once all workers have left. */
  method Gather(n: nat, maxConcurrency: int, pick: State -> nat, outcome: (State, nat) -> AgentResult)
    returns (results: seq<AgentResult>, ghost steps: seq<Step>, ghost t: State)
    ensures Runs(Start(n, maxConcurrency), steps, t) && AllGone(t)
    ensures |results| == n && forall i :: 0 <= i < n ==> i in t.results && results[i] == t.results[i]
    ensures forall i :: 0 <= i < n ==> CameFrom(outcome, i, results[i])
  {
    var s := Start(n, maxConcurrency);
    steps := [];
    while !AllGone(s)
      invariant Runs(Start(n, maxConcurrency), steps, s)
      invariant forall i :: i in s.results ==> CameFrom(outcome, i, s.results[i])
      decreases Left(s)
    {
      var w := pick(s);
      if w >= |s.workers| || s.workers[w].Gone? {
        w := FirstLive(s.workers, 0);
      }
      var step := if s.workers[w].Idle? then Poll(w) else Finish(w, outcome(s, s.workers[w].index));
      StepIsOneLess(s, step);
      RunsExtend(Start(n, maxConcurrency), steps, s, step);
      steps := steps + [step];
      s := Apply(s, step);
    }
    t := s;
    EveryTaskIsAnswered(n, maxConcurrency, steps, t);
    results := Gathered(s.results, n);
  }
}
