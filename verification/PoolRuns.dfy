/** The runs of the worker pool, said by their steps: which execution gave each result, and how many run at a time. */
module PoolRuns {
  import opened WorkerPool

  // ------------------------------------------------------------------ which execution gave which result

  /** How often workers have gone to the queue. */
  function Polls(past: seq<Step>): nat {
    if past == [] then 0 else Polls(past[..|past| - 1]) + (if past[|past| - 1].Poll? then 1 else 0)
  }

  ghost predicate IdleBetween(past: seq<Step>, p: int, f: int, w: nat) {
    forall k :: p < k < f && 0 <= k < |past| ==> past[k].worker != w
  }

  /** The worker went to the queue as the i-th to do so, counted from zero, and has done nothing since. */
  ghost predicate Took(past: seq<Step>, w: nat, i: nat) {
    exists p :: 0 <= p < |past| && past[p] == Poll(w) && Polls(past[..p]) == i && IdleBetween(past, p, |past|, w)
  }

  /** Some worker went to the queue as the i-th and next ended with the result. */
  ghost predicate EndedWith(past: seq<Step>, i: nat, r: AgentResult) {
    exists f :: 0 <= f < |past| && past[f].Finish? && past[f].result == r && Took(past[..f], past[f].worker, i)
  }

  /** Busy workers took the index they hold, stored results are what executions ended with, and while the queue is not empty
      it has the indices that nobody went for. */
  ghost predicate Recorded(past: seq<Step>, s: State) {
    && (forall w :: 0 <= w < |s.workers| && s.workers[w].Busy? ==> Took(past, w, s.workers[w].index))
    && (forall i :: i in s.results ==> EndedWith(past, i, s.results[i]))
    && (s.queue != [] ==> s.queue[0] == Polls(past))
  }

  lemma TookStays(past: seq<Step>, step: Step, w: nat, i: nat)
    requires Took(past, w, i) && step.worker != w
    ensures Took(past + [step], w, i)
  {
    var p :| 0 <= p < |past| && past[p] == Poll(w) && Polls(past[..p]) == i && IdleBetween(past, p, |past|, w);
    var all := past + [step];
    assert all[p] == past[p] && all[..p] == past[..p] && IdleBetween(all, p, |all|, w);
  }

  lemma TookNow(past: seq<Step>, w: nat)
    ensures Took(past + [Poll(w)], w, Polls(past))
  {
    var all := past + [Poll(w)];
    assert all[|past|] == Poll(w) && all[..|past|] == past && IdleBetween(all, |past|, |all|, w);
  }

  lemma EndedStays(past: seq<Step>, step: Step, i: nat, r: AgentResult)
    requires EndedWith(past, i, r)
    ensures EndedWith(past + [step], i, r)
  {
    var f :| 0 <= f < |past| && past[f].Finish? && past[f].result == r && Took(past[..f], past[f].worker, i);
    var all := past + [step];
    assert all[f] == past[f] && all[..f] == past[..f];
  }

  lemma EndedNow(past: seq<Step>, w: nat, i: nat, r: AgentResult)
    requires Took(past, w, i)
    ensures EndedWith(past + [Finish(w, r)], i, r)
  {
    var all := past + [Finish(w, r)];
    assert all[|past|] == Finish(w, r) && all[..|past|] == past;
  }

  lemma WorkersRecorded(past: seq<Step>, s: State, step: Step)
    requires Enabled(s, step) && Recorded(past, s)
    ensures forall w :: 0 <= w < |s.workers| && Apply(s, step).workers[w].Busy? ==>
              Took(past + [step], w, Apply(s, step).workers[w].index)
  {
    var s' := Apply(s, step);
    forall w | 0 <= w < |s.workers| && s'.workers[w].Busy?
      ensures Took(past + [step], w, s'.workers[w].index)
    {
      if w == step.worker {
        TookNow(past, w);
      } else {
        TookStays(past, step, w, s.workers[w].index);
      }
    }
  }

  lemma ResultsRecorded(past: seq<Step>, s: State, step: Step)
    requires Enabled(s, step) && Recorded(past, s)
    ensures forall i :: i in Apply(s, step).results ==> EndedWith(past + [step], i, Apply(s, step).results[i])
  {
    var s' := Apply(s, step);
    forall i | i in s'.results
      ensures EndedWith(past + [step], i, s'.results[i])
    {
      if step.Finish? && i == s.workers[step.worker].index {
        EndedNow(past, step.worker, i, step.result);
      } else {
        EndedStays(past, step, i, s.results[i]);
      }
    }
  }

  lemma QueueRecorded(past: seq<Step>, s: State, step: Step, n: nat)
    requires Inv(s, n) && Enabled(s, step) && Recorded(past, s)
    ensures Apply(s, step).queue != [] ==> Apply(s, step).queue[0] == Polls(past + [step])
  {
    assert (past + [step])[..|past|] == past;
  }

  lemma StepIsRecorded(past: seq<Step>, s: State, step: Step, n: nat)
    requires Inv(s, n) && Enabled(s, step) && Recorded(past, s)
    ensures Inv(Apply(s, step), n) && Recorded(past + [step], Apply(s, step))
  {
    StepKeepsInv(s, step, n);
    WorkersRecorded(past, s, step);
    ResultsRecorded(past, s, step);
    QueueRecorded(past, s, step, n);
  }

  lemma OneByOne(past: seq<Step>, steps: seq<Step>)
    ensures steps == [] ==> past + steps == past
    ensures steps != [] ==> past + [steps[0]] + steps[1..] == past + steps
  {
  }

  lemma {:induction false} RunIsRecorded(past: seq<Step>, s: State, steps: seq<Step>, t: State, n: nat)
    requires Inv(s, n) && Recorded(past, s) && Runs(s, steps, t)
    ensures Recorded(past + steps, t)
    decreases |steps|
  {
    OneByOne(past, steps);
    if steps != [] {
      StepIsRecorded(past, s, steps[0], n);
      RunIsRecorded(past + [steps[0]], Apply(s, steps[0]), steps[1..], t, n);
    }
  }

  /** In every interleaving in which all workers have left, the result of task i is what the worker ended with that went to
      the queue as the i-th. */
  lemma ResultsAreTheExecutions(n: nat, maxConcurrency: int, steps: seq<Step>, t: State, i: nat)
    requires Runs(Start(n, maxConcurrency), steps, t) && AllGone(t) && i < n
    ensures i in t.results && EndedWith(steps, i, t.results[i])
  {
    EveryTaskIsAnswered(n, maxConcurrency, steps, t);
    RunIsRecorded([], Start(n, maxConcurrency), steps, t, n);
    assert [] + steps == steps;
  }

  // ------------------------------------------------------------------ how many run at a time

  /** As many as there are tasks and as the limit allows, a limit below one allowing one. */
  predicate IsPoolSize(size: nat, n: nat, maxConcurrency: int) {
    && size <= n && (size <= 1 || size <= maxConcurrency)
    && (size == n || (size >= maxConcurrency && size >= 1))
  }

  /** The first k workers hold a task and the rest are idle. */
  ghost predicate FirstBusy(s: State, k: nat) {
    && k <= |s.workers| <= k + |s.queue|
    && (forall w :: 0 <= w < k ==> s.workers[w].Busy?)
    && (forall w :: k <= w < |s.workers| ==> s.workers[w].Idle?)
  }

  lemma {:induction false} Fill(s: State, k: nat) returns (steps: seq<Step>, t: State)
    requires FirstBusy(s, k)
    ensures Runs(s, steps, t) && |t.workers| == |s.workers| && forall w :: 0 <= w < |t.workers| ==> t.workers[w].Busy?
    decreases |s.workers| - k
  {
    if k == |s.workers| {
      steps, t := [], s;
    } else {
      var s' := Apply(s, Poll(k));
      var more;
      more, t := Fill(s', k + 1);
      steps := [Poll(k)] + more;
      assert steps[1..] == more;
    }
  }

  lemma {:induction false} AllBusy(workers: seq<Worker>)
    requires forall w :: 0 <= w < |workers| ==> workers[w].Busy?
    ensures InFlight(workers) == |workers|
  {
    if workers != [] {
      AllBusy(workers[..|workers| - 1]);
    }
  }

  /** In every interleaving at most as many tasks are in flight as there are tasks and the limit allows, and some interleaving
      has that many in flight. */
  lemma FlightsFillThePool(n: nat, maxConcurrency: int) returns (size: nat, fill: seq<Step>, full: State)
    ensures IsPoolSize(size, n, maxConcurrency)
    ensures forall steps, t :: Runs(Start(n, maxConcurrency), steps, t) ==> InFlight(t.workers) <= size
    ensures Runs(Start(n, maxConcurrency), fill, full) && InFlight(full.workers) == size
  {
    size := |Start(n, maxConcurrency).workers|;
    forall steps, t | Runs(Start(n, maxConcurrency), steps, t)
      ensures InFlight(t.workers) <= size
    {
      StartsEachOnce(n, maxConcurrency, steps, t);
    }
    fill, full := Fill(Start(n, maxConcurrency), 0);
    AllBusy(full.workers);
  }
}
