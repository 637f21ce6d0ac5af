/** What a broker wait returns, said by the steps of the run alone: the deliveries between its registration and its end. */
module BatchRuns {
  import opened Wrappers
  import opened Collector

  // ------------------------------------------------------------------ runs in parts

  lemma {:induction false} RunSplits(s: Net, steps: seq<Step>, t: Net, n: nat) returns (mid: Net)
    requires Runs(s, steps, t) && n <= |steps|
    ensures Runs(s, steps[..n], mid) && Runs(mid, steps[n..], t)
    decreases n
  {
    if n == 0 {
      mid := s;
    } else {
      mid := RunSplits(Apply(s, steps[0]), steps[1..], t, n - 1);
      assert steps[..n] == [steps[0]] + steps[1..][..n - 1] && steps[1..][n - 1..] == steps[n..];
    }
  }

  lemma {:induction false} RunsJoin(s: Net, first: seq<Step>, mid: Net, second: seq<Step>, t: Net)
    requires Runs(s, first, mid) && Runs(mid, second, t)
    ensures Runs(s, first + second, t)
    decreases |first|
  {
    if first == [] {
      assert first + second == second;
    } else {
      RunsJoin(Apply(s, first[0]), first[1..], mid, second, t);
      assert (first + second)[1..] == first[1..] + second;
    }
  }

  // ------------------------------------------------------------------ deliveries to a waiting batch

  predicate Ends(step: Step, b: string) {
    (step.Wake? || step.TimeOut?) && step.batchId == b
  }

  predicate DeliversTo(step: Step, b: string) {
    step.Deliver? && step.result.batchId == b
  }

  /** The messages delivered to the batch, in order. */
  ghost function DeliveredTo(b: string, steps: seq<Step>): seq<ResultMessage> {
    if steps == [] then []
    else
      var k := |steps| - 1;
      DeliveredTo(b, steps[..k]) + (if DeliversTo(steps[k], b) then [steps[k].result] else [])
  }

  /** The j-th step is the last that delivers to the batch under the task id. */
  ghost predicate LastDelivery(steps: seq<Step>, b: string, id: string, j: nat) {
    && j < |steps| && DeliversTo(steps[j], b) && steps[j].result.taskId == id
    && forall l :: j < l < |steps| && DeliversTo(steps[l], b) ==> steps[l].result.taskId != id
  }

  ghost predicate NoDelivery(steps: seq<Step>, b: string, id: string) {
    forall l :: 0 <= l < |steps| && DeliversTo(steps[l], b) ==> steps[l].result.taskId != id
  }

  /** A slot is empty when nothing was delivered under the id, and otherwise holds the last such message. */
  ghost predicate SlotIsLastDelivery(steps: seq<Step>, b: string, id: string, slot: Option<ResultMessage>) {
    && (slot == None <==> NoDelivery(steps, b, id))
    && (forall j: nat :: LastDelivery(steps, b, id, j) ==> slot == Some(steps[j].result))
  }

  predicate DeliversUnder(step: Step, b: string, id: string) {
    DeliversTo(step, b) && step.result.taskId == id
  }

  lemma DeliveryCounts(steps: seq<Step>, b: string, id: string)
    requires steps != [] && DeliversUnder(steps[|steps| - 1], b, id)
    ensures SlotIsLastDelivery(steps, b, id, Some(steps[|steps| - 1].result))
  {
    var k := |steps| - 1;
    assert forall j: nat :: LastDelivery(steps, b, id, j) && j < k ==> steps[k].result.taskId != id;
  }

  lemma OtherStepKeepsSlot(steps: seq<Step>, b: string, id: string, slot: Option<ResultMessage>)
    requires steps != [] && !DeliversUnder(steps[|steps| - 1], b, id)
    requires SlotIsLastDelivery(steps[..|steps| - 1], b, id, slot)
    ensures SlotIsLastDelivery(steps, b, id, slot)
  {
    var k := |steps| - 1;
    var before := steps[..k];
    assert forall l :: 0 <= l < k ==> before[l] == steps[l];
    assert NoDelivery(steps, b, id) <==> NoDelivery(before, b, id);
    forall j: nat | LastDelivery(steps, b, id, j)
      ensures slot == Some(steps[j].result)
    {
      assert j != k;
      assert LastDelivery(before, b, id, j);
    }
  }

  lemma LastOfDelivered(steps: seq<Step>, b: string, id: string)
    requires steps != []
    ensures LastOf(DeliveredTo(b, steps), id) ==
            if DeliversUnder(steps[|steps| - 1], b, id) then Some(steps[|steps| - 1].result)
            else LastOf(DeliveredTo(b, steps[..|steps| - 1]), id)
  {
    var k := |steps| - 1;
    if DeliversTo(steps[k], b) {
      LastOfSnoc(DeliveredTo(b, steps[..k]), steps[k].result, id);
    } else {
      assert DeliveredTo(b, steps) == DeliveredTo(b, steps[..k]);
    }
  }

  lemma NothingDelivered(b: string, id: string)
    ensures SlotIsLastDelivery([], b, id, None)
  {
  }

  lemma {:induction false} LastOfIsLastDelivery(steps: seq<Step>, b: string, id: string)
    ensures SlotIsLastDelivery(steps, b, id, LastOf(DeliveredTo(b, steps), id))
  {
    if steps == [] {
      NothingDelivered(b, id);
      assert LastOf([], id) == None;
    } else {
      LastOfDelivered(steps, b, id);
      if DeliversUnder(steps[|steps| - 1], b, id) {
        DeliveryCounts(steps, b, id);
      } else {
        LastOfIsLastDelivery(steps[..|steps| - 1], b, id);
        OtherStepKeepsSlot(steps, b, id, LastOf(DeliveredTo(b, steps[..|steps| - 1]), id));
      }
    }
  }

  /** The batch is registered with these tasks and got these messages. */
  ghost predicate Waits(s: Net, b: string, tasks: seq<TaskSpec>, ms: seq<ResultMessage>) {
    && b in s.pending && b in s.batches && s.batches[b] == tasks
    && b in s.arrived && s.arrived[b] == ms
  }

  lemma WaitingStep(s: Net, step: Step, b: string, tasks: seq<TaskSpec>, ms: seq<ResultMessage>)
    requires Waits(s, b, tasks, ms) && Enabled(s, step) && !Ends(step, b)
    ensures Waits(Apply(s, step), b, tasks, ms + (if DeliversTo(step, b) then [step.result] else []))
  {
  }

  lemma {:induction false} WaitingRun(s: Net, past: seq<Step>, steps: seq<Step>, t: Net, b: string, tasks: seq<TaskSpec>)
    requires Waits(s, b, tasks, DeliveredTo(b, past)) && Runs(s, steps, t)
    requires forall i :: 0 <= i < |steps| ==> !Ends(steps[i], b)
    ensures Waits(t, b, tasks, DeliveredTo(b, past + steps))
    decreases |steps|
  {
    if steps == [] {
      assert past + steps == past;
    } else {
      WaitingStep(s, steps[0], b, tasks, DeliveredTo(b, past));
      assert (past + [steps[0]])[..|past|] == past;
      WaitingRun(Apply(s, steps[0]), past + [steps[0]], steps[1..], t, b, tasks);
      assert past + [steps[0]] + steps[1..] == past + steps;
    }
  }

  /** The wait for the batch has gone on since step k, which registered it with these tasks. */
  ghost predicate WaitsSince(steps: seq<Step>, k: nat, b: string, tasks: seq<TaskSpec>) {
    && k < |steps| && steps[k] == Register(b, tasks)
    && forall i :: k < i < |steps| ==> !Ends(steps[i], b)
  }

  lemma RegisteredRun(steps: seq<Step>, t: Net, k: nat, b: string, tasks: seq<TaskSpec>)
    requires Runs(Start, steps, t) && WaitsSince(steps, k, b, tasks)
    ensures Waits(t, b, tasks, DeliveredTo(b, steps[k + 1..]))
  {
    var s := RunSplits(Start, steps, t, k);
    var s' := Apply(s, steps[k]);
    assert steps[k..][1..] == steps[k + 1..];
    WaitingRun(s', [], steps[k + 1..], t, b, tasks);
    assert [] + steps[k + 1..] == steps[k + 1..];
  }

  /** A waiting batch can always time out, and it can be woken exactly when every task of it has been answered since it was
      registered. */
  lemma WakesWhenAllDelivered(steps: seq<Step>, t: Net, k: nat, b: string, tasks: seq<TaskSpec>)
    requires Runs(Start, steps, t) && WaitsSince(steps, k, b, tasks)
    ensures Enabled(t, TimeOut(b))
    ensures Enabled(t, Wake(b)) <==> forall i :: 0 <= i < |tasks| ==> !NoDelivery(steps[k + 1..], b, TaskId(b, i))
  {
    RegisteredRun(steps, t, k, b, tasks);
    AwakeIffAllArrived(steps, t, b);
    forall i | 0 <= i < |tasks|
      ensures LastOf(t.arrived[b], TaskId(b, i)).Some? <==> !NoDelivery(steps[k + 1..], b, TaskId(b, i))
    {
      LastOfIsLastDelivery(steps[k + 1..], b, TaskId(b, i));
    }
  }

  /** The outcome has a slot for every task with the last message delivered under its id. */
  ghost predicate HasLastDeliveries(o: Outcome, b: string, n: nat, steps: seq<Step>) {
    |o.slots| == n && forall i :: 0 <= i < n ==> SlotIsLastDelivery(steps, b, TaskId(b, i), o.slots[i])
  }

  lemma StepKeepsFinished(s: Net, step: Step, b: string)
    requires Inv(s) && b in s.finished && Enabled(s, step)
    ensures b in Apply(s, step).finished && Apply(s, step).finished[b] == s.finished[b]
  {
  }

  lemma {:induction false} OutcomeKept(s: Net, steps: seq<Step>, t: Net, b: string)
    requires Inv(s) && b in s.finished && Runs(s, steps, t)
    ensures b in t.finished && t.finished[b] == s.finished[b]
    decreases |steps|
  {
    if steps != [] {
      StepKeepsInv(s, steps[0]);
      StepKeepsFinished(s, steps[0], b);
      OutcomeKept(Apply(s, steps[0]), steps[1..], t, b);
    }
  }

  /** In every run, a wait that began at step k and ended at step e returned one slot a task: empty when nothing was delivered
      under the task's id in between, and otherwise the last message that was. */
  lemma WaitReturnsTheLastDeliveries(steps: seq<Step>, t: Net, k: nat, e: nat, b: string, tasks: seq<TaskSpec>)
    requires Runs(Start, steps, t) && k < e < |steps| && WaitsSince(steps[..e], k, b, tasks) && Ends(steps[e], b)
    ensures b in t.finished && t.finished[b].timedOut == steps[e].TimeOut?
    ensures HasLastDeliveries(t.finished[b], b, |tasks|, steps[k + 1..e])
  {
    var s := RunSplits(Start, steps, t, e);
    RegisteredRun(steps[..e], s, k, b, tasks);
    assert steps[..e][k + 1..] == steps[k + 1..e];
    RunKeepsInv(Start, steps[..e], s);
    var s' := Apply(s, steps[e]);
    StepKeepsInv(s, steps[e]);
    assert OutcomeInv(s', b, s'.finished[b]);
    forall i | 0 <= i < |tasks|
      ensures SlotIsLastDelivery(steps[k + 1..e], b, TaskId(b, i), s'.finished[b].slots[i])
    {
      LastOfIsLastDelivery(steps[k + 1..e], b, TaskId(b, i));
    }
    assert steps[e..][0] == steps[e];
    OutcomeKept(s', steps[e..][1..], t, b);
  }

  // ------------------------------------------------------------------ batches that complete

  /** One task published, answered with the payload and delivered. */
  function RoundTrip(b: string, i: nat, task: TaskSpec, payload: nat): seq<Step> {
    var id := TaskId(b, i);
    var answer := ResultMessage(b, id, task.requestId, payload);
    [Publish(b, i), Answer(TaskMessage(b, id, task), answer), Deliver(answer)]
  }

  /** The round trips of the first n tasks. */
  function RoundTrips(b: string, tasks: seq<TaskSpec>, payloads: seq<nat>, n: nat): seq<Step>
    requires n <= |tasks| == |payloads|
  {
    if n == 0 then []
    else RoundTrips(b, tasks, payloads, n - 1) + RoundTrip(b, n - 1, tasks[n - 1], payloads[n - 1])
  }

  lemma RoundTripRuns(s: Net, b: string, tasks: seq<TaskSpec>, i: nat, payload: nat) returns (t: Net)
    requires b in s.batches && s.batches[b] == tasks && i < |tasks|
    ensures Runs(s, RoundTrip(b, i, tasks[i], payload), t) && b in t.batches && t.batches[b] == tasks
  {
    var steps := RoundTrip(b, i, tasks[i], payload);
    var s1 := Apply(s, steps[0]);
    var s2 := Apply(s1, steps[1]);
    t := Apply(s2, steps[2]);
    assert steps[1..][1..][1..] == [] && steps[1..][0] == steps[1] && steps[1..][1..][0] == steps[2];
    assert Runs(t, steps[1..][1..][1..], t);
    assert Runs(s2, steps[1..][1..], t);
    assert Runs(s1, steps[1..], t);
  }

  lemma {:induction false} RoundTripsRun(s: Net, b: string, tasks: seq<TaskSpec>, payloads: seq<nat>, n: nat) returns (t: Net)
    requires b in s.batches && s.batches[b] == tasks && n <= |tasks| == |payloads|
    ensures Runs(s, RoundTrips(b, tasks, payloads, n), t) && b in t.batches && t.batches[b] == tasks
  {
    if n == 0 {
      t := s;
    } else {
      var mid := RoundTripsRun(s, b, tasks, payloads, n - 1);
      t := RoundTripRuns(mid, b, tasks, n - 1, payloads[n - 1]);
      RunsJoin(s, RoundTrips(b, tasks, payloads, n - 1), mid, RoundTrip(b, n - 1, tasks[n - 1], payloads[n - 1]), t);
    }
  }

  /** The steps deliver under each of the first n task ids and do not end the wait. */
  ghost predicate DeliversFirst(steps: seq<Step>, b: string, n: nat) {
    && (forall l :: 0 <= l < |steps| ==> !Ends(steps[l], b))
    && (forall i :: 0 <= i < n ==> !NoDelivery(steps, b, TaskId(b, i)))
  }

  lemma MoreStepsDeliver(first: seq<Step>, more: seq<Step>, b: string, id: string)
    ensures !NoDelivery(first, b, id) || !NoDelivery(more, b, id) ==> !NoDelivery(first + more, b, id)
  {
    var all := first + more;
    if NoDelivery(all, b, id) {
      forall l | 0 <= l < |first| && DeliversTo(first[l], b)
        ensures first[l].result.taskId != id
      {
        assert all[l] == first[l];
      }
      forall l | 0 <= l < |more| && DeliversTo(more[l], b)
        ensures more[l].result.taskId != id
      {
        assert all[|first| + l] == more[l];
      }
    }
  }

  lemma {:induction false} RoundTripsDeliver(b: string, tasks: seq<TaskSpec>, payloads: seq<nat>, n: nat)
    requires n <= |tasks| == |payloads|
    ensures DeliversFirst(RoundTrips(b, tasks, payloads, n), b, n)
  {
    if n > 0 {
      RoundTripsDeliver(b, tasks, payloads, n - 1);
      var before := RoundTrips(b, tasks, payloads, n - 1);
      var last := RoundTrip(b, n - 1, tasks[n - 1], payloads[n - 1]);
      assert DeliversTo(last[2], b) && last[2].result.taskId == TaskId(b, n - 1);
      forall i | 0 <= i < n
        ensures !NoDelivery(before + last, b, TaskId(b, i))
      {
        MoreStepsDeliver(before, last, b, TaskId(b, i));
      }
    }
  }

  lemma RegistersFresh(past: seq<Step>, s: Net, b: string, tasks: seq<TaskSpec>) returns (t: Net)
    requires Runs(Start, past, s) && b !in s.batches && tasks != []
    ensures Runs(Start, past + [Register(b, tasks)], t) && b in t.batches && t.batches[b] == tasks
  {
    RunKeepsInv(Start, past, s);
    assert b in s.pending ==> BatchInv(s, b, s.pending[b]);
    t := Apply(s, Register(b, tasks));
    assert Runs(t, [Register(b, tasks)][1..], t);
    RunsJoin(Start, past, s, [Register(b, tasks)], t);
  }

  lemma SplitsAfterFirst(past: seq<Step>, step: Step, rest: seq<Step>)
    ensures (past + [step] + rest)[|past| + 1..] == rest
    ensures (past + [step] + rest)[|past|] == step
    ensures forall i :: |past| < i < |past + [step] + rest| ==> (past + [step] + rest)[i] == rest[i - |past| - 1]
  {
  }

  /** From wherever a run has led, a new batch of at least one task can be registered, published, answered and woken, whatever
      the workers answer. */
  lemma EveryBatchCanComplete(past: seq<Step>, s: Net, b: string, tasks: seq<TaskSpec>, payloads: seq<nat>) returns (t: Net)
    requires Runs(Start, past, s) && b !in s.batches && tasks != [] && |payloads| == |tasks|
    ensures Runs(Start, past + [Register(b, tasks)] + RoundTrips(b, tasks, payloads, |tasks|), t) && Enabled(t, Wake(b))
  {
    var s' := RegistersFresh(past, s, b, tasks);
    var trips := RoundTrips(b, tasks, payloads, |tasks|);
    t := RoundTripsRun(s', b, tasks, payloads, |tasks|);
    var first := past + [Register(b, tasks)];
    RunsJoin(Start, first, s', trips, t);
    RoundTripsDeliver(b, tasks, payloads, |tasks|);
    SplitsAfterFirst(past, Register(b, tasks), trips);
    WakesWhenAllDelivered(first + trips, t, |past|, b, tasks);
  }
}
