/** The result collector: messages routed by batch, and what a waiting batch gets back. */
module Collector {
  import opened Wrappers
  import opened Seqs
  import opened Numerals

  /** `rest` stands for the task's input and metadata. */
  datatype TaskSpec = TaskSpec(id: string, requestId: string, rest: nat)

  datatype TaskMessage = TaskMessage(batchId: string, taskId: string, task: TaskSpec)

  datatype ResultMessage = ResultMessage(batchId: string, taskId: string, requestId: string, payload: nat)

  datatype BatchState = BatchState(expected: nat, results: map<string, ResultMessage>, done: bool)

  datatype SpawnError = AlreadyRegistered(batchId: string) | NotRegistered(batchId: string)

  type Pending = map<string, BatchState>

  type Slots = seq<Option<ResultMessage>>

  function TaskId(batchId: string, i: nat): string {
    batchId + "-" + Decimal(i)
  }

  lemma TaskIdInjective(batchId: string, i: nat, j: nat)
    requires TaskId(batchId, i) == TaskId(batchId, j)
    ensures i == j
  {
    var k := |batchId| + 1;
    assert TaskId(batchId, i)[k..] == Decimal(i) && TaskId(batchId, j)[k..] == Decimal(j);
    DecimalInjective(i, j);
  }

  lemma TaskIdExample()
    ensures TaskId("b", 12) == "b-12"
  {
    assert Decimal(12) == Decimal(1) + [Digit(2)] && Decimal(1) == "1";
  }

  // ------------------------------------------------------------------ the collector's steps on its map

  function Registered(pending: Pending, batchId: string, expected: nat): Pending {
    pending[batchId := BatchState(expected, map[], false)]
  }

  function Stored(st: BatchState, msg: ResultMessage): BatchState {
    var results := st.results[msg.taskId := msg];
    BatchState(st.expected, results, st.done || |results| >= st.expected)
  }

  /** A message of a batch nobody waits for is dropped. */
  function Received(pending: Pending, msg: ResultMessage): Pending {
    if msg.batchId in pending then pending[msg.batchId := Stored(pending[msg.batchId], msg)] else pending
  }

  /** One entry per expected slot, in order. */
  function SlotsOf(batchId: string, st: BatchState): (slots: Slots)
    ensures |slots| == st.expected
    ensures forall i :: 0 <= i < |slots| ==>
              slots[i] == if TaskId(batchId, i) in st.results then Some(st.results[TaskId(batchId, i)]) else None
  {
    seq(st.expected, i requires 0 <= i =>
      if TaskId(batchId, i) in st.results then Some(st.results[TaskId(batchId, i)]) else None)
  }

  class ResultCollector {
    var pending: Pending

    constructor ()
      ensures pending == map[]
    {
      pending := map[];
    }

    method Register(batchId: string, expected: nat) returns (r: Result<(), SpawnError>)
      modifies this
      ensures r.Ok? <==> batchId !in old(pending)
      ensures pending == if r.Ok? then Registered(old(pending), batchId, expected) else old(pending)
    {
      if batchId in pending {
        return Err(AlreadyRegistered(batchId));
      }
      pending := pending[batchId := BatchState(expected, map[], false)];
      r := Ok(());
    }

    /** No message stands for a payload that does not decode. */
    method OnMessage(payload: Option<ResultMessage>)
      modifies this
      ensures pending == if payload.Some? then Received(old(pending), payload.value) else old(pending)
    {
      if payload.None? {
        return;
      }
      var msg := payload.value;
      if msg.batchId !in pending {
        return;
      }
      var st := pending[msg.batchId];
      st := st.(results := st.results[msg.taskId := msg]);
      if |st.results| >= st.expected {
        st := st.(done := true);
      }
      pending := pending[msg.batchId := st];
    }

    /** The end of a wait, by the batch's event or by its timeout. */
    method FinishBatch(batchId: string) returns (r: Result<Slots, SpawnError>)
      modifies this
      ensures r.Ok? <==> batchId in old(pending)
      ensures r.Ok? ==> r.value == SlotsOf(batchId, old(pending)[batchId])
      ensures pending == old(pending) - {batchId}
    {
      if batchId !in pending {
        return Err(NotRegistered(batchId));
      }
      var st := pending[batchId];
      pending := pending - {batchId};
      var slots: Slots := [];
      for i := 0 to st.expected
        invariant slots == SlotsOf(batchId, st)[..i]
        invariant pending == old(pending) - {batchId}
      {
        var id := TaskId(batchId, i);
        slots := slots + [if id in st.results then Some(st.results[id]) else None];
      }
      r := Ok(slots);
    }
  }

  // ------------------------------------------------------------------ the protocol

  /** What a finished wait got, and whether the timeout ended it. */
  datatype Outcome = Outcome(slots: Slots, timedOut: bool)

  /** The publisher, the broker and the workers. `batches` are the tasks of every batch ever registered, `arrived`
      the messages that reached each batch while it was registered. */
  datatype Net = Net(
    pending: Pending,
    batches: map<string, seq<TaskSpec>>,
    published: set<TaskMessage>,
    sent: set<ResultMessage>,
    arrived: map<string, seq<ResultMessage>>,
    finished: map<string, Outcome>)

  const Start := Net(map[], map[], {}, {}, map[], map[])

  datatype Step =
    | Register(batchId: string, tasks: seq<TaskSpec>)
    | Publish(batchId: string, index: nat)
    | Answer(task: TaskMessage, result: ResultMessage)
    | Deliver(result: ResultMessage)
    | Wake(batchId: string)
    | TimeOut(batchId: string)

  /** A worker answers with the task's own identifiers. */
  predicate Answers(task: TaskMessage, m: ResultMessage) {
    m.batchId == task.batchId && m.taskId == task.taskId && m.requestId == task.task.requestId
  }

  /** An empty batch is not registered and a batch identifier is never drawn twice; a sent message may be delivered at any
      time, any number of times. */
  predicate Enabled(s: Net, step: Step) {
    match step
    case Register(b, tasks) => tasks != [] && b !in s.batches && b !in s.pending
    case Publish(b, i) => b in s.batches && i < |s.batches[b]|
    case Answer(task, m) => task in s.published && Answers(task, m)
    case Deliver(m) => m in s.sent
    case Wake(b) => b in s.pending && s.pending[b].done
    case TimeOut(b) => b in s.pending
  }

  function Finish(s: Net, b: string, timedOut: bool): Net
    requires b in s.pending
  {
    s.(pending := s.pending - {b}, finished := s.finished[b := Outcome(SlotsOf(b, s.pending[b]), timedOut)])
  }

  function Apply(s: Net, step: Step): Net
    requires Enabled(s, step)
  {
    match step
    case Register(b, tasks) =>
      s.(pending := Registered(s.pending, b, |tasks|), batches := s.batches[b := tasks], arrived := s.arrived[b := []])
    case Publish(b, i) => s.(published := s.published + {TaskMessage(b, TaskId(b, i), s.batches[b][i])})
    case Answer(_, m) => s.(sent := s.sent + {m})
    case Deliver(m) =>
      s.(pending := Received(s.pending, m),
         arrived := if m.batchId in s.pending && m.batchId in s.arrived
                    then s.arrived[m.batchId := s.arrived[m.batchId] + [m]] else s.arrived)
    case Wake(b) => Finish(s, b, false)
    case TimeOut(b) => Finish(s, b, true)
  }

  /** m answers task i of batch b. */
  ghost predicate IsAnswer(s: Net, b: string, i: nat, m: ResultMessage) {
    && b in s.batches && i < |s.batches[b]|
    && Answers(TaskMessage(b, TaskId(b, i), s.batches[b][i]), m)
  }

  /** The last message with the given task id. */
  function LastOf(ms: seq<ResultMessage>, taskId: string): Option<ResultMessage> {
    if ms == [] then None
    else if ms[|ms| - 1].taskId == taskId then Some(ms[|ms| - 1])
    else LastOf(ms[..|ms| - 1], taskId)
  }

  /** A stored result under every id is the last message with that id that arrived. */
  ghost predicate KeepsLast(results: map<string, ResultMessage>, ms: seq<ResultMessage>) {
    forall id :: LastOf(ms, id) == if id in results then Some(results[id]) else None
  }

  /** t carries one of the tasks of its batch under that task's id. */
  ghost predicate IsTaskOf(s: Net, t: TaskMessage) {
    && t.batchId in s.batches
    && exists i: nat :: i < |s.batches[t.batchId]| && t == TaskMessage(t.batchId, TaskId(t.batchId, i), s.batches[t.batchId][i])
  }

  ghost predicate FromTasks(s: Net) {
    && (forall t :: t in s.published ==> IsTaskOf(s, t))
    && (forall m :: m in s.sent ==> exists i: nat :: IsAnswer(s, m.batchId, i, m))
  }

  /** The id is one of the batch's own and m answers that task. */
  ghost predicate StoredAnswer(s: Net, b: string, id: string, m: ResultMessage) {
    exists i: nat {:trigger IsAnswer(s, b, i, m)} :: id == TaskId(b, i) && IsAnswer(s, b, i, m)
  }

  ghost predicate BatchInv(s: Net, b: string, st: BatchState) {
    && b in s.batches && b in s.arrived && st.expected == |s.batches[b]|
    && KeepsLast(st.results, s.arrived[b])
    && (forall id {:trigger st.results[id]} :: id in st.results ==> StoredAnswer(s, b, id, st.results[id]))
    && st.expected > 0 && (st.done <==> |st.results| >= st.expected)
  }

  /** What a finished wait returned: every answer that arrived in time, the last one where several did, and, when it
      was not the timeout that ended the wait, an answer in every slot. */
  ghost predicate OutcomeInv(s: Net, b: string, o: Outcome) {
    && b in s.batches && b in s.arrived && |o.slots| == |s.batches[b]|
    && (forall i :: 0 <= i < |o.slots| ==> o.slots[i] == LastOf(s.arrived[b], TaskId(b, i)))
    && (forall i :: 0 <= i < |o.slots| && o.slots[i].Some? ==> IsAnswer(s, b, i, o.slots[i].value))
    && (!o.timedOut ==> forall i :: 0 <= i < |o.slots| ==> o.slots[i].Some?)
  }

  ghost predicate Inv(s: Net) {
    && FromTasks(s)
    && s.pending.Keys !! s.finished.Keys
    && (forall b {:trigger s.pending[b]} :: b in s.pending ==> BatchInv(s, b, s.pending[b]))
    && (forall b {:trigger s.finished[b]} :: b in s.finished ==> OutcomeInv(s, b, s.finished[b]))
  }

  // ------------------------------------------------------------------ pigeonhole

  function OwnIds(b: string, n: nat): (r: set<string>)
    ensures forall i :: 0 <= i < n ==> TaskId(b, i) in r
    ensures forall id :: id in r ==> exists i :: 0 <= i < n && id == TaskId(b, i)
  {
    if n == 0 then {} else OwnIds(b, n - 1) + {TaskId(b, n - 1)}
  }

  lemma {:induction false} OwnIdsCard(b: string, n: nat)
    ensures |OwnIds(b, n)| == n
  {
    if n > 0 {
      OwnIdsCard(b, n - 1);
      if TaskId(b, n - 1) in OwnIds(b, n - 1) {
        var i :| 0 <= i < n - 1 && TaskId(b, n - 1) == TaskId(b, i);
        TaskIdInjective(b, n - 1, i);
      }
    }
  }

  /** All n slots are filled if and only if n of the stored ids are the batch's own. */
  lemma FilledIffOwnIds(b: string, st: BatchState)
    ensures (forall i :: 0 <= i < st.expected ==> SlotsOf(b, st)[i].Some?) <==>
            |st.results.Keys * OwnIds(b, st.expected)| >= st.expected
  {
    var own := OwnIds(b, st.expected);
    OwnIdsCard(b, st.expected);
    SubsetCard(st.results.Keys * own, own);
    if forall i :: 0 <= i < st.expected ==> SlotsOf(b, st)[i].Some? {
      forall id | id in own
        ensures id in st.results.Keys * own
      {
        var i :| 0 <= i < st.expected && id == TaskId(b, i);
        assert SlotsOf(b, st)[i].Some?;
      }
      SubsetCard(own, st.results.Keys * own);
    }
    if st.results.Keys * own == own {
      forall i | 0 <= i < st.expected
        ensures SlotsOf(b, st)[i].Some?
      {
        assert TaskId(b, i) in own;
      }
    }
  }

  /** A result with a task id that is none of the batch's own counts all the same and wakes the batch early. */
  lemma ForeignIdWakesEarly()
    ensures var st := Stored(BatchState(1, map[], false), ResultMessage("b", "x", "r", 0));
            st.done && SlotsOf("b", st) == [None]
  {
    var st := Stored(BatchState(1, map[], false), ResultMessage("b", "x", "r", 0));
    assert |TaskId("b", 0)| >= 2;
    assert st.results.Keys == {"x"};
    assert SlotsOf("b", st)[0] == None;
  }

  // ------------------------------------------------------------------ the invariant

  lemma LastOfSnoc(ms: seq<ResultMessage>, m: ResultMessage, id: string)
    ensures LastOf(ms + [m], id) == if m.taskId == id then Some(m) else LastOf(ms, id)
  {
    assert (ms + [m])[..|ms|] == ms;
  }

  lemma StoredKeepsLast(st: BatchState, ms: seq<ResultMessage>, m: ResultMessage)
    requires KeepsLast(st.results, ms)
    ensures KeepsLast(Stored(st, m).results, ms + [m])
  {
    forall id
      ensures LastOf(ms + [m], id) ==
              if id in Stored(st, m).results then Some(Stored(st, m).results[id]) else None
    {
      LastOfSnoc(ms, m, id);
    }
  }

  lemma DeliverKeepsBatch(s: Net, m: ResultMessage)
    requires Inv(s) && m in s.sent && m.batchId in s.pending
    ensures BatchInv(Apply(s, Deliver(m)), m.batchId, Stored(s.pending[m.batchId], m))
  {
    var b := m.batchId;
    var st := s.pending[b];
    var s' := Apply(s, Deliver(m));
    assert BatchInv(s, b, st);
    StoredKeepsLast(st, s.arrived[b], m);
    forall id | id in Stored(st, m).results
      ensures StoredAnswer(s', b, id, Stored(st, m).results[id])
    {
      if id == m.taskId {
        var i: nat :| IsAnswer(s, b, i, m);
        assert id == TaskId(b, i) && IsAnswer(s', b, i, m);
      } else {
        assert StoredAnswer(s, b, id, st.results[id]);
        var i: nat :| id == TaskId(b, i) && IsAnswer(s, b, i, st.results[id]);
        assert IsAnswer(s', b, i, st.results[id]);
      }
    }
    assert st.results.Keys <= Stored(st, m).results.Keys;
    SubsetCard(st.results.Keys, Stored(st, m).results.Keys);
  }

  /** A registered batch stores results under its own ids only, so it is done exactly when every slot is filled. */
  lemma BatchFilled(s: Net, b: string, st: BatchState)
    requires BatchInv(s, b, st)
    ensures st.done <==> forall i :: 0 <= i < st.expected ==> SlotsOf(b, st)[i].Some?
  {
    var own := OwnIds(b, st.expected);
    forall id | id in st.results
      ensures id in own
    {
      assert StoredAnswer(s, b, id, st.results[id]);
      var i: nat :| id == TaskId(b, i) && IsAnswer(s, b, i, st.results[id]);
    }
    assert st.results.Keys * own == st.results.Keys;
    FilledIffOwnIds(b, st);
  }

  lemma SlotsAreLast(s: Net, b: string, st: BatchState)
    requires BatchInv(s, b, st)
    ensures forall i :: 0 <= i < st.expected ==> SlotsOf(b, st)[i] == LastOf(s.arrived[b], TaskId(b, i))
  {
  }

  lemma SlotAnswersItsTask(s: Net, b: string, st: BatchState, i: nat)
    requires BatchInv(s, b, st) && i < st.expected && TaskId(b, i) in st.results
    ensures IsAnswer(s, b, i, st.results[TaskId(b, i)])
  {
    assert StoredAnswer(s, b, TaskId(b, i), st.results[TaskId(b, i)]);
    var j: nat :| TaskId(b, i) == TaskId(b, j) && IsAnswer(s, b, j, st.results[TaskId(b, i)]);
    TaskIdInjective(b, i, j);
  }

  lemma FinishedOutcome(s: Net, b: string, timedOut: bool)
    requires Inv(s) && b in s.pending && (timedOut || s.pending[b].done)
    ensures OutcomeInv(Finish(s, b, timedOut), b, Finish(s, b, timedOut).finished[b])
  {
    var st, s' := s.pending[b], Finish(s, b, timedOut);
    assert BatchInv(s, b, st);
    var slots := SlotsOf(b, st);
    forall i | 0 <= i < |slots| && slots[i].Some?
      ensures IsAnswer(s', b, i, slots[i].value)
    {
      SlotAnswersItsTask(s, b, st, i);
    }
    SlotsAreLast(s, b, st);
    BatchFilled(s, b, st);
  }

  lemma StepKeepsBatch(s: Net, step: Step, b: string)
    requires Inv(s) && Enabled(s, step) && b in Apply(s, step).pending
    ensures BatchInv(Apply(s, step), b, Apply(s, step).pending[b])
  {
    if step.Deliver? && step.result.batchId == b {
      DeliverKeepsBatch(s, step.result);
    } else if step.Register? && step.batchId == b {
    } else {
      assert BatchInv(s, b, s.pending[b]);
      BatchUnaffected(s, step, b);
    }
  }

  lemma StepKeepsOutcome(s: Net, step: Step, b: string)
    requires Inv(s) && Enabled(s, step) && b in Apply(s, step).finished
    ensures OutcomeInv(Apply(s, step), b, Apply(s, step).finished[b])
  {
    if (step.Wake? || step.TimeOut?) && step.batchId == b {
      FinishedOutcome(s, b, step.TimeOut?);
    } else {
      assert OutcomeInv(s, b, s.finished[b]);
      OutcomeStays(s, Apply(s, step), b, s.finished[b]);
    }
  }

  ghost predicate SameRecord(s: Net, s': Net, b: string) {
    b in s.batches && b in s'.batches && s.batches[b] == s'.batches[b] &&
    b in s.arrived && b in s'.arrived && s.arrived[b] == s'.arrived[b]
  }

  lemma OutcomeStays(s: Net, s': Net, b: string, o: Outcome)
    requires OutcomeInv(s, b, o) && SameRecord(s, s', b)
    ensures OutcomeInv(s', b, o)
  {
  }

  lemma BatchStays(s: Net, s': Net, b: string, st: BatchState)
    requires BatchInv(s, b, st) && SameRecord(s, s', b)
    ensures BatchInv(s', b, st)
  {
    forall id | id in st.results
      ensures StoredAnswer(s', b, id, st.results[id])
    {
      assert StoredAnswer(s, b, id, st.results[id]);
      var i: nat :| id == TaskId(b, i) && IsAnswer(s, b, i, st.results[id]);
      assert IsAnswer(s', b, i, st.results[id]);
    }
  }

  lemma StepKeepsInv(s: Net, step: Step)
    requires Inv(s) && Enabled(s, step)
    ensures Inv(Apply(s, step))
  {
    var s' := Apply(s, step);
    StepKeepsSources(s, step);
    forall b | b in s'.pending
      ensures BatchInv(s', b, s'.pending[b])
    {
      StepKeepsBatch(s, step, b);
    }
    forall b | b in s'.finished
      ensures OutcomeInv(s', b, s'.finished[b])
    {
      StepKeepsOutcome(s, step, b);
    }
    assert s'.pending.Keys !! s'.finished.Keys by {
      assert forall b :: b in s.finished ==> OutcomeInv(s, b, s.finished[b]);
    }
  }

  lemma StepKeepsSources(s: Net, step: Step)
    requires Inv(s) && Enabled(s, step)
    ensures FromTasks(Apply(s, step))
  {
    var s' := Apply(s, step);
    forall t | t in s'.published
      ensures IsTaskOf(s', t)
    {
      if t in s.published {
        assert IsTaskOf(s, t);
      } else {
        assert t == TaskMessage(step.batchId, TaskId(step.batchId, step.index), s.batches[step.batchId][step.index]);
      }
    }
    forall m | m in s'.sent
      ensures exists i: nat :: IsAnswer(s', m.batchId, i, m)
    {
      if step.Answer? && m !in s.sent {
        var t := step.task;
        assert IsTaskOf(s, t);
        var i: nat :| i < |s.batches[t.batchId]| && t == TaskMessage(t.batchId, TaskId(t.batchId, i), s.batches[t.batchId][i]);
        assert IsAnswer(s', m.batchId, i, m);
      } else {
        var i: nat :| IsAnswer(s, m.batchId, i, m);
        assert IsAnswer(s', m.batchId, i, m);
      }
    }
  }

  /** A step on one batch does not touch another. */
  lemma BatchUnaffected(s: Net, step: Step, b: string)
    requires Enabled(s, step) && b in s.pending && BatchInv(s, b, s.pending[b]) && b in Apply(s, step).pending
    requires !(step.Deliver? && step.result.batchId == b)
    ensures Apply(s, step).pending[b] == s.pending[b]
    ensures BatchInv(Apply(s, step), b, s.pending[b])
  {
    BatchStays(s, Apply(s, step), b, s.pending[b]);
  }

  // ------------------------------------------------------------------ runs

  /** The steps can be taken one after the other from s and end in t. */
  ghost predicate Runs(s: Net, steps: seq<Step>, t: Net)
    decreases |steps|
  {
    if steps == [] then s == t
    else Enabled(s, steps[0]) && Runs(Apply(s, steps[0]), steps[1..], t)
  }

  lemma {:induction false} RunKeepsInv(s: Net, steps: seq<Step>, t: Net)
    requires Inv(s) && Runs(s, steps, t)
    ensures Inv(t)
    decreases |steps|
  {
    if steps != [] {
      StepKeepsInv(s, steps[0]);
      RunKeepsInv(Apply(s, steps[0]), steps[1..], t);
    }
  }

  /** In every run, under any duplication, reordering and delay: a wait that its event ended returned n slots, slot i
      an answer to task i; no answer that arrived between registration and the end of the wait is missing from it. */
  lemma BatchesAreAnswered(steps: seq<Step>, t: Net, b: string)
    requires Runs(Start, steps, t) && b in t.finished
    ensures b in t.batches && b in t.arrived && |t.finished[b].slots| == |t.batches[b]|
    ensures forall i :: 0 <= i < |t.batches[b]| ==> t.finished[b].slots[i] == LastOf(t.arrived[b], TaskId(b, i))
    ensures forall i :: 0 <= i < |t.batches[b]| && t.finished[b].slots[i].Some? ==>
              var m := t.finished[b].slots[i].value;
              m.batchId == b && m.taskId == TaskId(b, i) && m.requestId == t.batches[b][i].requestId
    ensures !t.finished[b].timedOut ==> forall i :: 0 <= i < |t.batches[b]| ==> t.finished[b].slots[i].Some?
  {
    RunKeepsInv(Start, steps, t);
    var o := t.finished[b];
    assert OutcomeInv(t, b, o);
    forall i | 0 <= i < |o.slots| && o.slots[i].Some?
      ensures o.slots[i].value.requestId == t.batches[b][i].requestId
    {
      assert IsAnswer(t, b, i, o.slots[i].value);
    }
  }

  /** In every run a registered batch is awake exactly when an answer to each of its tasks has arrived. */
  lemma AwakeIffAllArrived(steps: seq<Step>, t: Net, b: string)
    requires Runs(Start, steps, t) && b in t.pending
    ensures b in t.batches && b in t.arrived
    ensures t.pending[b].done <==> forall i :: 0 <= i < |t.batches[b]| ==> LastOf(t.arrived[b], TaskId(b, i)).Some?
  {
    RunKeepsInv(Start, steps, t);
    assert BatchInv(t, b, t.pending[b]);
    DoneIffAllArrived(t, b, t.pending[b]);
  }

  lemma DoneIffAllArrived(s: Net, b: string, st: BatchState)
    requires BatchInv(s, b, st)
    ensures st.done <==> forall i :: 0 <= i < |s.batches[b]| ==> LastOf(s.arrived[b], TaskId(b, i)).Some?
  {
    BatchFilled(s, b, st);
    SlotsAreLast(s, b, st);
  }
}
