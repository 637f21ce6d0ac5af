/** The runs of the SQLite and RocksDB streams, said by their steps: what is in the log, when the run is over, which writes
    have not been announced, and that subscribers come to rest. */
module StreamRuns {
  import opened Wrappers
  import opened RunStream

  // ------------------------------------------------------------------ what the steps say

  /** The event with which the writer last began a push. */
  function Begun(past: seq<Step>, w: nat): Option<string> {
    if past == [] then None
    else
      var last := past[|past| - 1];
      if last.PushBegin? && last.writer == w then Some(last.event) else Begun(past[..|past| - 1], w)
  }

  /** The events of the pushes that reached the table, in the order in which they did. */
  function Pushed(past: seq<Step>): seq<string> {
    if past == [] then []
    else
      var before, last := past[..|past| - 1], past[|past| - 1];
      if last.PushInsert? && Begun(before, last.writer).Some? then Pushed(before) + [Begun(before, last.writer).value]
      else Pushed(before)
  }

  /** The last state that was set. */
  function LastState(past: seq<Step>): RunState {
    if past == [] then Pending
    else
      var last := past[|past| - 1];
      if last.SetState? then last.state else LastState(past[..|past| - 1])
  }

  predicate Writes(step: Step, w: nat) {
    step == PushInsert(w) || (step.SetState? && step.writer == w && step.state.IsTerminal())
  }

  /** The writer inserted an event or ended the run, and has neither woken the listeners nor been cancelled since. */
  ghost predicate Unannounced(past: seq<Step>, w: nat) {
    exists j :: 0 <= j < |past| && Writes(past[j], w) && QuietAfter(past, j, w)
  }

  ghost predicate QuietAfter(past: seq<Step>, j: int, w: nat) {
    forall l :: j < l < |past| && l >= 0 ==> past[l] != WakeListeners(w) && past[l] != CancelWrite(w)
  }

  /** A writer was cancelled with its write unannounced, and nobody has woken the listeners since. */
  ghost predicate Silenced(past: seq<Step>) {
    exists j :: 0 <= j < |past| && past[j].CancelWrite? && Unannounced(past[..j], past[j].writer) && NoWakeAfter(past, j)
  }

  ghost predicate NoWakeAfter(past: seq<Step>, j: int) {
    forall l :: j < l < |past| && l >= 0 ==> !past[l].WakeListeners?
  }

  // ------------------------------------------------------------------ what the store says is what the steps say

  ghost predicate WriterRecorded(past: seq<Step>, w: nat, x: Writer) {
    match x
    case Inserting(_, event) => Begun(past, w) == Some(event)
    case _ => Unannounced(past, w)
  }

  ghost predicate Recorded(past: seq<Step>, s: Store) {
    && Events(s.rows) == Pushed(past) && s.state == LastState(past)
    && (forall w :: w in s.writers ==> WriterRecorded(past, w, s.writers[w]))
    && (s.silent ==> Silenced(past))
  }

  lemma UnannouncedStays(past: seq<Step>, step: Step, w: nat)
    requires Unannounced(past, w) && step != WakeListeners(w) && step != CancelWrite(w)
    ensures Unannounced(past + [step], w)
  {
    var j :| 0 <= j < |past| && Writes(past[j], w) && QuietAfter(past, j, w);
    assert (past + [step])[j] == past[j] && QuietAfter(past + [step], j, w);
  }

  lemma UnannouncedStarts(past: seq<Step>, step: Step, w: nat)
    requires Writes(step, w)
    ensures Unannounced(past + [step], w)
  {
    assert (past + [step])[|past|] == step && QuietAfter(past + [step], |past|, w);
  }

  lemma SilencedStays(past: seq<Step>, step: Step)
    requires Silenced(past) && !step.WakeListeners?
    ensures Silenced(past + [step])
  {
    var j :| 0 <= j < |past| && past[j].CancelWrite? && Unannounced(past[..j], past[j].writer) && NoWakeAfter(past, j);
    assert (past + [step])[j] == past[j] && (past + [step])[..j] == past[..j] && NoWakeAfter(past + [step], j);
  }

  lemma SilencedStarts(past: seq<Step>, w: nat)
    requires Unannounced(past, w)
    ensures Silenced(past + [CancelWrite(w)])
  {
    var j, all := |past|, past + [CancelWrite(w)];
    assert all[j] == CancelWrite(w) && all[..j] == past && NoWakeAfter(all, j);
  }

  /** Another writer's record outlives the step. */
  lemma WriterStays(past: seq<Step>, step: Step, w: nat, x: Writer)
    requires WriterRecorded(past, w, x) && step != WakeListeners(w) && step != CancelWrite(w)
    requires !(step.PushBegin? && step.writer == w)
    ensures WriterRecorded(past + [step], w, x)
  {
    assert (past + [step])[..|past|] == past;
    if !x.Inserting? {
      UnannouncedStays(past, step, w);
    }
  }

  lemma WritersRecorded(past: seq<Step>, s: Store, step: Step)
    requires Enabled(s, step) && Recorded(past, s)
    ensures forall w :: w in Apply(s, step).writers ==> WriterRecorded(past + [step], w, Apply(s, step).writers[w])
  {
    var s' := Apply(s, step);
    forall w | w in s'.writers
      ensures WriterRecorded(past + [step], w, s'.writers[w])
    {
      if w in s.writers && s'.writers[w] == s.writers[w] {
        WriterStays(past, step, w, s.writers[w]);
      } else if step.PushBegin? {
        assert (past + [step])[..|past|] == past;
      } else {
        UnannouncedStarts(past, step, w);
      }
    }
  }

  lemma LogRecorded(past: seq<Step>, s: Store, step: Step)
    requires Enabled(s, step) && Recorded(past, s)
    ensures Events(Apply(s, step).rows) == Pushed(past + [step]) && Apply(s, step).state == LastState(past + [step])
  {
    assert (past + [step])[..|past|] == past;
    if step.PushInsert? {
      assert WriterRecorded(past, step.writer, s.writers[step.writer]);
      var row := Row(s.writers[step.writer].n, s.writers[step.writer].event);
      assert Events(s.rows + [row]) == Events(s.rows) + [row.event];
    }
  }

  lemma SilenceRecorded(past: seq<Step>, s: Store, step: Step)
    requires Enabled(s, step) && Recorded(past, s)
    ensures Apply(s, step).silent ==> Silenced(past + [step])
  {
    if s.silent && !step.WakeListeners? {
      SilencedStays(past, step);
    } else if step.CancelWrite? && !s.writers[step.writer].Inserting? {
      assert WriterRecorded(past, step.writer, s.writers[step.writer]);
      SilencedStarts(past, step.writer);
    }
  }

  lemma {:induction false} RunIsRecorded(past: seq<Step>, s: Store, steps: seq<Step>, t: Store)
    requires Recorded(past, s) && Runs(s, steps, t)
    ensures Recorded(past + steps, t)
    decreases |steps|
  {
    if steps == [] {
      assert past + steps == past;
    } else {
      LogRecorded(past, s, steps[0]);
      WritersRecorded(past, s, steps[0]);
      SilenceRecorded(past, s, steps[0]);
      RunIsRecorded(past + [steps[0]], Apply(s, steps[0]), steps[1..], t);
      assert past + [steps[0]] + steps[1..] == past + steps;
    }
  }

  /** In every run the table holds the pushed events in the order of their insertion, and the state is the last one set. */
  lemma LogIsThePushes(steps: seq<Step>, t: Store)
    requires Runs(Start, steps, t)
    ensures Events(t.rows) == Pushed(steps) && t.state == LastState(steps)
  {
    RunIsRecorded([], Start, steps, t);
    assert [] + steps == steps;
  }

  /** In every run, a subscriber that waits with its flag clear has been given every pushed event of a run that is not over,
      unless a write is unannounced or was silenced. */
  lemma WaitersMissOnlyUnannounced(steps: seq<Step>, t: Store, r: nat)
    requires Runs(Start, steps, t) && r in t.readers && t.readers[r].phase.Waiting? && !t.readers[r].wake
    ensures || (exists w :: Unannounced(steps, w)) || Silenced(steps)
            || (t.readers[r].given == Pushed(steps) && !LastState(steps).IsTerminal())
  {
    RunIsRecorded([], Start, steps, t);
    assert [] + steps == steps;
    NoWakeUpIsLost(steps, t, r);
    if InFlight(t) {
      var w :| w in t.writers && !t.writers[w].Inserting?;
      assert WriterRecorded(steps, w, t.writers[w]);
    }
  }

  // ------------------------------------------------------------------ leaving

  /** The subscriber abandoned the stream, or checked the state when the last one set was terminal. */
  ghost predicate HasReasonToLeave(past: seq<Step>, r: nat) {
    exists j :: 0 <= j < |past| && (past[j] == Abandon(r) || (past[j] == CheckState(r) && LastState(past[..j]).IsTerminal()))
  }

  ghost predicate EndedWithReason(past: seq<Step>, s: Store) {
    forall r :: r in s.readers && s.readers[r].phase.Ended? ==> HasReasonToLeave(past, r)
  }

  lemma ReasonStays(past: seq<Step>, step: Step, r: nat)
    requires HasReasonToLeave(past, r)
    ensures HasReasonToLeave(past + [step], r)
  {
    var j :| 0 <= j < |past| && (past[j] == Abandon(r) || (past[j] == CheckState(r) && LastState(past[..j]).IsTerminal()));
    assert (past + [step])[j] == past[j] && (past + [step])[..j] == past[..j];
  }

  lemma ReasonAtStep(past: seq<Step>, step: Step, r: nat)
    requires step == Abandon(r) || (step == CheckState(r) && LastState(past).IsTerminal())
    ensures HasReasonToLeave(past + [step], r)
  {
    assert (past + [step])[|past|] == step && (past + [step])[..|past|] == past;
  }

  lemma StepEndsWithReason(past: seq<Step>, s: Store, step: Step)
    requires Enabled(s, step) && s.state == LastState(past) && EndedWithReason(past, s)
    ensures EndedWithReason(past + [step], Apply(s, step))
  {
    var s' := Apply(s, step);
    forall r | r in s'.readers && s'.readers[r].phase.Ended?
      ensures HasReasonToLeave(past + [step], r)
    {
      if r in s.readers && s.readers[r].phase.Ended? {
        ReasonStays(past, step, r);
      } else {
        ReasonAtStep(past, step, r);
      }
    }
  }

  lemma {:induction false} RunEndsWithReason(past: seq<Step>, s: Store, steps: seq<Step>, t: Store)
    requires Recorded(past, s) && EndedWithReason(past, s) && Runs(s, steps, t)
    ensures EndedWithReason(past + steps, t)
    decreases |steps|
  {
    if steps == [] {
      assert past + steps == past;
    } else {
      LogRecorded(past, s, steps[0]);
      WritersRecorded(past, s, steps[0]);
      SilenceRecorded(past, s, steps[0]);
      StepEndsWithReason(past, s, steps[0]);
      RunEndsWithReason(past + [steps[0]], Apply(s, steps[0]), steps[1..], t);
      assert past + [steps[0]] + steps[1..] == past + steps;
    }
  }

  lemma CheckLeavesIffTerminal(s: Store, r: nat)
    requires Enabled(s, CheckState(r))
    ensures Apply(s, CheckState(r)).readers[r].phase.Ended? <==> s.state.IsTerminal()
  {
  }

  lemma LeftWithReason(past: seq<Step>, s: Store, r: nat)
    requires EndedWithReason(past, s) && r in s.readers
    ensures s.readers[r].phase.Ended? ==> HasReasonToLeave(past, r)
  {
  }

  /** In every run, a subscriber has left only if it was abandoned or found the last state set terminal, and one that checks
      the state leaves exactly when it is. */
  lemma LeavesOnlyWhenOver(steps: seq<Step>, t: Store, r: nat)
    requires Runs(Start, steps, t) && r in t.readers
    ensures t.readers[r].phase.Ended? ==> HasReasonToLeave(steps, r)
    ensures Enabled(t, CheckState(r)) ==>
              (Apply(t, CheckState(r)).readers[r].phase.Ended? <==> LastState(steps).IsTerminal())
  {
    RunEndsWithReason([], Start, steps, t);
    assert [] + steps == steps;
    LeftWithReason(steps, t, r);
    LogIsThePushes(steps, t);
    if Enabled(t, CheckState(r)) {
      CheckLeavesIffTerminal(t, r);
    }
  }

  // ------------------------------------------------------------------ coming to rest

  /** A move the subscriber makes by itself. */
  predicate IsMoveOf(step: Step, r: nat) {
    step in [Fetch(r), Yield(r), YieldedAll(r), CheckState(r), Resume(r)]
  }

  function MovesLeft(rows: nat, x: Reader): int {
    var phase := match x.phase case Fetching => 3 case Yielding(_) => 2 case Checking => 1 case _ => 0;
    (rows - 1 - x.lastSeen) + phase + (if x.wake then 4 else 0)
  }

  lemma MoveUsesOneOf(s: Store, x: Reader, step: Step)
    requires Aligned(s.rows, x)
    requires match step
             case Fetch(_) => x.phase.Fetching?
             case Yield(_) => Dense(s.rows) && x.phase.Yielding? && x.phase.batch != []
             case YieldedAll(_) => x.phase.Yielding?
             case CheckState(_) => x.phase.Checking?
             case Resume(_) => x.phase.Waiting? && x.wake
             case _ => false
    ensures MovesLeft(|s.rows|, ReaderStep(s, x, step)) < MovesLeft(|s.rows|, x)
  {
    if step.Yield? {
      assert x.phase.batch[0] == s.rows[x.lastSeen + 1];
    }
  }

  lemma MoveIsTheReaders(s: Store, step: Step, r: nat)
    requires Enabled(s, step) && IsMoveOf(step, r)
    ensures Apply(s, step) == s.(readers := s.readers[r := ReaderStep(s, s.readers[r], step)])
  {
  }

  lemma MoveUsesOne(s: Store, step: Step, r: nat)
    requires Inv(s) && Enabled(s, step) && IsMoveOf(step, r)
    ensures MovesLeft(|s.rows|, Apply(s, step).readers[r]) < MovesLeft(|s.rows|, s.readers[r])
    ensures Apply(s, step).rows == s.rows && r in Apply(s, step).readers
  {
    MoveIsTheReaders(s, step, r);
    var x := s.readers[r];
    assert Aligned(s.rows, x);
    MoveUsesOneOf(s, x, step);
  }

  lemma {:induction false} MovesAreFew(s: Store, steps: seq<Step>, t: Store, r: nat)
    requires Inv(s) && r in s.readers && Runs(s, steps, t) && forall step :: step in steps ==> IsMoveOf(step, r)
    ensures |steps| <= MovesLeft(|s.rows|, s.readers[r])
    decreases |steps|
  {
    assert Aligned(s.rows, s.readers[r]);
    if steps != [] {
      MoveUsesOne(s, steps[0], r);
      StepKeepsInv(s, steps[0]);
      MovesAreFew(Apply(s, steps[0]), steps[1..], t, r);
    }
  }

  /** While nobody writes, a subscriber comes to rest: at any time in any run it can make at most seven moves more than there
      are rows. */
  lemma SubscribersComeToRest(past: seq<Step>, s: Store, steps: seq<Step>, t: Store, r: nat)
    requires Runs(Start, past, s) && r in s.readers && Runs(s, steps, t) && forall step :: step in steps ==> IsMoveOf(step, r)
    ensures |steps| <= |s.rows| + 7
  {
    RunKeepsInv(Start, past, s);
    MovesAreFew(s, steps, t, r);
    assert Aligned(s.rows, s.readers[r]);
  }

  // ------------------------------------------------------------------ pushes get through

  /** From wherever a run has led, a push can be begun as soon as no other holds the lock, and then be inserted and announced;
      the event joins the log and every subscriber's flag is set. */
  lemma PushGetsThrough(past: seq<Step>, s: Store, w: nat, event: string) returns (t: Store)
    requires Runs(Start, past, s) && s.lock.None? && w !in s.writers
    ensures Runs(s, [PushBegin(w, event), PushInsert(w), WakeListeners(w)], t)
    ensures Events(t.rows) == Events(s.rows) + [event] && t.lock.None? && w !in t.writers
    ensures forall r :: r in s.readers ==> r in t.readers && t.readers[r].wake && t.readers[r].given == s.readers[r].given
  {
    var s1 := Apply(s, PushBegin(w, event));
    var s2 := Apply(s1, PushInsert(w));
    t := Apply(s2, WakeListeners(w));
    var steps := [PushBegin(w, event), PushInsert(w), WakeListeners(w)];
    RunOne(s2, WakeListeners(w), [], t);
    RunOne(s1, PushInsert(w), [WakeListeners(w)], t);
    RunOne(s, PushBegin(w, event), [PushInsert(w)] + [WakeListeners(w)], t);
    assert steps == [PushBegin(w, event)] + ([PushInsert(w)] + [WakeListeners(w)]);
  }
}
