/** Subscribers of one run in the SQLite and RocksDB stores: every interleaving of pushes, state changes and readers. */
module RunStream {
  import opened Wrappers

  datatype RunState = Pending | Running | Completed | Failed | Cancelled {
    predicate IsTerminal() {
      Completed? || Failed? || Cancelled?
    }
  }

  /** A row of the event table: its sequence number and its event. */
  datatype Row = Row(n: nat, event: string)

  /** A push between reading its number and inserting, or any write between the write and its wake-up. */
  datatype Writer = Inserting(n: nat, event: string) | WakingAfterInsert | WakingAfterState

  datatype Phase = Fetching | Yielding(batch: seq<Row>) | Checking | Waiting | Ended

  /** A subscriber: where it is in its loop, its wake flag, the last number it saw, what it was given, and how many rows
      there were at its last fetch. */
  datatype Reader = Reader(phase: Phase, wake: bool, lastSeen: int, given: seq<string>, fetched: nat)

  /** `silent` says that some write was cancelled before its wake-up and that nobody has woken the readers since. */
  datatype Store = Store(rows: seq<Row>, state: RunState, lock: Option<nat>, writers: map<nat, Writer>,
                         readers: map<nat, Reader>, silent: bool)

  const Start := Store([], Pending, None, map[], map[], false)

  datatype Step =
    | PushBegin(writer: nat, event: string)
    | PushInsert(writer: nat)
    | SetState(writer: nat, state: RunState)
    | WakeListeners(writer: nat)
    | CancelWrite(writer: nat)
    | Subscribe(reader: nat)
    | Fetch(reader: nat)
    | Yield(reader: nat)
    | YieldedAll(reader: nat)
    | CheckState(reader: nat)
    | Resume(reader: nat)
    | Abandon(reader: nat)

  /** One more than the largest number in the table. */
  function NextNumber(rows: seq<Row>): nat {
    if rows == [] then 0
    else
      var before, last := NextNumber(rows[..|rows| - 1]), rows[|rows| - 1].n + 1;
      if before < last then last else before
  }

  /** The rows numbered above the cursor. */
  function RowsAfter(rows: seq<Row>, after: int): seq<Row> {
    if rows == [] then []
    else RowsAfter(rows[..|rows| - 1], after) +
         (if rows[|rows| - 1].n > after then [rows[|rows| - 1]] else [])
  }

  function Events(rows: seq<Row>): (r: seq<string>)
    ensures |r| == |rows| && forall i :: 0 <= i < |r| ==> r[i] == rows[i].event
  {
    seq(|rows|, i requires 0 <= i < |rows| => rows[i].event)
  }

  /** The push holds the run's write lock from reading its number until it wakes the listeners. A write that is cancelled
      gives the lock back and wakes nobody, whether or not it has reached the table. Waiting ends only with the flag set;
      clearing the flag and going back to fetching are one step. */
  predicate Enabled(s: Store, step: Step) {
    match step
    case PushBegin(w, _) => w !in s.writers && s.lock.None?
    case PushInsert(w) => w in s.writers && s.writers[w].Inserting?
    case SetState(w, _) => w !in s.writers
    case WakeListeners(w) => w in s.writers && !s.writers[w].Inserting?
    case CancelWrite(w) => w in s.writers
    case Subscribe(r) => r !in s.readers
    case Fetch(r) => r in s.readers && s.readers[r].phase.Fetching?
    case Yield(r) => r in s.readers && s.readers[r].phase.Yielding? && s.readers[r].phase.batch != []
    case YieldedAll(r) => r in s.readers && s.readers[r].phase.Yielding? && s.readers[r].phase.batch == []
    case CheckState(r) => r in s.readers && s.readers[r].phase.Checking?
    case Resume(r) => r in s.readers && s.readers[r].phase.Waiting? && s.readers[r].wake
    case Abandon(r) => r in s.readers
  }

  /** What a step of the subscriber does to it. */
  function ReaderStep(s: Store, x: Reader, step: Step): Reader
    requires step.Yield? ==> x.phase.Yielding? && x.phase.batch != []
  {
    match step
    case Fetch(_) => x.(phase := Yielding(RowsAfter(s.rows, x.lastSeen)), fetched := |s.rows|)
    case Yield(_) =>
      var row := x.phase.batch[0];
      x.(phase := Yielding(x.phase.batch[1..]), lastSeen := row.n, given := x.given + [row.event])
    case YieldedAll(_) => x.(phase := Checking)
    case CheckState(_) => x.(phase := if s.state.IsTerminal() then Ended else Waiting)
    case Resume(_) => x.(phase := Fetching, wake := false)
    case Abandon(_) => x.(phase := Ended)
    case _ => x
  }

  /** Every subscriber's flag set. */
  function Woken(readers: map<nat, Reader>): map<nat, Reader> {
    map r | r in readers :: readers[r].(wake := true)
  }

  function Apply(s: Store, step: Step): Store
    requires Enabled(s, step)
  {
    match step
    case PushBegin(w, event) => s.(writers := s.writers[w := Inserting(NextNumber(s.rows), event)], lock := Some(w))
    case PushInsert(w) =>
      s.(rows := s.rows + [Row(s.writers[w].n, s.writers[w].event)], writers := s.writers[w := WakingAfterInsert])
    case SetState(w, state) =>
      s.(state := state, writers := if state.IsTerminal() then s.writers[w := WakingAfterState] else s.writers)
    case WakeListeners(w) =>
      s.(writers := s.writers - {w}, lock := if s.writers[w].WakingAfterInsert? then None else s.lock,
         readers := Woken(s.readers), silent := false)
    case CancelWrite(w) =>
      s.(writers := s.writers - {w}, lock := if s.writers[w].WakingAfterState? then s.lock else None,
         silent := s.silent || !s.writers[w].Inserting?)
    case Subscribe(r) => s.(readers := s.readers[r := Reader(Fetching, false, -1, [], 0)])
    case _ => s.(readers := s.readers[step.reader := ReaderStep(s, s.readers[step.reader], step)])
  }

  // ------------------------------------------------------------------ the table

  /** Row k has number k. */
  ghost predicate Dense(rows: seq<Row>) {
    forall k :: 0 <= k < |rows| ==> rows[k].n == k
  }

  lemma {:induction false} NextIsLength(rows: seq<Row>)
    requires Dense(rows)
    ensures NextNumber(rows) == |rows|
  {
    if rows != [] {
      NextIsLength(rows[..|rows| - 1]);
    }
  }

  lemma SuffixOfPrefix(rows: seq<Row>, from: nat)
    requires from < |rows|
    ensures rows[from..] == rows[..|rows| - 1][from..] + [rows[|rows| - 1]]
  {
  }

  lemma {:induction false} AfterIsSuffix(rows: seq<Row>, after: int)
    requires Dense(rows) && -1 <= after < |rows|
    ensures RowsAfter(rows, after) == rows[after + 1..]
  {
    if rows != [] {
      var k := |rows| - 1;
      if after == k {
        NoneAfter(rows, after);
      } else {
        AfterIsSuffix(rows[..k], after);
        SuffixOfPrefix(rows, after + 1);
      }
    }
  }

  lemma {:induction false} NoneAfter(rows: seq<Row>, after: int)
    requires forall k :: 0 <= k < |rows| ==> rows[k].n <= after
    ensures RowsAfter(rows, after) == []
  {
    if rows != [] {
      NoneAfter(rows[..|rows| - 1], after);
    }
  }

  /** The store's own sections between awaits. Each changes the fields as the step of the same name does. */
  class SQLiteRunStore {
    var rows: seq<Row>
    var state: RunState
    // The listeners of the run.
    var readers: map<nat, Reader>

    method InsertEvent(event: string)
      modifies this`rows
      ensures rows == old(rows) + [Row(NextNumber(old(rows)), event)]
    {
      var next := 0;
      for i := 0 to |rows|
        invariant next == NextNumber(rows[..i]) && rows == old(rows)
      {
        assert rows[..i + 1][..i] == rows[..i];
        if rows[i].n + 1 > next {
          next := rows[i].n + 1;
        }
      }
      assert rows[..|rows|] == rows;
      rows := rows + [Row(next, event)];
    }

    method FetchEventsAfter(after: int) returns (out: seq<Row>)
      ensures out == RowsAfter(rows, after)
    {
      out := [];
      for i := 0 to |rows|
        invariant out == RowsAfter(rows[..i], after)
      {
        assert rows[..i + 1][..i] == rows[..i];
        if rows[i].n > after {
          out := out + [rows[i]];
        }
      }
      assert rows[..|rows|] == rows;
    }

    method WakeAll()
      modifies this`readers
      ensures readers == Woken(old(readers))
    {
      var left := readers.Keys;
      while left != {}
        invariant left <= old(readers).Keys == readers.Keys
        invariant forall r :: r in readers ==>
                    readers[r] == if r in left then old(readers)[r] else old(readers)[r].(wake := true)
        decreases |left|
      {
        var r :| r in left;
        readers := readers[r := readers[r].(wake := true)];
        left := left - {r};
      }
    }

    /** Whether the listeners were woken. */
    method UpdateState(newState: RunState) returns (woken: bool)
      modifies this`state, this`readers
      ensures state == newState && woken == newState.IsTerminal()
      ensures readers == if woken then Woken(old(readers)) else old(readers)
    {
      state := newState;
      woken := newState.IsTerminal();
      if woken {
        WakeAll();
      }
    }
  }

  // ------------------------------------------------------------------ the invariant

  /** Some write has not woken the listeners yet. */
  ghost predicate InFlight(s: Store) {
    exists w :: w in s.writers && !s.writers[w].Inserting?
  }

  /** What the subscriber was given is the log up to its cursor; what it still holds is the stretch that follows, up to
      what it fetched last. */
  ghost predicate Aligned(rows: seq<Row>, x: Reader) {
    && -1 <= x.lastSeen < |rows| && |x.given| == x.lastSeen + 1 <= x.fetched <= |rows|
    && x.given == Events(rows[..x.lastSeen + 1])
    && (x.phase.Yielding? ==> x.phase.batch == rows[x.lastSeen + 1..x.fetched])
    && (x.phase.Checking? || x.phase.Waiting? ==> x.lastSeen + 1 == x.fetched)
  }

  /** With its flag clear, no write in flight and none silent, a subscriber past its fetch has fetched the whole log, and
      the state is not terminal when it waits. */
  ghost predicate UpToDate(s: Store, x: Reader) {
    !x.wake && !InFlight(s) && !s.silent ==>
      && (x.phase.Yielding? || x.phase.Checking? || x.phase.Waiting? ==> x.fetched == |s.rows|)
      && (x.phase.Waiting? ==> !s.state.IsTerminal())
  }

  /** At most one push is between reading its number and waking, and the number it read is still the next. */
  ghost predicate LockInv(s: Store) {
    && (forall w :: w in s.writers && !s.writers[w].WakingAfterState? ==> s.lock == Some(w))
    && (forall w :: w in s.writers && s.writers[w].Inserting? ==> s.writers[w].n == |s.rows|)
  }

  ghost predicate Inv(s: Store) {
    && Dense(s.rows) && LockInv(s)
    && (forall r {:trigger s.readers[r]} :: r in s.readers ==> Aligned(s.rows, s.readers[r]) && UpToDate(s, s.readers[r]))
  }

  lemma AlignedGrows(rows: seq<Row>, row: Row, x: Reader)
    requires Aligned(rows, x)
    ensures Aligned(rows + [row], x)
  {
    assert (rows + [row])[..x.lastSeen + 1] == rows[..x.lastSeen + 1];
    if x.phase.Yielding? {
      assert (rows + [row])[x.lastSeen + 1..x.fetched] == rows[x.lastSeen + 1..x.fetched];
    }
  }

  lemma ReaderStepAligned(s: Store, x: Reader, step: Step)
    requires Dense(s.rows) && Aligned(s.rows, x) && UpToDate(s, x)
    requires match step
             case Fetch(_) => x.phase.Fetching?
             case Yield(_) => x.phase.Yielding? && x.phase.batch != []
             case YieldedAll(_) => x.phase.Yielding? && x.phase.batch == []
             case CheckState(_) => x.phase.Checking?
             case Resume(_) => x.phase.Waiting? && x.wake
             case _ => true
    ensures Aligned(s.rows, ReaderStep(s, x, step)) && UpToDate(s, ReaderStep(s, x, step))
  {
    match step
    case Fetch(_) => AfterIsSuffix(s.rows, x.lastSeen);
    case Yield(_) =>
      var k := x.lastSeen + 1;
      assert x.phase.batch[0] == s.rows[k];
      assert s.rows[..k + 1] == s.rows[..k] + [s.rows[k]];
      assert s.rows[k..x.fetched][1..] == s.rows[k + 1..x.fetched];
    case _ =>
  }

  predicate IsWrite(step: Step) {
    step.PushBegin? || step.PushInsert? || step.SetState? || step.WakeListeners? || step.CancelWrite?
  }

  lemma WriterStepKeeps(s: Store, step: Step, r: nat)
    requires Inv(s) && Enabled(s, step) && r in s.readers
    requires IsWrite(step)
    ensures r in Apply(s, step).readers
    ensures Aligned(Apply(s, step).rows, Apply(s, step).readers[r]) && UpToDate(Apply(s, step), Apply(s, step).readers[r])
  {
    var s', x := Apply(s, step), s.readers[r];
    assert Aligned(s.rows, x) && UpToDate(s, x);
    match step
    case PushBegin(w, _) =>
      FlightStays(s, s', w);
    case PushInsert(w) =>
      AlignedGrows(s.rows, Row(s.writers[w].n, s.writers[w].event), x);
      assert !s'.writers[w].Inserting?;
    case SetState(w, state) =>
      if state.IsTerminal() {
        assert !s'.writers[w].Inserting?;
      }
    case WakeListeners(w) =>
    case CancelWrite(w) =>
      assert s.writers[w].Inserting? && InFlight(s) ==> InFlight(s') by {
        if s.writers[w].Inserting? && InFlight(s) {
          var v :| v in s.writers && !s.writers[v].Inserting?;
          assert v in s'.writers && !s'.writers[v].Inserting?;
        }
      }
  }

  lemma FlightStays(s: Store, s': Store, w: nat)
    requires w !in s.writers && (forall v :: v in s.writers ==> v in s'.writers && s'.writers[v] == s.writers[v])
    ensures InFlight(s) ==> InFlight(s')
  {
  }

  lemma StepKeepsInv(s: Store, step: Step)
    requires Inv(s) && Enabled(s, step)
    ensures Inv(Apply(s, step))
  {
    var s' := Apply(s, step);
    NextIsLength(s.rows);
    forall r | r in s'.readers
      ensures Aligned(s'.rows, s'.readers[r]) && UpToDate(s', s'.readers[r])
    {
      if IsWrite(step) {
        WriterStepKeeps(s, step, r);
      } else if r in s.readers {
        assert Aligned(s.rows, s.readers[r]) && UpToDate(s, s.readers[r]);
        if !step.Subscribe? && step.reader == r {
          ReaderStepAligned(s, s.readers[r], step);
          assert InFlight(s') <==> InFlight(s);
        }
      }
    }
  }

  // ------------------------------------------------------------------ runs

  ghost predicate Runs(s: Store, steps: seq<Step>, t: Store)
    decreases |steps|
  {
    if steps == [] then s == t
    else Enabled(s, steps[0]) && Runs(Apply(s, steps[0]), steps[1..], t)
  }

  lemma {:induction false} RunKeepsInv(s: Store, steps: seq<Step>, t: Store)
    requires Inv(s) && Runs(s, steps, t)
    ensures Inv(t)
    decreases |steps|
  {
    if steps != [] {
      StepKeepsInv(s, steps[0]);
      RunKeepsInv(Apply(s, steps[0]), steps[1..], t);
    }
  }

  /** In every run, what a subscriber was given is a prefix of the log: nothing skipped, repeated or reordered. */
  lemma SubscribersSeePrefixes(steps: seq<Step>, t: Store, r: nat)
    requires Runs(Start, steps, t) && r in t.readers
    ensures t.readers[r].given <= Events(t.rows)
  {
    RunKeepsInv(Start, steps, t);
    var x := t.readers[r];
    assert Aligned(t.rows, x);
    assert forall i :: 0 <= i < |x.given| ==> x.given[i] == t.rows[i].event;
  }

  /** In every run, a subscriber that waits with its flag clear has been given the whole log and the run is not over,
      unless some writer is between its write and its wake-up, or was cancelled there and nobody has woken since. */
  lemma NoWakeUpIsLost(steps: seq<Step>, t: Store, r: nat)
    requires Runs(Start, steps, t) && r in t.readers && t.readers[r].phase.Waiting? && !t.readers[r].wake
    ensures InFlight(t) || t.silent || (t.readers[r].given == Events(t.rows) && !t.state.IsTerminal())
  {
    RunKeepsInv(Start, steps, t);
    var x := t.readers[r];
    assert Aligned(t.rows, x) && UpToDate(t, x);
    assert t.rows[..|t.rows|] == t.rows;
  }

  /** In every run two pushes never get the same number: the table is numbered 0, 1, 2, ... in push order. */
  lemma NumbersAreDense(steps: seq<Step>, t: Store)
    requires Runs(Start, steps, t)
    ensures forall k :: 0 <= k < |t.rows| ==> t.rows[k].n == k
  {
    RunKeepsInv(Start, steps, t);
  }

  /** A subscriber that leaves at its state check has been given the whole log if and only if nothing was inserted
      since its last fetch. */
  lemma CompleteIffNothingSinceFetch(steps: seq<Step>, t: Store, r: nat)
    requires Runs(Start, steps, t) && Enabled(t, CheckState(r)) && t.state.IsTerminal()
    ensures var x := Apply(t, CheckState(r)).readers[r];
            x.phase.Ended? && (x.given == Events(t.rows) <==> x.fetched == |t.rows|)
  {
    RunKeepsInv(Start, steps, t);
    assert Aligned(t.rows, t.readers[r]);
    assert t.rows[..|t.rows|] == t.rows;
  }

  /** A subscriber that waits has been given the whole log if and only if nothing was inserted since its last fetch. */
  lemma WaiterHasAllIffNothingSinceFetch(steps: seq<Step>, t: Store, r: nat)
    requires Runs(Start, steps, t) && r in t.readers && t.readers[r].phase.Waiting?
    ensures t.readers[r].given == Events(t.rows) <==> t.readers[r].fetched == |t.rows|
  {
    RunKeepsInv(Start, steps, t);
    assert Aligned(t.rows, t.readers[r]);
    assert t.rows[..|t.rows|] == t.rows;
  }

  /** Once no write is in flight or silent and no subscriber can move, every subscriber that has not left has been given the
      whole log of a run that is not over. */
  lemma QuietSubscribersHaveAll(steps: seq<Step>, t: Store, r: nat)
    requires Runs(Start, steps, t) && !InFlight(t) && !t.silent && r in t.readers
    requires forall step: Step {:trigger Enabled(t, step)} ::
               step.Fetch? || step.Yield? || step.YieldedAll? || step.CheckState? || step.Resume? ==> !Enabled(t, step)
    ensures t.readers[r].phase.Ended? || (t.readers[r].given == Events(t.rows) && !t.state.IsTerminal())
  {
    assert !Enabled(t, Fetch(r)) && !Enabled(t, Yield(r)) && !Enabled(t, YieldedAll(r));
    assert !Enabled(t, CheckState(r)) && !Enabled(t, Resume(r));
    if t.readers[r].phase.Waiting? {
      NoWakeUpIsLost(steps, t, r);
    }
  }

  lemma RunOne(s: Store, step: Step, rest: seq<Step>, t: Store)
    requires Enabled(s, step) && Runs(Apply(s, step), rest, t)
    ensures Runs(s, [step] + rest, t)
  {
    assert ([step] + rest)[1..] == rest;
  }

  lemma EndEarlyAtCheck(s: Store) returns (steps: seq<Step>, t: Store)
    requires s.state == Completed && 0 in s.readers && s.readers[0].phase.Checking?
    ensures Runs(s, steps, t) && t == s.(readers := s.readers[0 := s.readers[0].(phase := Ended)])
  {
    t := Apply(s, CheckState(0));
    steps := [CheckState(0)];
    RunOne(s, CheckState(0), [], t);
  }

  lemma EndEarlyAfterPush(s: Store) returns (steps: seq<Step>, t: Store)
    requires s.rows == [Row(0, "last")] && s.writers == map[] && s.readers.Keys == {0}
    requires s.readers[0].phase.Checking? && s.readers[0].given == []
    ensures Runs(s, steps, t) && t.rows == s.rows && t.writers == map[] && 0 in t.readers
    ensures t.readers[0].phase.Ended? && t.readers[0].given == []
  {
    var s1 := Apply(s, SetState(1, Completed));
    var s2 := Apply(s1, WakeListeners(1));
    steps, t := EndEarlyAtCheck(s2);
    RunOne(s1, WakeListeners(1), steps, t);
    RunOne(s, SetState(1, Completed), [WakeListeners(1)] + steps, t);
    steps := [SetState(1, Completed)] + ([WakeListeners(1)] + steps);
  }

  lemma EndEarlyAfterFetch(s: Store) returns (steps: seq<Step>, t: Store)
    requires s == Start.(readers := map[0 := Reader(Checking, false, -1, [], 0)])
    ensures Runs(s, steps, t) && t.rows == [Row(0, "last")] && t.writers == map[] && 0 in t.readers
    ensures t.readers[0].phase.Ended? && t.readers[0].given == []
  {
    var s1 := Apply(s, PushBegin(1, "last"));
    var s2 := Apply(s1, PushInsert(1));
    var s3 := Apply(s2, WakeListeners(1));
    steps, t := EndEarlyAfterPush(s3);
    RunOne(s2, WakeListeners(1), steps, t);
    RunOne(s1, PushInsert(1), [WakeListeners(1)] + steps, t);
    RunOne(s, PushBegin(1, "last"), [PushInsert(1)] + ([WakeListeners(1)] + steps), t);
    steps := [PushBegin(1, "last")] + ([PushInsert(1)] + ([WakeListeners(1)] + steps));
  }

  /** A run in which a stream ends without the last event although every writer is done. */
  lemma StreamCanEndEarly()
    ensures exists steps, t :: Runs(Start, steps, t) && 0 in t.readers && t.readers[0].phase.Ended? &&
              t.writers == map[] && t.readers[0].given == [] && Events(t.rows) == ["last"]
  {
    var s1 := Apply(Start, Subscribe(0));
    var s2 := Apply(s1, Fetch(0));
    var s3 := Apply(s2, YieldedAll(0));
    assert s3.readers == map[0 := Reader(Checking, false, -1, [], 0)];
    var steps, t := EndEarlyAfterFetch(s3);
    RunOne(s2, YieldedAll(0), steps, t);
    RunOne(s1, Fetch(0), [YieldedAll(0)] + steps, t);
    RunOne(Start, Subscribe(0), [Fetch(0)] + ([YieldedAll(0)] + steps), t);
  }

  lemma CancelAfterInsert(s: Store) returns (steps: seq<Step>, t: Store)
    requires s.rows == [] && s.lock.None? && s.writers == map[] && s.readers.Keys == {0}
    ensures Runs(s, steps, t) && t.readers == s.readers && t.rows == [Row(0, "last")] && t.writers == map[]
  {
    var s1 := Apply(s, PushBegin(1, "last"));
    var s2 := Apply(s1, PushInsert(1));
    t := Apply(s2, CancelWrite(1));
    RunOne(s2, CancelWrite(1), [], t);
    RunOne(s1, PushInsert(1), [CancelWrite(1)], t);
    RunOne(s, PushBegin(1, "last"), [PushInsert(1)] + [CancelWrite(1)], t);
    steps := [PushBegin(1, "last")] + ([PushInsert(1)] + [CancelWrite(1)]);
  }

  lemma CancelWhileWaiting(s: Store) returns (steps: seq<Step>, t: Store)
    requires s == Start.(readers := map[0 := Reader(Checking, false, -1, [], 0)])
    ensures Runs(s, steps, t) && t.rows == [Row(0, "last")] && t.writers == map[]
    ensures t.readers == map[0 := Reader(Waiting, false, -1, [], 0)]
  {
    var s1 := Apply(s, CheckState(0));
    assert s1.readers == map[0 := Reader(Waiting, false, -1, [], 0)];
    steps, t := CancelAfterInsert(s1);
    RunOne(s, CheckState(0), steps, t);
    steps := [CheckState(0)] + steps;
  }

  /** A run in which a push is cancelled between its write and its wake-up: every writer is done, and a subscriber waits
      with its flag clear for an event that is in the table. */
  lemma CancelledPushStrandsSubscriber()
    ensures exists steps, t :: Runs(Start, steps, t) && t.writers == map[] && 0 in t.readers &&
              t.readers[0].phase.Waiting? && !t.readers[0].wake &&
              t.readers[0].given == [] && Events(t.rows) == ["last"]
  {
    var s1 := Apply(Start, Subscribe(0));
    var s2 := Apply(s1, Fetch(0));
    var s3 := Apply(s2, YieldedAll(0));
    assert s3.readers == map[0 := Reader(Checking, false, -1, [], 0)];
    var steps, t := CancelWhileWaiting(s3);
    RunOne(s2, YieldedAll(0), steps, t);
    RunOne(s1, Fetch(0), [YieldedAll(0)] + steps, t);
    RunOne(Start, Subscribe(0), [Fetch(0)] + ([YieldedAll(0)] + steps), t);
  }
}
