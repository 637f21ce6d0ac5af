/** Eager start of tool providers: any number of dispatches warming overlapping sets of providers, with one supervisor
    task per provider behind a double-checked lock, before shutdown begins. */
module Warmup {
  import opened Wrappers
  import opened Seqs

  /** A supervisor task: scheduled, inside the provider's start(), or settled with what start() came to. */
  datatype Status = Created | Starting | Ready | Failed(error: string)

  /** Where a dispatch is in warming provider number `at` of its agent. Holding waits for a supervisor while it has the
      lock, after the second look found one. */
  datatype Place = Checking | AwaitLock | Holding | AwaitReady | Passed | Raised(error: string) | Cancelled {
    predicate Finished() {
      Passed? || Raised? || Cancelled?
    }
  }

  datatype Dispatch = Dispatch(providers: seq<nat>, at: nat, place: Place)

  /** `created` and `started` list the supervisors created and the calls of start(), in order. */
  datatype State = State(dispatches: seq<Dispatch>, lock: Option<nat>, status: map<nat, Status>, created: seq<nat>,
                         started: seq<nat>)

  datatype Step =
    | Arrive(providers: seq<nat>)
    | Check(dispatch: nat)
    | Acquire(dispatch: nat)
    | Observe(dispatch: nat)
    | Cancel(dispatch: nat)
    | BeginStart(provider: nat)
    | Settle(provider: nat, error: Option<string>)

  const Cold := State([], None, map[], [], [])

  predicate IsAt(s: State, d: nat, place: Place) {
    d < |s.dispatches| && s.dispatches[d].place == place && s.dispatches[d].at < |s.dispatches[d].providers|
  }

  function Current(s: State, d: nat): nat
    requires d < |s.dispatches| && s.dispatches[d].at < |s.dispatches[d].providers|
  {
    s.dispatches[d].providers[s.dispatches[d].at]
  }

  predicate Settled(s: State, p: nat) {
    p in s.status && (s.status[p].Ready? || s.status[p].Failed?)
  }

  /** Each step runs from one await to the next. */
  predicate Enabled(s: State, step: Step) {
    match step
    case Arrive(_) => true
    case Check(d) => d < |s.dispatches| && s.dispatches[d].place.Checking?
    case Acquire(d) => IsAt(s, d, AwaitLock) && s.lock.None?
    case Observe(d) => (IsAt(s, d, AwaitReady) || IsAt(s, d, Holding)) && Settled(s, Current(s, d))
    case Cancel(d) => d < |s.dispatches| && !s.dispatches[d].place.Finished()
    case BeginStart(p) => p in s.status && s.status[p].Created?
    case Settle(p, _) => p in s.status && s.status[p].Starting?
  }

  function Moved(s: State, d: nat, at: nat, place: Place): State
    requires d < |s.dispatches|
  {
    s.(dispatches := s.dispatches[d := s.dispatches[d].(at := at, place := place)])
  }

  /** Leaving the lock's block gives the lock back. */
  function Released(s: State, d: nat): State
    requires d < |s.dispatches|
  {
    if s.dispatches[d].place.Holding? then s.(lock := None) else s
  }

  function Apply(s: State, step: Step): State
    requires Enabled(s, step)
  {
    match step
    case Arrive(providers) => s.(dispatches := s.dispatches + [Dispatch(providers, 0, Checking)])
    case Check(d) =>
      var x := s.dispatches[d];
      if x.at >= |x.providers| then Moved(s, d, x.at, Passed)
      else Moved(s, d, x.at, if x.providers[x.at] in s.status then AwaitReady else AwaitLock)
    case Acquire(d) =>
      var x, p := s.dispatches[d], Current(s, d);
      if p in s.status then Moved(s, d, x.at, Holding).(lock := Some(d))
      else Moved(s, d, x.at, AwaitReady).(status := s.status[p := Created], created := s.created + [p])
    case Observe(d) =>
      var x, p := s.dispatches[d], Current(s, d);
      if s.status[p].Failed? then Moved(Released(s, d), d, x.at, Raised(s.status[p].error))
      else Moved(Released(s, d), d, x.at + 1, Checking)
    case Cancel(d) => Moved(Released(s, d), d, s.dispatches[d].at, Cancelled)
    case BeginStart(p) => s.(status := s.status[p := Starting], started := s.started + [p])
    case Settle(p, error) => s.(status := s.status[p := if error.Some? then Failed(error.value) else Ready])
  }

  // ------------------------------------------------------------------ invariant

  /** Every provider before the current one started; the place says what is known of the current one. */
  ghost predicate Sound(status: map<nat, Status>, x: Dispatch) {
    && x.at <= |x.providers|
    && (forall i :: 0 <= i < x.at ==> x.providers[i] in status && status[x.providers[i]].Ready?)
    && (x.place.Passed? ==> x.at == |x.providers|)
    && (x.place.AwaitLock? || x.place.AwaitReady? || x.place.Holding? || x.place.Raised? ==> x.at < |x.providers|)
    && (x.place.AwaitReady? || x.place.Holding? || x.place.Raised? ==> x.providers[x.at] in status)
    && (x.place.Raised? ==> status[x.providers[x.at]] == Failed(x.place.error))
  }

  ghost predicate OneSupervisorEach(s: State) {
    && NoDup(s.created) && NoDup(s.started)
    && (forall p :: p in s.created <==> p in s.status)
    && (forall p :: p in s.started <==> p in s.status && !s.status[p].Created?)
  }

  ghost predicate LockInv(s: State) {
    && (forall d :: 0 <= d < |s.dispatches| && s.dispatches[d].place.Holding? ==> s.lock == Some(d))
    && (s.lock.Some? ==> s.lock.value < |s.dispatches| && s.dispatches[s.lock.value].place.Holding?)
  }

  ghost predicate Inv(s: State) {
    && (forall d :: 0 <= d < |s.dispatches| ==> Sound(s.status, s.dispatches[d]))
    && OneSupervisorEach(s)
    && LockInv(s)
  }

  /** Supervisors only move forward and a settled one never changes. */
  ghost predicate Grows(before: map<nat, Status>, after: map<nat, Status>) {
    forall p :: p in before ==> p in after && (before[p].Ready? || before[p].Failed? ==> after[p] == before[p])
  }

  lemma SoundGrows(before: map<nat, Status>, after: map<nat, Status>, x: Dispatch)
    requires Sound(before, x) && Grows(before, after)
    ensures Sound(after, x)
  {
  }

  lemma StepKeepsSound(s: State, step: Step)
    requires Inv(s) && Enabled(s, step)
    ensures forall d :: 0 <= d < |Apply(s, step).dispatches| ==>
              Sound(Apply(s, step).status, Apply(s, step).dispatches[d])
    ensures Grows(s.status, Apply(s, step).status)
  {
    var s' := Apply(s, step);
    forall d | 0 <= d < |s'.dispatches| ensures Sound(s'.status, s'.dispatches[d]) {
      if d < |s.dispatches| {
        SoundGrows(s.status, s'.status, s.dispatches[d]);
      }
    }
  }

  lemma StepKeepsOneEach(s: State, step: Step)
    requires Inv(s) && Enabled(s, step)
    ensures OneSupervisorEach(Apply(s, step))
  {
  }

  lemma StepKeepsInv(s: State, step: Step)
    requires Inv(s) && Enabled(s, step)
    ensures Inv(Apply(s, step)) && Grows(s.status, Apply(s, step).status)
  {
    StepKeepsSound(s, step);
    StepKeepsOneEach(s, step);
  }

  ghost predicate Runs(s: State, steps: seq<Step>, t: State)
    decreases |steps|
  {
    if steps == [] then s == t
    else Enabled(s, steps[0]) && Runs(Apply(s, steps[0]), steps[1..], t)
  }

  lemma {:induction false} RunKeepsInv(s: State, steps: seq<Step>, t: State)
    requires Inv(s) && Runs(s, steps, t)
    ensures Inv(t) && Grows(s.status, t.status)
    decreases |steps|
  {
    if steps != [] {
      StepKeepsInv(s, steps[0]);
      RunKeepsInv(Apply(s, steps[0]), steps[1..], t);
    }
  }

  /** In every run at most one supervisor is created and at most one start() called for any provider. */
  lemma AtMostOneStart(steps: seq<Step>, t: State)
    requires Runs(Cold, steps, t)
    ensures NoDup(t.created) && NoDup(t.started) && Elems(t.started) <= Elems(t.created)
  {
    RunKeepsInv(Cold, steps, t);
  }

  /** The number of leading providers that have started. */
  function Warm(status: map<nat, Status>, providers: seq<nat>): (n: nat)
    ensures n <= |providers|
    ensures forall i :: 0 <= i < n ==> providers[i] in status && status[providers[i]].Ready?
    ensures n < |providers| ==> !(providers[n] in status && status[providers[n]].Ready?)
  {
    if providers == [] || !(providers[0] in status && status[providers[0]].Ready?) then 0
    else 1 + Warm(status, providers[1..])
  }

  /** What warming these providers comes to, from the supervisors' states alone. */
  function Verdict(status: map<nat, Status>, providers: seq<nat>): (place: Place)
  {
    var n := Warm(status, providers);
    if n == |providers| then Passed
    else if providers[n] in status && status[providers[n]].Failed? then Raised(status[providers[n]].error)
    else Checking
  }

  /** In every run a dispatch that is done warming up passed exactly if every provider of its agent started, and raised
      exactly the cached error of the first one that failed. */
  lemma OutcomeIsTheSupervisors(steps: seq<Step>, t: State, d: nat)
    requires Runs(Cold, steps, t) && d < |t.dispatches|
    requires t.dispatches[d].place.Passed? || t.dispatches[d].place.Raised?
    ensures t.dispatches[d].place == Verdict(t.status, t.dispatches[d].providers)
  {
    RunKeepsInv(Cold, steps, t);
    assert Sound(t.status, t.dispatches[d]);
  }

  /** Two dispatches of agents with the same providers never disagree, even if one was done long before the other. */
  lemma OutcomesAgree(first: seq<Step>, s: State, second: seq<Step>, t: State, d: nat, e: nat)
    requires Runs(Cold, first, s) && Runs(s, second, t)
    requires d < |s.dispatches| && (s.dispatches[d].place.Passed? || s.dispatches[d].place.Raised?)
    requires e < |t.dispatches| && (t.dispatches[e].place.Passed? || t.dispatches[e].place.Raised?)
    requires s.dispatches[d].providers == t.dispatches[e].providers
    ensures s.dispatches[d].place == t.dispatches[e].place
  {
    RunKeepsInv(Cold, first, s);
    RunKeepsInv(s, second, t);
    SoundGrows(s.status, t.status, s.dispatches[d]);
    assert Sound(t.status, t.dispatches[e]);
  }

  // ------------------------------------------------------------------ what start() came to

  /** What the steps taken so far say about the supervisors: a start began before it settled and settled at most once, and
      the status is what the settling step brought. */
  ghost predicate Recorded(past: seq<Step>, status: map<nat, Status>) {
    && (forall p :: p in status && status[p].Ready? ==> Settle(p, None) in past)
    && (forall p :: p in status && status[p].Failed? ==> Settle(p, Some(status[p].error)) in past)
    && (forall p, r :: Settle(p, r) in past ==> p in status && (status[p].Ready? || status[p].Failed?))
    && (forall p :: BeginStart(p) in past <==> p in status && !status[p].Created?)
  }

  ghost predicate OnceEach(past: seq<Step>) {
    && (forall i, j :: 0 <= i < j < |past| && past[i].Settle? && past[j].Settle? ==>
          past[i].provider != past[j].provider)
    && (forall i, j :: 0 <= i < j < |past| && past[i].BeginStart? && past[j].BeginStart? ==>
          past[i].provider != past[j].provider)
  }

  lemma OneMoreStep(past: seq<Step>, step: Step)
    ensures forall x :: x in past + [step] <==> x in past || x == step
  {
  }

  lemma OtherStepIsRecorded(past: seq<Step>, status: map<nat, Status>, step: Step)
    requires Recorded(past, status) && !step.Settle? && !step.BeginStart?
    ensures Recorded(past + [step], status)
  {
    OneMoreStep(past, step);
  }

  lemma StatusIsRecorded(past: seq<Step>, status: map<nat, Status>, p: nat, v: Status, step: Step)
    requires Recorded(past, status)
    requires match v
             case Created => p !in status && step.Acquire?
             case Starting => p in status && status[p].Created? && step == BeginStart(p)
             case Ready => p in status && status[p].Starting? && step == Settle(p, None)
             case Failed(e) => p in status && status[p].Starting? && step == Settle(p, Some(e))
    ensures Recorded(past + [step], status[p := v])
  {
    OneMoreStep(past, step);
  }

  lemma StepIsRecorded(past: seq<Step>, s: State, step: Step)
    requires Enabled(s, step) && Recorded(past, s.status)
    ensures Recorded(past + [step], Apply(s, step).status)
  {
    match step
    case BeginStart(p) => StatusIsRecorded(past, s.status, p, Starting, step);
    case Settle(p, error) =>
      StatusIsRecorded(past, s.status, p, if error.Some? then Failed(error.value) else Ready, step);
    case Acquire(d) =>
      if Current(s, d) in s.status {
        OtherStepIsRecorded(past, s.status, step);
      } else {
        StatusIsRecorded(past, s.status, Current(s, d), Created, step);
      }
    case _ => OtherStepIsRecorded(past, s.status, step);
  }

  lemma StepIsOnce(past: seq<Step>, s: State, step: Step)
    requires Enabled(s, step) && Recorded(past, s.status) && OnceEach(past)
    ensures OnceEach(past + [step])
  {
    forall i | 0 <= i < |past|
      ensures past[i].Settle? && step.Settle? ==> past[i].provider != step.provider
      ensures past[i].BeginStart? && step.BeginStart? ==> past[i].provider != step.provider
    {
      assert past[i] in past;
      if past[i].Settle? {
        assert Settle(past[i].provider, past[i].error) in past;
        assert Settled(s, past[i].provider);
      }
      if past[i].BeginStart? {
        assert BeginStart(past[i].provider) in past;
      }
    }
  }

  lemma {:induction false} RunIsRecorded(past: seq<Step>, s: State, steps: seq<Step>, t: State)
    requires Inv(s) && Recorded(past, s.status) && OnceEach(past) && Runs(s, steps, t)
    ensures Recorded(past + steps, t.status) && OnceEach(past + steps)
    decreases |steps|
  {
    if steps == [] {
      assert past + steps == past;
    } else {
      StepKeepsInv(s, steps[0]);
      StepIsRecorded(past, s, steps[0]);
      StepIsOnce(past, s, steps[0]);
      RunIsRecorded(past + [steps[0]], Apply(s, steps[0]), steps[1..], t);
      assert past + [steps[0]] + steps[1..] == past + steps;
    }
  }

  lemma RunFromCold(steps: seq<Step>, t: State)
    requires Runs(Cold, steps, t)
    ensures Inv(t) && Recorded(steps, t.status) && OnceEach(steps)
  {
    RunKeepsInv(Cold, steps, t);
    RunIsRecorded([], Cold, steps, t);
    assert [] + steps == steps;
  }

  /** In every run no provider is started twice and no start settles twice. A dispatch that passed did so after every
      provider of its agent had started; one that raised, after every earlier provider had started and with the very error
      its current provider's start raised. */
  lemma DispatchesSeeTheStarts(steps: seq<Step>, t: State, d: nat)
    requires Runs(Cold, steps, t) && d < |t.dispatches|
    ensures OnceEach(steps)
    ensures var x := t.dispatches[d];
            && (x.place.Passed? ==> forall i :: 0 <= i < |x.providers| ==> Settle(x.providers[i], None) in steps)
            && (x.place.Raised? ==> x.at < |x.providers| && Settle(x.providers[x.at], Some(x.place.error)) in steps)
            && (x.place.Raised? ==> forall i :: 0 <= i < x.at ==> Settle(x.providers[i], None) in steps)
  {
    RunFromCold(steps, t);
    assert Sound(t.status, t.dispatches[d]);
  }

  lemma SettledOneWay(steps: seq<Step>, p: nat, e: string)
    requires OnceEach(steps) && Settle(p, Some(e)) in steps
    ensures Settle(p, None) !in steps
  {
    assert Settle(p, None) != Settle(p, Some(e));
  }

  /** A dispatch that is done passed if and only if every start it needed came to an end without an error. */
  lemma PassedIffAllStarted(steps: seq<Step>, t: State, d: nat)
    requires Runs(Cold, steps, t) && d < |t.dispatches|
    requires t.dispatches[d].place.Passed? || t.dispatches[d].place.Raised?
    ensures t.dispatches[d].place.Passed? <==>
            forall i :: 0 <= i < |t.dispatches[d].providers| ==> Settle(t.dispatches[d].providers[i], None) in steps
  {
    DispatchesSeeTheStarts(steps, t, d);
    var x := t.dispatches[d];
    if x.place.Raised? {
      SettledOneWay(steps, x.providers[x.at], x.place.error);
    }
  }

  /** The providers each dispatch arrived with. */
  function Arrivals(past: seq<Step>): seq<seq<nat>> {
    if past == [] then []
    else
      var last := past[|past| - 1];
      Arrivals(past[..|past| - 1]) + (if last.Arrive? then [last.providers] else [])
  }

  ghost predicate ArrivedAs(past: seq<Step>, ds: seq<Dispatch>) {
    && |ds| == |Arrivals(past)|
    && forall d :: 0 <= d < |ds| ==> ds[d].providers == Arrivals(past)[d] && (ds[d].place.Cancelled? ==> Cancel(d) in past)
  }

  lemma StepArrivesAs(past: seq<Step>, s: State, step: Step)
    requires Enabled(s, step) && ArrivedAs(past, s.dispatches)
    ensures ArrivedAs(past + [step], Apply(s, step).dispatches)
  {
    assert (past + [step])[..|past|] == past;
    OneMoreStep(past, step);
  }

  lemma OneByOne(past: seq<Step>, steps: seq<Step>)
    ensures steps == [] ==> past + steps == past
    ensures steps != [] ==> past + [steps[0]] + steps[1..] == past + steps
  {
  }

  lemma {:induction false} RunArrivesAs(past: seq<Step>, s: State, steps: seq<Step>, t: State)
    requires ArrivedAs(past, s.dispatches) && Runs(s, steps, t)
    ensures ArrivedAs(past + steps, t.dispatches)
    decreases |steps|
  {
    OneByOne(past, steps);
    if steps != [] {
      StepArrivesAs(past, s, steps[0]);
      RunArrivesAs(past + [steps[0]], Apply(s, steps[0]), steps[1..], t);
    }
  }

  /** In every run the dispatches are those that arrived, each with the providers it arrived with, and none ends cancelled
      that was not cancelled. */
  lemma DispatchesAreTheArrivals(steps: seq<Step>, t: State)
    requires Runs(Cold, steps, t)
    ensures |t.dispatches| == |Arrivals(steps)|
    ensures forall d :: 0 <= d < |t.dispatches| ==> t.dispatches[d].providers == Arrivals(steps)[d]
    ensures forall d :: 0 <= d < |t.dispatches| && t.dispatches[d].place.Cancelled? ==> Cancel(d) in steps
  {
    RunArrivesAs([], Cold, steps, t);
    OneByOne([], steps);
    assert [] + steps == steps;
  }

  // ------------------------------------------------------------------ no deadlock, no livelock

  /** Taken by the program itself once a dispatch has arrived and start() returns or raises. */
  predicate Internal(step: Step) {
    !step.Arrive? && !step.Cancel?
  }

  /** As long as some dispatch is not finished something can move. */
  lemma SomethingMoves(s: State, d: nat) returns (step: Step)
    requires Inv(s) && d < |s.dispatches| && !s.dispatches[d].place.Finished()
    ensures Internal(step) && Enabled(s, step)
  {
    assert Sound(s.status, s.dispatches[d]);
    var x := s.dispatches[d];
    if x.place.Checking? {
      step := Check(d);
    } else if x.place.AwaitLock? && s.lock.None? {
      step := Acquire(d);
    } else {
      var e := if x.place.AwaitLock? then s.lock.value else d;
      assert Sound(s.status, s.dispatches[e]);
      var p := Current(s, e);
      step := match s.status[p] case Created => BeginStart(p) case Starting => Settle(p, None) case _ => Observe(e);
    }
  }

  function DispatchWork(x: Dispatch): nat {
    if x.place.Finished() || x.at > |x.providers| then 0
    else 10 * (|x.providers| - x.at) + (if x.place.Checking? then 9 else if x.place.AwaitLock? then 8 else 1)
  }

  function SupervisorWork(status: map<nat, Status>, p: nat): nat {
    if p in status && status[p].Created? then 2 else if p in status && status[p].Starting? then 1 else 0
  }

  function AllDispatchWork(ds: seq<Dispatch>): nat {
    if ds == [] then 0 else AllDispatchWork(ds[..|ds| - 1]) + DispatchWork(ds[|ds| - 1])
  }

  function AllSupervisorWork(status: map<nat, Status>, ps: seq<nat>): nat {
    if ps == [] then 0 else AllSupervisorWork(status, ps[..|ps| - 1]) + SupervisorWork(status, ps[|ps| - 1])
  }

  function Work(s: State): nat {
    AllDispatchWork(s.dispatches) + AllSupervisorWork(s.status, s.created)
  }

  lemma {:induction false} WorkUpdate(ds: seq<Dispatch>, d: nat, x: Dispatch)
    requires d < |ds|
    ensures AllDispatchWork(ds[d := x]) == AllDispatchWork(ds) - DispatchWork(ds[d]) + DispatchWork(x)
  {
    var n := |ds| - 1;
    if d < n {
      WorkUpdate(ds[..n], d, x);
      assert ds[d := x][..n] == ds[..n][d := x];
    } else {
      assert ds[d := x][..n] == ds[..n];
    }
  }

  lemma {:induction false} SupervisorUpdate(status: map<nat, Status>, ps: seq<nat>, p: nat, v: Status)
    requires NoDup(ps)
    ensures AllSupervisorWork(status[p := v], ps) ==
            AllSupervisorWork(status, ps) +
            (if p in ps then SupervisorWork(status[p := v], p) - SupervisorWork(status, p) else 0)
  {
    if ps != [] {
      var n := |ps| - 1;
      SupervisorUpdate(status, ps[..n], p, v);
      if ps[n] == p {
        assert p !in ps[..n];
      } else {
        assert p in ps ==> p in ps[..n];
      }
    }
  }

  lemma CreateWork(status: map<nat, Status>, created: seq<nat>, p: nat)
    requires NoDup(created) && p !in created
    ensures AllSupervisorWork(status[p := Created], created + [p]) == AllSupervisorWork(status, created) + 2
  {
    SupervisorUpdate(status, created, p, Created);
    assert (created + [p])[..|created|] == created;
  }

  lemma AcquireDoesWork(s: State, d: nat)
    requires Inv(s) && Enabled(s, Acquire(d))
    ensures Work(Apply(s, Acquire(d))) < Work(s)
  {
    var x, p := s.dispatches[d], Current(s, d);
    if p in s.status {
      WorkUpdate(s.dispatches, d, x.(place := Holding));
    } else {
      WorkUpdate(s.dispatches, d, x.(place := AwaitReady));
      CreateWork(s.status, s.created, p);
    }
  }

  lemma SupervisorDoesWork(s: State, p: nat, v: Status)
    requires OneSupervisorEach(s) && p in s.status && (s.status[p].Created? || s.status[p].Starting?)
    requires v != Created && v != s.status[p]
    requires s.status[p].Starting? ==> v.Ready? || v.Failed?
    ensures Work(s.(status := s.status[p := v])) < Work(s)
  {
    SupervisorUpdate(s.status, s.created, p, v);
  }

  lemma DispatchDoesWork(s: State, d: nat, x: Dispatch, lock: Option<nat>)
    requires d < |s.dispatches| && DispatchWork(x) < DispatchWork(s.dispatches[d])
    ensures Work(s.(dispatches := s.dispatches[d := x], lock := lock)) < Work(s)
  {
    WorkUpdate(s.dispatches, d, x);
  }

  /** Every step but an arrival leaves less to do. */
  lemma StepDoesWork(s: State, step: Step)
    requires Inv(s) && Enabled(s, step) && !step.Arrive?
    ensures Work(Apply(s, step)) < Work(s)
  {
    var s' := Apply(s, step);
    match step
    case Arrive(_) =>
    case BeginStart(p) => SupervisorDoesWork(s, p, Starting);
    case Settle(p, _) => SupervisorDoesWork(s, p, s'.status[p]);
    case Acquire(d) => AcquireDoesWork(s, d);
    case Check(d) => DispatchDoesWork(s, d, s'.dispatches[d], s'.lock);
    case Observe(d) => DispatchDoesWork(s, d, s'.dispatches[d], s'.lock);
    case Cancel(d) => DispatchDoesWork(s, d, s'.dispatches[d], s'.lock);
  }

  lemma {:induction false} RunsAreShort(s: State, steps: seq<Step>, t: State)
    requires Inv(s) && Runs(s, steps, t)
    requires forall i :: 0 <= i < |steps| ==> !steps[i].Arrive?
    ensures |steps| + Work(t) <= Work(s)
    decreases |steps|
  {
    if steps != [] {
      StepKeepsInv(s, steps[0]);
      StepDoesWork(s, steps[0]);
      RunsAreShort(Apply(s, steps[0]), steps[1..], t);
    }
  }

  ghost predicate Stuck(s: State) {
    forall step {:trigger Enabled(s, step)} :: Internal(step) ==> !Enabled(s, step)
  }

  lemma StuckIsDone(s: State)
    requires Inv(s) && Stuck(s)
    ensures s.lock.None? && forall d :: 0 <= d < |s.dispatches| ==> s.dispatches[d].place.Finished()
  {
    forall d | 0 <= d < |s.dispatches| ensures s.dispatches[d].place.Finished() {
      if !s.dispatches[d].place.Finished() {
        var step := SomethingMoves(s, d);
      }
    }
  }

  /** Once no more dispatches arrive, every run is over after at most Work steps, and a run that cannot go on has left the
      lock free and every dispatch passed, raised or cancelled. */
  lemma WarmupEnds(first: seq<Step>, s: State, steps: seq<Step>, t: State)
    requires Runs(Cold, first, s) && Runs(s, steps, t)
    requires forall i :: 0 <= i < |steps| ==> !steps[i].Arrive?
    ensures |steps| <= Work(s)
    ensures Stuck(t) ==> t.lock.None? && forall d :: 0 <= d < |t.dispatches| ==> t.dispatches[d].place.Finished()
  {
    RunKeepsInv(Cold, first, s);
    RunKeepsInv(s, steps, t);
    RunsAreShort(s, steps, t);
    if Stuck(t) {
      StuckIsDone(t);
    }
  }
}
