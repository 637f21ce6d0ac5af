/** The runs of the Redis stream, said by their actions: what is in the log, which state the run is in, and that polling gets a
    subscriber through. */
module RedisRuns {
  import opened RunStream
  import opened RedisStream

  // ------------------------------------------------------------------ the log and the state

  /** The pushed events, in order. */
  function Added(past: seq<Action>): seq<string> {
    if past == [] then []
    else
      var last := past[|past| - 1];
      Added(past[..|past| - 1]) + (if last.XAdd? then [last.event] else [])
  }

  predicate IsEnding(a: Action) {
    a.Transition? && a.wanted.IsTerminal()
  }

  /** The j-th action is the first that asks for a terminal state. */
  ghost predicate EndsAt(past: seq<Action>, j: nat) {
    j < |past| && IsEnding(past[j]) && forall i :: 0 <= i < j ==> !IsEnding(past[i])
  }

  /** The j-th action is the last that asks for a state. */
  ghost predicate LastTransition(past: seq<Action>, j: nat) {
    j < |past| && past[j].Transition? && forall i :: j < i < |past| ==> !past[i].Transition?
  }

  /** A run is in the first terminal state that was asked for; before that it is in the last state asked for. */
  ghost predicate IsStateOf(past: seq<Action>, state: RunState) {
    && (forall j: nat :: EndsAt(past, j) ==> state == past[j].wanted)
    && (state.IsTerminal() ==> exists j: nat :: EndsAt(past, j))
    && (!state.IsTerminal() ==> forall j: nat :: LastTransition(past, j) ==> state == past[j].wanted)
    && (!state.IsTerminal() && (forall j :: 0 <= j < |past| ==> !past[j].Transition?) ==> state == Pending)
  }

  lemma EndsAtStays(past: seq<Action>, a: Action, j: nat)
    requires j < |past|
    ensures EndsAt(past + [a], j) <==> EndsAt(past, j)
  {
    assert forall i :: 0 <= i < |past| ==> (past + [a])[i] == past[i];
  }

  lemma {:induction false} FirstEndExists(past: seq<Action>, k: nat) returns (j: nat)
    requires k < |past| && IsEnding(past[k])
    ensures EndsAt(past, j) && j <= k
    decreases k
  {
    j := k;
    if !EndsAt(past, k) {
      var i :| 0 <= i < k && IsEnding(past[i]);
      j := FirstEndExists(past, i);
    }
  }

  lemma EndsOnce(past: seq<Action>, j: nat)
    requires EndsAt(past, j)
    ensures forall i: nat :: EndsAt(past, i) ==> i == j
  {
    forall i: nat | EndsAt(past, i)
      ensures i == j
    {
      assert !(j < i) && !(i < j);
    }
  }

  lemma EndedStateIsKept(past: seq<Action>, state: RunState, a: Action)
    requires IsStateOf(past, state) && state.IsTerminal()
    ensures IsStateOf(past + [a], state)
  {
    var j: nat :| EndsAt(past, j);
    EndsAtStays(past, a, j);
    EndsOnce(past + [a], j);
  }

  lemma OpenStateHasNoEnd(past: seq<Action>, state: RunState)
    requires IsStateOf(past, state) && !state.IsTerminal()
    ensures forall i :: 0 <= i < |past| ==> !IsEnding(past[i])
  {
    forall i | 0 <= i < |past|
      ensures !IsEnding(past[i])
    {
      if IsEnding(past[i]) {
        var j := FirstEndExists(past, i);
      }
    }
  }

  lemma OpenStateMoves(past: seq<Action>, state: RunState, wanted: RunState)
    requires IsStateOf(past, state) && !state.IsTerminal()
    ensures IsStateOf(past + [Transition(wanted)], wanted)
  {
    OpenStateHasNoEnd(past, state);
    var all := past + [Transition(wanted)];
    assert forall i :: 0 <= i < |past| ==> all[i] == past[i];
    assert all[|past|] == Transition(wanted);
    assert wanted.IsTerminal() ==> EndsAt(all, |past|);
    assert forall j: nat :: EndsAt(all, j) ==> j == |past|;
    assert forall j: nat :: LastTransition(all, j) ==> !(j < |past|);
  }

  lemma OpenStateStays(past: seq<Action>, state: RunState, a: Action)
    requires IsStateOf(past, state) && !state.IsTerminal() && !a.Transition?
    ensures IsStateOf(past + [a], state)
  {
    OpenStateHasNoEnd(past, state);
    var all := past + [a];
    assert forall i :: 0 <= i < |past| ==> all[i] == past[i];
    assert all[|past|] == a;
    forall j: nat | LastTransition(all, j)
      ensures LastTransition(past, j)
    {
      assert j != |past|;
    }
    assert forall j: nat :: EndsAt(all, j) ==> IsEnding(all[j]);
  }

  lemma ActionIsRecorded(past: seq<Action>, s: Run, a: Action)
    requires CanAct(s, a) && s.log == Added(past) && IsStateOf(past, s.state)
    ensures Act(s, a).log == Added(past + [a]) && IsStateOf(past + [a], Act(s, a).state)
  {
    assert (past + [a])[..|past|] == past;
    if s.state.IsTerminal() {
      EndedStateIsKept(past, s.state, a);
    } else if a.Transition? {
      OpenStateMoves(past, s.state, a.wanted);
    } else {
      OpenStateStays(past, s.state, a);
    }
  }

  lemma OneByOne(past: seq<Action>, actions: seq<Action>)
    ensures actions == [] ==> past + actions == past
    ensures actions != [] ==> past + [actions[0]] + actions[1..] == past + actions
  {
  }

  lemma {:induction false} RunIsRecorded(past: seq<Action>, s: Run, actions: seq<Action>, t: Run)
    requires s.log == Added(past) && IsStateOf(past, s.state) && Acts(s, actions, t)
    ensures t.log == Added(past + actions) && IsStateOf(past + actions, t.state)
    decreases |actions|
  {
    OneByOne(past, actions);
    if actions != [] {
      ActionIsRecorded(past, s, actions[0]);
      RunIsRecorded(past + [actions[0]], Act(s, actions[0]), actions[1..], t);
    }
  }

  /** In every run the log is the pushed events in order, and the state is the first terminal one asked for, or the last one
      asked for while there is none. */
  lemma RunIsItsActions(actions: seq<Action>, t: Run)
    requires Acts(Created, actions, t)
    ensures t.log == Added(actions) && IsStateOf(actions, t.state)
  {
    RunIsRecorded([], Created, actions, t);
    assert [] + actions == actions;
  }

  // ------------------------------------------------------------------ polling gets through

  ghost predicate IsPoll(actions: seq<Action>, who: nat) {
    forall a :: a in actions ==> a == Poll(who)
  }

  /** Only the subscriber differs. */
  ghost predicate OnlyPolled(s: Run, t: Run, who: nat) {
    who in s.subscribers && who in t.subscribers && t.log == s.log && t.state == s.state && AllTrack(t)
  }

  lemma PollOnce(s: Run, who: nat, more: seq<Action>, t: Run)
    requires CanAct(s, Poll(who)) && IsPoll(more, who) && Acts(Act(s, Poll(who)), more, t)
    ensures Acts(s, [Poll(who)] + more, t) && IsPoll([Poll(who)] + more, who)
  {
    ActOne(s, Poll(who), more, t);
  }

  lemma PollKeeps(s: Run, who: nat)
    requires AllTrack(s) && CanAct(s, Poll(who))
    ensures OnlyPolled(s, Act(s, Poll(who)), who) && Act(s, Poll(who)).subscribers[who] == Move(s, s.subscribers[who])
  {
    ActionKeeps(s, Poll(who));
  }

  /** How far the next entry is, in polls. */
  function Distance(x: Subscriber): nat {
    match x.poll
    case Handing(batch, _) => if batch == [] then 5 else 1
    case CheckingState => 4
    case Sleeping => 3
    case Reading(_) => 2
    case Gone => 0
  }

  lemma PollsBringCloser(s: Run, x: Subscriber)
    requires Tracks(s.log, x) && !s.state.IsTerminal() && !IsLeaving(x) && x.given != s.log
    ensures var y := Move(s, x); y.lastId > x.lastId || (y.lastId == x.lastId && Distance(y) < Distance(x))
    ensures !IsLeaving(Move(s, x))
  {
    assert x.lastId == |s.log| ==> x.given == s.log;
  }

  /** While a run is not over and nothing is pushed, polling gives a subscriber the whole log. */
  lemma {:induction false} PollsCatchUp(s: Run, who: nat) returns (actions: seq<Action>, t: Run)
    requires AllTrack(s) && !s.state.IsTerminal() && who in s.subscribers && !IsLeaving(s.subscribers[who])
    ensures Acts(s, actions, t) && IsPoll(actions, who) && OnlyPolled(s, t, who) && t.subscribers[who].given == s.log
    decreases |s.log| - s.subscribers[who].lastId, Distance(s.subscribers[who])
  {
    var x := s.subscribers[who];
    assert Tracks(s.log, x);
    if x.given == s.log {
      actions, t := [], s;
    } else {
      PollsBringCloser(s, x);
      PollKeeps(s, who);
      var s' := Act(s, Poll(who));
      assert Tracks(s'.log, s'.subscribers[who]);
      var more;
      more, t := PollsCatchUp(s', who);
      PollOnce(s, who, more, t);
      actions := [Poll(who)] + more;
    }
  }

  /** How far the end of the subscriber's loop is once the run is over. */
  function Stage(x: Subscriber): nat {
    match x.poll
    case Sleeping => 6
    case Reading(last) => if last then 2 else 5
    case Handing(_, last) => if last then 1 else 4
    case CheckingState => 3
    case Gone => 0
  }

  function Held(x: Subscriber): nat {
    if x.poll.Handing? then |x.poll.batch| else 0
  }

  /** Once a run is over, polling makes a subscriber leave. */
  lemma {:induction false} PollsLeave(s: Run, who: nat) returns (actions: seq<Action>, t: Run)
    requires AllTrack(s) && s.state.IsTerminal() && who in s.subscribers
    ensures Acts(s, actions, t) && IsPoll(actions, who) && OnlyPolled(s, t, who) && t.subscribers[who].poll.Gone?
    decreases Stage(s.subscribers[who]), Held(s.subscribers[who])
  {
    if s.subscribers[who].poll.Gone? {
      actions, t := [], s;
    } else {
      PollKeeps(s, who);
      var more;
      more, t := PollsLeave(Act(s, Poll(who)), who);
      PollOnce(s, who, more, t);
      actions := [Poll(who)] + more;
    }
  }

  /** From wherever a run has led, a subscriber that only polls gets the whole log while the run goes on, and leaves when it
      is over. */
  lemma PollingGetsThrough(past: seq<Action>, s: Run, who: nat) returns (actions: seq<Action>, t: Run)
    requires Acts(Created, past, s) && who in s.subscribers
    ensures Acts(s, actions, t) && IsPoll(actions, who) && OnlyPolled(s, t, who)
    ensures if s.state.IsTerminal() then t.subscribers[who].poll.Gone? else t.subscribers[who].given == s.log
  {
    RunTracks(Created, past, s);
    RunLeavesAfterEnd(Created, past, s);
    if s.state.IsTerminal() {
      actions, t := PollsLeave(s, who);
    } else {
      actions, t := PollsCatchUp(s, who);
    }
  }
}
