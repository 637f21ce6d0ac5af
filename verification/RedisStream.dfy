/** One run in the Redis store: the guarded state transition and the polling subscriber. */
module RedisStream {
  import opened Wrappers
  import opened RunStream

  const READ_COUNT: nat := 100

  /** The script's reply and the state it leaves: -1 without a run, 0 when the run is over, 1 on update. */
  function SetStateScript(current: Option<RunState>, wanted: RunState): (int, Option<RunState>) {
    match current
    case None => (-1, None)
    case Some(state) => if state.IsTerminal() then (0, current) else (1, Some(wanted))
  }

  /** The entries after the cursor, at most READ_COUNT of them. Entry k of the stream has id k + 1. */
  function XRead(log: seq<string>, lastId: nat): seq<string> {
    if |log| <= lastId then []
    else if |log| - lastId <= READ_COUNT then log[lastId..]
    else log[lastId..lastId + READ_COUNT]
  }

  /** Where the subscriber is: about to read, handing out what it read, about to check the state, asleep, or gone.
      `last` marks the read after the state was seen terminal. */
  datatype Poll = Reading(last: bool) | Handing(batch: seq<string>, last: bool) | CheckingState | Sleeping | Gone

  /** `readFrom` and `readTo` are the cursor and the length of the log at the latest read. */
  datatype Subscriber = Subscriber(poll: Poll, lastId: nat, given: seq<string>, readFrom: nat, readTo: nat)

  datatype Run = Run(log: seq<string>, state: RunState, subscribers: map<nat, Subscriber>)

  const Created := Run([], Pending, map[])

  datatype Action =
    | XAdd(event: string)
    | Transition(wanted: RunState)
    | Join(who: nat)
    | Poll(who: nat)

  predicate CanAct(s: Run, a: Action) {
    match a
    case XAdd(_) => true
    case Transition(_) => true
    case Join(who) => who !in s.subscribers
    case Poll(who) => who in s.subscribers && !s.subscribers[who].poll.Gone?
  }

  /** The subscriber's next move. */
  function Move(s: Run, x: Subscriber): Subscriber {
    match x.poll
    case Reading(last) => x.(poll := Handing(XRead(s.log, x.lastId), last), readFrom := x.lastId, readTo := |s.log|)
    case Handing(batch, last) =>
      if batch == [] then x.(poll := if last then Gone else CheckingState)
      else x.(poll := Handing(batch[1..], last), lastId := x.lastId + 1, given := x.given + [batch[0]])
    case CheckingState => x.(poll := if s.state.IsTerminal() then Reading(true) else Sleeping)
    case Sleeping => x.(poll := Reading(false))
    case Gone => x
  }

  function Act(s: Run, a: Action): Run
    requires CanAct(s, a)
  {
    match a
    case XAdd(event) => s.(log := s.log + [event])
    case Transition(wanted) => s.(state := SetStateScript(Some(s.state), wanted).1.value)
    case Join(who) => s.(subscribers := s.subscribers[who := Subscriber(Reading(false), 0, [], 0, 0)])
    case Poll(who) => s.(subscribers := s.subscribers[who := Move(s, s.subscribers[who])])
  }

  /** How far a read from the cursor reaches into a log of the given length. */
  function Reach(readFrom: nat, readTo: nat): nat {
    if readTo <= readFrom + READ_COUNT then readTo else readFrom + READ_COUNT
  }

  /** What was given is the log up to the cursor, what is still held follows it, and both together reach as far as the
      latest read did. */
  ghost predicate Tracks(log: seq<string>, x: Subscriber) {
    && x.lastId <= |log| && x.given == log[..x.lastId] && x.readFrom <= x.readTo <= |log|
    && (x.poll.Handing? ==> x.lastId + |x.poll.batch| == Reach(x.readFrom, x.readTo))
    && (!x.poll.Handing? ==> x.lastId == Reach(x.readFrom, x.readTo))
    && (x.poll.Handing? ==> x.lastId + |x.poll.batch| <= |log| && x.poll.batch == log[x.lastId..x.lastId + |x.poll.batch|])
  }

  ghost predicate AllTrack(s: Run) {
    forall who :: who in s.subscribers ==> Tracks(s.log, s.subscribers[who])
  }

  lemma MoveTracks(s: Run, x: Subscriber)
    requires Tracks(s.log, x)
    ensures Tracks(s.log, Move(s, x))
  {
    if x.poll.Handing? && x.poll.batch != [] {
      var k := x.lastId;
      assert x.poll.batch[0] == s.log[k];
      assert s.log[..k + 1] == s.log[..k] + [s.log[k]];
      assert s.log[k..k + |x.poll.batch|][1..] == s.log[k + 1..k + |x.poll.batch|];
    }
  }

  lemma LogGrows(log: seq<string>, event: string, x: Subscriber)
    requires Tracks(log, x)
    ensures Tracks(log + [event], x)
  {
    assert (log + [event])[..x.lastId] == log[..x.lastId];
    if x.poll.Handing? {
      assert (log + [event])[x.lastId..x.lastId + |x.poll.batch|] == log[x.lastId..x.lastId + |x.poll.batch|];
    }
  }

  ghost predicate Acts(s: Run, actions: seq<Action>, t: Run)
    decreases |actions|
  {
    if actions == [] then s == t
    else CanAct(s, actions[0]) && Acts(Act(s, actions[0]), actions[1..], t)
  }

  lemma ActionKeeps(s: Run, a: Action)
    requires AllTrack(s) && CanAct(s, a)
    ensures AllTrack(Act(s, a))
  {
    var s' := Act(s, a);
    forall who | who in s'.subscribers
      ensures Tracks(s'.log, s'.subscribers[who])
    {
      if a.XAdd? {
        LogGrows(s.log, a.event, s.subscribers[who]);
      } else if a.Poll? && a.who == who {
        MoveTracks(s, s.subscribers[who]);
      }
    }
  }

  /** From any state of a run on, a terminal state is final and the log only grows. */
  lemma {:induction false} TerminalIsFinal(s: Run, actions: seq<Action>, t: Run)
    requires Acts(s, actions, t)
    ensures s.state.IsTerminal() ==> t.state == s.state
    ensures s.log <= t.log
    decreases |actions|
  {
    if actions != [] {
      TerminalIsFinal(Act(s, actions[0]), actions[1..], t);
    }
  }

  lemma {:induction false} RunTracks(s: Run, actions: seq<Action>, t: Run)
    requires AllTrack(s) && Acts(s, actions, t)
    ensures AllTrack(t)
    decreases |actions|
  {
    if actions != [] {
      ActionKeeps(s, actions[0]);
      RunTracks(Act(s, actions[0]), actions[1..], t);
    }
  }

  /** In every run, what a subscriber was given is a prefix of the log. */
  lemma PollersSeePrefixes(actions: seq<Action>, t: Run, who: nat)
    requires Acts(Created, actions, t) && who in t.subscribers
    ensures t.subscribers[who].given <= t.log
  {
    RunTracks(Created, actions, t);
    assert Tracks(t.log, t.subscribers[who]);
  }

  /** In every run, a subscriber that has left was given everything the log held at its last read if and only if that
      read had at most READ_COUNT entries to return. */
  lemma LeaverHasAllIffShort(actions: seq<Action>, t: Run, who: nat)
    requires Acts(Created, actions, t) && who in t.subscribers && t.subscribers[who].poll.Gone?
    ensures var x := t.subscribers[who];
            x.readFrom <= x.readTo <= |t.log| &&
            (x.given == t.log[..x.readTo] <==> x.readTo - x.readFrom <= READ_COUNT)
  {
    RunTracks(Created, actions, t);
    assert Tracks(t.log, t.subscribers[who]);
  }

  // ------------------------------------------------------------------ the read after the state was seen terminal

  /** The subscriber has seen the run over and will leave, or has left. */
  predicate IsLeaving(x: Subscriber) {
    match x.poll
    case Reading(last) => last
    case Handing(_, last) => last
    case CheckingState => false
    case Sleeping => false
    case Gone => true
  }

  /** As long as the run is not over nobody is leaving. */
  ghost predicate LeavesAfterEnd(s: Run) {
    !s.state.IsTerminal() ==> forall who :: who in s.subscribers ==> !IsLeaving(s.subscribers[who])
  }

  lemma ActionKeepsLeaving(s: Run, a: Action)
    requires LeavesAfterEnd(s) && CanAct(s, a)
    ensures LeavesAfterEnd(Act(s, a))
  {
  }

  lemma {:induction false} RunLeavesAfterEnd(s: Run, actions: seq<Action>, t: Run)
    requires LeavesAfterEnd(s) && Acts(s, actions, t)
    ensures LeavesAfterEnd(t)
    decreases |actions|
  {
    if actions != [] {
      ActionKeepsLeaving(s, actions[0]);
      RunLeavesAfterEnd(Act(s, actions[0]), actions[1..], t);
    }
  }

  /** Whoever has made the last read, made it of at least n entries. */
  ghost predicate LastReadFrom(s: Run, n: nat) {
    && n <= |s.log|
    && forall who :: who in s.subscribers && IsLeaving(s.subscribers[who]) && !s.subscribers[who].poll.Reading? ==>
         s.subscribers[who].readTo >= n
  }

  lemma {:induction false} RunReadsLate(s: Run, actions: seq<Action>, t: Run, n: nat)
    requires LastReadFrom(s, n) && Acts(s, actions, t)
    ensures LastReadFrom(t, n)
    decreases |actions|
  {
    if actions != [] {
      var s' := Act(s, actions[0]);
      assert LastReadFrom(s', n);
      RunReadsLate(s', actions[1..], t, n);
    }
  }

  /** In every run, a subscriber that has left was given every entry pushed before the run was over, provided its last read
      had at most READ_COUNT entries to return. */
  lemma LeaverHasAllBeforeEnd(before: seq<Action>, s: Run, after: seq<Action>, t: Run, who: nat)
    requires Acts(Created, before, s) && !s.state.IsTerminal() && Acts(s, after, t)
    requires who in t.subscribers && t.subscribers[who].poll.Gone?
    requires t.subscribers[who].readTo - t.subscribers[who].readFrom <= READ_COUNT
    ensures s.log <= t.subscribers[who].given
  {
    RunLeavesAfterEnd(Created, before, s);
    RunReadsLate(s, after, t, |s.log|);
    TerminalIsFinal(s, after, t);
    RunTracks(Created, before, s);
    RunTracks(s, after, t);
    assert Tracks(t.log, t.subscribers[who]);
  }

  // ------------------------------------------------------------------ a run in which a leaver misses an entry

  lemma ActOne(s: Run, a: Action, rest: seq<Action>, t: Run)
    requires CanAct(s, a) && Acts(Act(s, a), rest, t)
    ensures Acts(s, [a] + rest, t)
  {
    assert ([a] + rest)[1..] == rest;
  }

  function Copies(n: nat): (r: seq<string>)
    ensures |r| == n
  {
    seq(n, _ => "e")
  }

  /** n pushes, and then the given actions. */
  lemma {:induction false} PushMany(s: Run, n: nat, rest: seq<Action>, t: Run) returns (actions: seq<Action>)
    requires Acts(s.(log := s.log + Copies(n)), rest, t)
    ensures Acts(s, actions, t)
    decreases n
  {
    if n == 0 {
      assert s.log + Copies(0) == s.log;
      actions := rest;
    } else {
      var s' := Act(s, XAdd("e"));
      assert s.log + ["e"] + Copies(n - 1) == s.log + Copies(n);
      var more := PushMany(s', n - 1, rest, t);
      ActOne(s, XAdd("e"), more, t);
      actions := [XAdd("e")] + more;
    }
  }

  /** The subscriber is handed everything it holds and leaves. */
  lemma {:induction false} HandAll(s: Run, who: nat) returns (actions: seq<Action>, t: Run)
    requires who in s.subscribers && s.subscribers[who].poll.Handing? && s.subscribers[who].poll.last
    ensures Acts(s, actions, t) && t.log == s.log && who in t.subscribers && t.subscribers[who].poll.Gone?
    ensures t.subscribers[who].given == s.subscribers[who].given + s.subscribers[who].poll.batch
    decreases |s.subscribers[who].poll.batch|
  {
    var x := s.subscribers[who];
    var s' := Act(s, Poll(who));
    if x.poll.batch == [] {
      actions, t := [Poll(who)], s';
      ActOne(s, Poll(who), [], t);
      assert x.given + x.poll.batch == x.given;
    } else {
      var more;
      more, t := HandAll(s', who);
      ActOne(s, Poll(who), more, t);
      actions := [Poll(who)] + more;
      assert x.given + [x.poll.batch[0]] + x.poll.batch[1..] == x.given + x.poll.batch;
    }
  }

  /** The run is over with one entry more than a read returns; the subscriber is about to check the state. */
  lemma LeaveAtCheck(s: Run) returns (actions: seq<Action>, t: Run)
    requires s == Run(Copies(READ_COUNT + 1), Completed, map[0 := Subscriber(CheckingState, 0, [], 0, 0)])
    ensures Acts(s, actions, t) && t.log == s.log && 0 in t.subscribers && t.subscribers[0].poll.Gone?
    ensures t.subscribers[0].given == Copies(READ_COUNT)
  {
    var s1 := Act(s, Poll(0));
    var s2 := Act(s1, Poll(0));
    assert s.log[0..READ_COUNT] == Copies(READ_COUNT);
    var more;
    more, t := HandAll(s2, 0);
    assert [] + Copies(READ_COUNT) == Copies(READ_COUNT);
    ActOne(s1, Poll(0), more, t);
    ActOne(s, Poll(0), [Poll(0)] + more, t);
    actions := [Poll(0)] + ([Poll(0)] + more);
  }

  /** A run in which a subscriber leaves without the last entry, although it was pushed before the run was over. */
  lemma LeaverCanMissEntries()
    ensures exists actions, t :: Acts(Created, actions, t) && 0 in t.subscribers && t.subscribers[0].poll.Gone? &&
              |t.log| == 101 && |t.subscribers[0].given| == 100
  {
    var s1 := Act(Created, Join(0));
    var s2 := Act(s1, Poll(0));
    var s3 := Act(s2, Poll(0));
    assert s3 == Run([], Pending, map[0 := Subscriber(CheckingState, 0, [], 0, 0)]);
    var s4 := s3.(log := s3.log + Copies(READ_COUNT + 1));
    assert [] + Copies(READ_COUNT + 1) == Copies(READ_COUNT + 1);
    var actions, t := LeaveAtCheck(Act(s4, Transition(Completed)));
    ActOne(s4, Transition(Completed), actions, t);
    actions := PushMany(s3, READ_COUNT + 1, [Transition(Completed)] + actions, t);
    ActOne(s2, Poll(0), actions, t);
    ActOne(s1, Poll(0), [Poll(0)] + actions, t);
    ActOne(Created, Join(0), [Poll(0)] + ([Poll(0)] + actions), t);
  }
}
