/** The RocksDB run store: every run's append-only event log kept in one ordered key index. */
module RocksStore {
  import opened Wrappers
  import opened Numerals
  import opened RocksIndex

  datatype RunLog = RunLog(target: string, events: seq<RunEvent>)

  type Logs = map<string, RunLog>

  datatype StoreError = AlreadyExists | NotFound

  /** The log of a run, empty if there is no such run. */
  ghost function EventsOf(logs: Logs, run: string): seq<RunEvent> {
    if run in logs then logs[run].events else []
  }

  ghost predicate IsRecordOf(logs: Logs, r: string, x: (string, Value)) {
    r in logs && x == (RunKey(r), Record(logs[r].target))
  }

  ghost predicate IsEventOf(logs: Logs, r: string, n: nat, x: (string, Value)) {
    r in logs && n < |logs[r].events| && x == (EventKey(r, n), Logged(logs[r].events[n]))
  }

  ghost predicate IsEntryOf(logs: Logs, x: (string, Value)) {
    (exists r :: IsRecordOf(logs, r, x)) || (exists r, n :: IsEventOf(logs, r, n, x))
  }

  ghost predicate Sized(logs: Logs) {
    forall r :: r in logs ==> IsRunId(r) && |logs[r].events| <= SEQ_LIMIT
  }

  /** The index holds one record per run and one key per event, and nothing else. */
  ghost predicate Represents(db: Db, logs: Logs) {
    && Sorted(db) && Sized(logs)
    && (forall x {:trigger x in db} {:trigger IsEntryOf(logs, x)} :: x in db <==> IsEntryOf(logs, x))
  }

  // ------------------------------------------------------------------ reading a range

  lemma SlashFreePrefix(run: string, r: string)
    requires IsRunId(run) && IsRunId(r) && run + "/" <= r + "/"
    ensures run == r
  {
    var rest := (r + "/")[|run| + 1..];
    assert run + "/" + rest == r + "/" + "";
    SplitAtSlash(run, rest, r, "");
  }

  /** Only a run's own events have keys in its range. */
  lemma RangeIsOwnEvents(db: Db, logs: Logs, run: string, x: (string, Value)) returns (n: nat)
    requires Represents(db, logs) && IsRunId(run) && x in db && EventPrefix(run) <= x.0
    ensures IsEventOf(logs, run, n, x)
  {
    assert IsEntryOf(logs, x);
    forall r
      ensures !IsRecordOf(logs, r, x)
    {
      RecordOutOfRange(run, r);
    }
    var r, m :| IsEventOf(logs, r, m, x);
    ForeignKeyInRange(run, r, m);
    SlashFreePrefix(run, r);
    n := m;
  }

  lemma RecordOutOfRange(run: string, r: string)
    ensures !(EventPrefix(run) <= RunKey(r))
  {
    assert RunKey(r)[0] == 'r' && EventPrefix(run)[0] == 'e';
  }

  lemma EventIsStored(db: Db, logs: Logs, run: string, n: nat) returns (i: nat)
    requires Represents(db, logs) && n < |EventsOf(logs, run)|
    ensures i < |db| && db[i] == (EventKey(run, n), Logged(EventsOf(logs, run)[n]))
  {
    var x := (EventKey(run, n), Logged(logs[run].events[n]));
    assert IsEventOf(logs, run, n, x);
    assert IsEntryOf(logs, x);
    i :| 0 <= i < |db| && db[i] == x;
  }

  /** Position i holds event n of the run, or, past the last event, nothing of the run. */
  ghost predicate AtEvent(db: Db, logs: Logs, run: string, i: nat, n: nat) {
    if n < |EventsOf(logs, run)| then i < |db| && db[i] == (EventKey(run, n), Logged(EventsOf(logs, run)[n]))
    else i >= |db| || !(EventPrefix(run) <= db[i].0)
  }

  lemma PositionsOrdered(db: Db, i: nat, j: nat)
    requires Sorted(db) && i < |db| && j < |db| && Below(db[i].0, db[j].0)
    ensures i < j
  {
    BelowAsymmetric(db[i].0, db[j].0);
    BelowIrreflexive(db[i].0);
  }

  /** Keys of one run are adjacent: nothing lies between two consecutive events. */
  lemma NextEvent(db: Db, logs: Logs, run: string, i: nat, n: nat)
    requires Represents(db, logs) && n < |EventsOf(logs, run)| && AtEvent(db, logs, run, i, n)
    ensures AtEvent(db, logs, run, i + 1, n + 1)
  {
    if n + 1 < |EventsOf(logs, run)| {
      var j := EventIsStored(db, logs, run, n + 1);
      EventKeyOrder(run, n, n + 1);
      PositionsOrdered(db, i, j);
      if i + 1 < j {
        var x := db[i + 1];
        assert Below(db[i].0, x.0) && Below(x.0, db[j].0);
        BetweenSharesPrefix(EventPrefix(run), Padded(n, SEQ_WIDTH), x.0, Padded(n + 1, SEQ_WIDTH));
        var m := RangeIsOwnEvents(db, logs, run, x);
        EventKeyOrder(run, n, m);
        EventKeyOrder(run, m, n + 1);
      }
    } else if i + 1 < |db| && EventPrefix(run) <= db[i + 1].0 {
      var m := RangeIsOwnEvents(db, logs, run, db[i + 1]);
      assert Below(db[i].0, db[i + 1].0);
      EventKeyOrder(run, n, m);
    }
  }

  /** The number of the first event after a cursor; every negative cursor stands before the first event. */
  function First(after: int): nat {
    if after >= 0 then after + 1 else 0
  }

  /** Where the scan after a cursor starts. */
  function ScanStart(run: string, after: int): string {
    if after >= 0 then EventKey(run, after + 1) else EventPrefix(run)
  }

  lemma PrefixAtMost(run: string, n: nat)
    requires n < SEQ_LIMIT
    ensures Below(EventPrefix(run), EventKey(run, n))
  {
    var p := EventPrefix(run);
    assert p + [] == p;
    EventKeyFixed(run, n);
    BelowAfterPrefix(p, [], Fixed(n, SEQ_WIDTH));
  }

  lemma StartAtMost(run: string, after: int, n: nat)
    requires First(after) <= n < SEQ_LIMIT
    ensures AtMost(ScanStart(run, after), EventKey(run, n))
    ensures EventPrefix(run) <= ScanStart(run, after)
  {
    if after >= 0 {
      EventKeyParses(run, First(after));
      EventKeyOrder(run, First(after), n);
    } else {
      PrefixAtMost(run, n);
    }
  }

  /** A key of the run that is not below the scan start comes after the cursor. */
  lemma NotBelowStart(run: string, after: int, m: nat)
    requires m < SEQ_LIMIT && First(after) < SEQ_LIMIT
    requires !Below(EventKey(run, m), ScanStart(run, after))
    ensures First(after) <= m
  {
    if after >= 0 {
      EventKeyOrder(run, m, after + 1);
    }
  }

  /** No event follows the cursor: the scan starts past the run's keys. */
  lemma SeekFindsNone(db: Db, logs: Logs, run: string, after: int)
    requires Represents(db, logs) && IsRunId(run) && |EventsOf(logs, run)| <= First(after) < SEQ_LIMIT
    ensures AtEvent(db, logs, run, Seek(db, ScanStart(run, after)), First(after))
  {
    var i := Seek(db, ScanStart(run, after));
    if i < |db| && EventPrefix(run) <= db[i].0 {
      var m := RangeIsOwnEvents(db, logs, run, db[i]);
      NotBelowStart(run, after, m);
    }
  }

  /** The scan starts at the first event after the cursor. */
  lemma SeekFindsNext(db: Db, logs: Logs, run: string, after: int)
    requires Represents(db, logs) && First(after) < |EventsOf(logs, run)|
    ensures AtEvent(db, logs, run, Seek(db, ScanStart(run, after)), First(after))
  {
    var i := Seek(db, ScanStart(run, after));
    var n := First(after);
    var j := EventIsStored(db, logs, run, n);
    assert n < SEQ_LIMIT;
    StartAtMost(run, after, n);
    NotBelowItself(db, ScanStart(run, after), j);
    if i < j {
      NotBelowStartOfRange(db, run, after, i, j);
      var m := RangeIsOwnEvents(db, logs, run, db[i]);
      NotBelowStart(run, after, m);
      EventKeyOrder(run, m, n);
    }
  }

  lemma NotBelowItself(db: Db, start: string, j: nat)
    requires j < |db| && AtMost(start, db[j].0)
    ensures Seek(db, start) <= j
  {
    if Below(start, db[j].0) {
      BelowAsymmetric(start, db[j].0);
    }
    BelowIrreflexive(start);
  }

  /** Between the scan start and one of the run's keys there are only keys of the run. */
  lemma NotBelowStartOfRange(db: Db, run: string, after: int, i: nat, j: nat)
    requires Sorted(db) && First(after) < SEQ_LIMIT
    requires i < j < |db| && db[j].0 == EventKey(run, First(after)) && !Below(db[i].0, ScanStart(run, after))
    ensures EventPrefix(run) <= db[i].0
  {
    StartAtMost(run, after, First(after));
    BelowTotal(ScanStart(run, after), db[i].0);
    var p := EventPrefix(run);
    var a := ScanStart(run, after)[|p|..];
    assert p + a == ScanStart(run, after);
    BetweenSharesPrefix(p, a, db[i].0, Padded(First(after), SEQ_WIDTH));
  }

  // ------------------------------------------------------------------ the largest sequence number

  const RANGE_END: string := seq(SEQ_WIDTH, _ => 255 as char)

  lemma DigitsBelowEnd(digits: string, end: string)
    requires |digits| == |end| > 0 && IsDigit(digits[0]) && end[0] == 255 as char
    ensures Below(digits, end)
  {
  }

  lemma EventBelowEnd(run: string, n: nat)
    requires n < SEQ_LIMIT
    ensures Below(EventKey(run, n), EventPrefix(run) + RANGE_END)
  {
    EventKeyFixed(run, n);
    DigitsBelowEnd(Fixed(n, SEQ_WIDTH), RANGE_END);
    BelowAfterPrefix(EventPrefix(run), Fixed(n, SEQ_WIDTH), RANGE_END);
  }

  /** The last key at or below the end of the range is the run's last event, or no key of the run. */
  lemma PrevFindsLast(db: Db, logs: Logs, run: string)
    requires Represents(db, logs) && IsRunId(run)
    ensures var n := SeekForPrev(db, EventPrefix(run) + RANGE_END);
            var last := |EventsOf(logs, run)| - 1;
            if last >= 0 then n > 0 && db[n - 1].0 == EventKey(run, last)
            else n == 0 || !(EventPrefix(run) <= db[n - 1].0)
  {
    var bound := EventPrefix(run) + RANGE_END;
    var n := SeekForPrev(db, bound);
    var last := |EventsOf(logs, run)| - 1;
    if last >= 0 {
      var j := EventIsStored(db, logs, run, last);
      EventBelowEnd(run, last);
      assert AtMost(db[j].0, bound);
      if j < n - 1 {
        assert Below(db[j].0, db[n - 1].0);
        BetweenSharesPrefix(EventPrefix(run), Padded(last, SEQ_WIDTH), db[n - 1].0, RANGE_END);
        var m := RangeIsOwnEvents(db, logs, run, db[n - 1]);
        EventKeyOrder(run, last, m);
      }
    } else if n > 0 && EventPrefix(run) <= db[n - 1].0 {
      var m := RangeIsOwnEvents(db, logs, run, db[n - 1]);
    }
  }

  // ------------------------------------------------------------------ writing

  lemma EventKeyInjective(r1: string, n1: nat, r2: string, n2: nat)
    requires IsRunId(r1) && IsRunId(r2) && n1 < SEQ_LIMIT && n2 < SEQ_LIMIT
    requires EventKey(r1, n1) == EventKey(r2, n2)
    ensures r1 == r2 && n1 == n2
  {
    EventKeyParses(r1, n1);
    EventKeyParses(r2, n2);
    ForeignKeyInRange(r1, r2, n2);
    SlashFreePrefix(r1, r2);
  }

  lemma KindsDiffer(r1: string, r2: string, n: nat)
    ensures RunKey(r1) != EventKey(r2, n)
  {
    assert RunKey(r1)[0] == 'r' && EventKey(r2, n)[0] == 'e';
  }

  lemma RunKeyInjective(r1: string, r2: string)
    requires RunKey(r1) == RunKey(r2)
    ensures r1 == r2
  {
    assert r1 == RunKey(r1)[2..] && r2 == RunKey(r2)[2..];
  }

  function Appended(logs: Logs, run: string, event: RunEvent): Logs
    requires run in logs
  {
    logs[run := RunLog(logs[run].target, logs[run].events + [event])]
  }

  /** Storing an event under the next number appends it to its run's log and changes no other log. */
  lemma AppendRepresents(db: Db, logs: Logs, run: string, event: RunEvent)
    requires Represents(db, logs) && run in logs && |logs[run].events| < SEQ_LIMIT
    ensures Represents(Put(db, EventKey(run, |logs[run].events|), Logged(event)), Appended(logs, run, event))
  {
    var n := |logs[run].events|;
    var key, logs' := EventKey(run, n), Appended(logs, run, event);
    PutSorted(db, key, Logged(event));
    forall x
      ensures x in Put(db, key, Logged(event)) <==> IsEntryOf(logs', x)
    {
      PutMembers(db, key, Logged(event), x);
      AppendEntries(logs, run, event, x);
      if IsEntryOf(logs, x) {
        NextKeyUnused(logs, run, x);
      }
    }
  }

  lemma NextKeyUnused(logs: Logs, run: string, x: (string, Value))
    requires Sized(logs) && run in logs && |logs[run].events| < SEQ_LIMIT && IsEntryOf(logs, x)
    ensures x.0 != EventKey(run, |logs[run].events|)
  {
    var n := |logs[run].events|;
    if x.0 == EventKey(run, n) {
      if r :| IsRecordOf(logs, r, x) {
        KindsDiffer(r, run, n);
      } else {
        var r, m :| IsEventOf(logs, r, m, x);
        EventKeyInjective(r, m, run, n);
      }
    }
  }

  lemma AppendEntries(logs: Logs, run: string, event: RunEvent, x: (string, Value))
    requires run in logs
    ensures IsEntryOf(Appended(logs, run, event), x) <==>
            IsEntryOf(logs, x) || x == (EventKey(run, |logs[run].events|), Logged(event))
  {
    var logs', n := Appended(logs, run, event), |logs[run].events|;
    if r :| IsRecordOf(logs, r, x) {
      assert IsRecordOf(logs', r, x);
    }
    if r, m :| IsEventOf(logs, r, m, x) {
      assert IsEventOf(logs', r, m, x);
    }
    if x == (EventKey(run, n), Logged(event)) {
      assert IsEventOf(logs', run, n, x);
    }
    if r :| IsRecordOf(logs', r, x) {
      assert IsRecordOf(logs, r, x);
    }
    if r, m :| IsEventOf(logs', r, m, x) {
      if r == run && m == n {
        assert x == (EventKey(run, n), Logged(event));
      } else {
        assert IsEventOf(logs, r, m, x);
      }
    }
  }

  lemma CreateRepresents(db: Db, logs: Logs, run: string, target: string)
    requires Represents(db, logs) && run !in logs && IsRunId(run)
    ensures Represents(Put(db, RunKey(run), Record(target)), logs[run := RunLog(target, [])])
  {
    var key, logs' := RunKey(run), logs[run := RunLog(target, [])];
    PutSorted(db, key, Record(target));
    forall x
      ensures x in Put(db, key, Record(target)) <==> IsEntryOf(logs', x)
    {
      PutMembers(db, key, Record(target), x);
      CreateEntries(logs, run, target, x);
    }
  }

  lemma CreateEntries(logs: Logs, run: string, target: string, x: (string, Value))
    requires run !in logs
    ensures IsEntryOf(logs[run := RunLog(target, [])], x) <==> IsEntryOf(logs, x) || x == (RunKey(run), Record(target))
    ensures IsEntryOf(logs, x) ==> x.0 != RunKey(run)
  {
    var logs' := logs[run := RunLog(target, [])];
    if r :| IsRecordOf(logs, r, x) {
      assert IsRecordOf(logs', r, x);
      if x.0 == RunKey(run) {
        RunKeyInjective(r, run);
      }
    }
    if r, m :| IsEventOf(logs, r, m, x) {
      assert IsEventOf(logs', r, m, x);
      KindsDiffer(run, r, m);
    }
    if x == (RunKey(run), Record(target)) {
      assert IsRecordOf(logs', run, x);
    }
    if r :| IsRecordOf(logs', r, x) {
      assert r != run ==> IsRecordOf(logs, r, x);
    }
    if r, m :| IsEventOf(logs', r, m, x) {
      assert IsEventOf(logs, r, m, x);
    }
  }

  lemma RecordIffCreated(db: Db, logs: Logs, run: string)
    requires Represents(db, logs)
    ensures Get(db, RunKey(run)).Some? <==> run in logs
  {
    if run in logs {
      var x := (RunKey(run), Record(logs[run].target));
      assert IsRecordOf(logs, run, x) && IsEntryOf(logs, x);
      GetMeaning(db, x.0, x.1);
    }
    if Get(db, RunKey(run)).Some? {
      var x := (RunKey(run), Get(db, RunKey(run)).value);
      GetMeaning(db, x.0, x.1);
      assert IsEntryOf(logs, x);
      forall r, m
        ensures !IsEventOf(logs, r, m, x)
      {
        KindsDiffer(run, r, m);
      }
      var r :| IsRecordOf(logs, r, x);
      RunKeyInjective(r, run);
    }
  }

  // ------------------------------------------------------------------ the store

  /** The events after a cursor, each with its number. */
  function After(events: seq<RunEvent>, after: int): (r: seq<(RunEvent, nat)>)
    ensures |r| == (if First(after) <= |events| then |events| - First(after) else 0)
    ensures forall k :: 0 <= k < |r| ==> r[k] == (events[First(after) + k], First(after) + k)
  {
    var first := First(after);
    if |events| <= first then []
    else seq(|events| - first, k requires 0 <= k < |events| - first => (events[first + k], first + k))
  }

  /** Exactly the events with a number above the cursor, in the order of their numbers. */
  lemma AfterMeaning(events: seq<RunEvent>, after: int)
    ensures forall x :: x in After(events, after) <==> x.1 < |events| && x.1 > after && x.0 == events[x.1]
    ensures forall i, j :: 0 <= i < j < |After(events, after)| ==> After(events, after)[i].1 < After(events, after)[j].1
  {
    forall n: nat | n < |events| && n > after
      ensures (events[n], n) in After(events, after)
    {
      assert After(events, after)[n - First(after)] == (events[n], n);
    }
  }

  /** `out` holds what was read so far, and `it` is where the next event of the run must be. */
  ghost predicate Scanned(db: Db, logs: Logs, run: string, after: int, it: nat, out: seq<(RunEvent, nat)>) {
    out <= After(EventsOf(logs, run), after) && AtEvent(db, logs, run, it, First(after) + |out|)
  }

  lemma ScanBegins(db: Db, logs: Logs, run: string, after: int)
    requires Represents(db, logs) && IsRunId(run) && First(after) < SEQ_LIMIT
    ensures Scanned(db, logs, run, after, Seek(db, ScanStart(run, after)), [])
  {
    if First(after) < |EventsOf(logs, run)| {
      SeekFindsNext(db, logs, run, after);
    } else {
      SeekFindsNone(db, logs, run, after);
    }
  }

  lemma EventAt(db: Db, logs: Logs, run: string, it: nat, n: nat)
    requires Sized(logs) && AtEvent(db, logs, run, it, n) && it < |db| && EventPrefix(run) <= db[it].0
    ensures n < |EventsOf(logs, run)| && db[it].1 == Logged(EventsOf(logs, run)[n])
    ensures Parse(db[it].0[|EventPrefix(run)|..]) == n
  {
    if n < |EventsOf(logs, run)| {
      EventKeyParses(run, n);
    }
  }

  lemma ScanGrows(db: Db, logs: Logs, run: string, after: int, it: nat, out: seq<(RunEvent, nat)>)
    requires Scanned(db, logs, run, after, it, out) && First(after) + |out| < |EventsOf(logs, run)|
    requires AtEvent(db, logs, run, it + 1, First(after) + |out| + 1)
    ensures Scanned(db, logs, run, after, it + 1,
                    out + [(EventsOf(logs, run)[First(after) + |out|], First(after) + |out|)])
  {
    var n := First(after) + |out|;
    assert After(EventsOf(logs, run), after)[|out|] == (EventsOf(logs, run)[n], n);
  }

  lemma ScanAdvances(db: Db, logs: Logs, run: string, after: int, it: nat, out: seq<(RunEvent, nat)>)
    requires Represents(db, logs) && Scanned(db, logs, run, after, it, out)
    requires it < |db| && EventPrefix(run) <= db[it].0
    ensures db[it].1.Logged?
    ensures Scanned(db, logs, run, after, it + 1,
                    out + [(db[it].1.event, Parse(db[it].0[|EventPrefix(run)|..]))])
  {
    EventAt(db, logs, run, it, First(after) + |out|);
    NextEvent(db, logs, run, it, First(after) + |out|);
    ScanGrows(db, logs, run, after, it, out);
  }

  lemma ScanEnds(db: Db, logs: Logs, run: string, after: int, it: nat, out: seq<(RunEvent, nat)>)
    requires Sized(logs) && Scanned(db, logs, run, after, it, out)
    requires it >= |db| || !(EventPrefix(run) <= db[it].0)
    ensures out == After(EventsOf(logs, run), after)
  {
    var n := First(after) + |out|;
    if n < SEQ_LIMIT {
      EventKeyParses(run, n);
    }
  }

  class RocksDBRunStore {
    var db: Db
    var seqCounters: map<string, nat>
    ghost var logs: Logs

    ghost predicate Valid()
      reads this
    {
      && Represents(db, logs)
      && (forall r :: r in seqCounters ==> r in logs && seqCounters[r] == |logs[r].events|)
    }

    /** Opening an existing database: the counters start empty, whatever was written before stays. */
    constructor (db: Db, ghost logs: Logs)
      requires Represents(db, logs)
      ensures Valid() && this.logs == logs && this.db == db
    {
      this.db := db;
      this.logs := logs;
      seqCounters := map[];
    }

    method Create(run: string, target: string) returns (r: Result<(), StoreError>)
      requires Valid() && IsRunId(run)
      modifies this
      ensures Valid()
      ensures r.Ok? <==> run !in old(logs)
      ensures logs == if r.Ok? then old(logs)[run := RunLog(target, [])] else old(logs)
    {
      RecordIffCreated(db, logs, run);
      if Get(db, RunKey(run)).Some? {
        return Err(AlreadyExists);
      }
      CreateRepresents(db, logs, run, target);
      db := Put(db, RunKey(run), Record(target));
      logs := logs[run := RunLog(target, [])];
      r := Ok(());
    }

    /** The number of the run's last event, -1 without events or without the run. */
    method ScanMaxSeq(run: string) returns (n: int)
      requires Valid() && IsRunId(run)
      ensures n == |EventsOf(logs, run)| - 1
    {
      var prefix := EventPrefix(run);
      var p := SeekForPrev(db, prefix + RANGE_END);
      PrevFindsLast(db, logs, run);
      if p == 0 {
        return -1;
      }
      var key := db[p - 1].0;
      if !(prefix <= key) {
        return -1;
      }
      EventKeyParses(run, |EventsOf(logs, run)| - 1);
      n := Parse(key[|prefix|..]);
    }

    /** The events of the run after the cursor, in push order. */
    method ReadEventsAfter(run: string, after: int) returns (out: seq<(RunEvent, nat)>)
      requires Valid() && IsRunId(run) && First(after) < SEQ_LIMIT
      ensures out == After(EventsOf(logs, run), after)
    {
      var prefix := EventPrefix(run);
      var it := Seek(db, ScanStart(run, after));
      out := [];
      ScanBegins(db, logs, run, after);
      while it < |db|
        invariant Scanned(db, logs, run, after, it, out)
      {
        if !(prefix <= db[it].0) {
          break;
        }
        ScanAdvances(db, logs, run, after, it, out);
        out := out + [(db[it].1.event, Parse(db[it].0[|prefix|..]))];
        it := it + 1;
      }
      ScanEnds(db, logs, run, after, it, out);
    }

    /** Appends one event to the log of an existing run; no other log changes and nothing is overwritten. */
    method PushEvent(run: string, event: RunEvent) returns (r: Result<(), StoreError>)
      requires Valid() && (run in logs ==> |logs[run].events| < SEQ_LIMIT)
      modifies this
      ensures Valid()
      ensures r.Ok? <==> run in old(logs)
      ensures logs == if r.Ok?
                      then old(logs)[run := RunLog(old(logs)[run].target, old(logs)[run].events + [event])]
                      else old(logs)
    {
      RecordIffCreated(db, logs, run);
      if Get(db, RunKey(run)).None? {
        return Err(NotFound);
      }
      if run !in seqCounters {
        var maxSeq := ScanMaxSeq(run);
        seqCounters := seqCounters[run := maxSeq + 1];
      }
      var n := seqCounters[run];
      seqCounters := seqCounters[run := n + 1];
      AppendRepresents(db, logs, run, event);
      db := Put(db, EventKey(run, n), Logged(event));
      logs := Appended(logs, run, event);
      r := Ok(());
    }
  }
}
