/** The ordered key index that holds every run's event log. Keys are byte strings, written as characters below 256. */
module RocksIndex {
  import opened Wrappers
  import opened Numerals

  const SEQ_WIDTH: nat := 20

  /** Sequence numbers stay below ten to the width. */
  const SEQ_LIMIT: nat := 100_000_000_000_000_000_000

  lemma LimitIsPower()
    ensures SEQ_LIMIT == Power10(SEQ_WIDTH)
  {
    assert Power10(4) == 10_000;
    assert Power10(8) == 10_000 * Power10(4);
    assert Power10(12) == 10_000 * Power10(8);
    assert Power10(16) == 10_000 * Power10(12);
    assert Power10(20) == 10_000 * Power10(16);
  }

  datatype RunEvent = RunEvent(kind: string, agent: Option<string>, taskId: Option<string>, error: Option<string>)

  datatype Value = Record(target: string) | Logged(event: RunEvent)

  // ------------------------------------------------------------------ a sorted key-value store

  type Db = seq<(string, Value)>

  ghost predicate Sorted(db: Db) {
    forall i, j :: 0 <= i < j < |db| ==> Below(db[i].0, db[j].0)
  }

  /** The position of the first key at or above start. */
  function Seek(db: Db, start: string): (i: nat)
    ensures i <= |db| && (forall k :: 0 <= k < i ==> Below(db[k].0, start))
    ensures i < |db| ==> !Below(db[i].0, start)
  {
    if db == [] || !Below(db[0].0, start) then 0 else Seek(db[1..], start) + 1
  }

  /** One more than the position of the last key at or below bound. */
  function SeekForPrev(db: Db, bound: string): (n: nat)
    ensures n <= |db| && (forall k :: n <= k < |db| ==> !AtMost(db[k].0, bound))
    ensures n > 0 ==> AtMost(db[n - 1].0, bound)
  {
    if db == [] then 0
    else if AtMost(db[|db| - 1].0, bound) then |db|
    else SeekForPrev(db[..|db| - 1], bound)
  }

  function Get(db: Db, key: string): Option<Value> {
    var i := Seek(db, key);
    if i < |db| && db[i].0 == key then Some(db[i].1) else None
  }

  function Put(db: Db, key: string, value: Value): Db {
    var i := Seek(db, key);
    if i < |db| && db[i].0 == key then db[..i] + [(key, value)] + db[i + 1..]
    else db[..i] + [(key, value)] + db[i..]
  }

  lemma SeekExact(db: Db, i: nat)
    requires Sorted(db) && i < |db|
    ensures Seek(db, db[i].0) == i
  {
    BelowIrreflexive(db[i].0);
    var j := Seek(db, db[i].0);
    assert forall k :: 0 <= k < j ==> Below(db[k].0, db[i].0);
    assert forall k :: 0 <= k < i ==> Below(db[k].0, db[i].0);
  }

  lemma GetMeaning(db: Db, key: string, value: Value)
    requires Sorted(db)
    ensures Get(db, key) == Some(value) <==> (key, value) in db
  {
    if (key, value) in db {
      var i :| 0 <= i < |db| && db[i] == (key, value);
      SeekExact(db, i);
    }
  }

  lemma PutSorted(db: Db, key: string, value: Value)
    requires Sorted(db)
    ensures Sorted(Put(db, key, value))
  {
    var i := Seek(db, key);
    var same := i < |db| && db[i].0 == key;
    var rest := if same then db[i + 1..] else db[i..];
    var r := db[..i] + [(key, value)] + rest;
    forall k | 0 <= k < |rest|
      ensures Below(key, rest[k].0)
    {
      var p := if same then i + 1 + k else i + k;
      assert rest[k] == db[p];
      if p == i {
        BelowTotal(key, db[i].0);
      } else if same {
        assert Below(db[i].0, db[p].0);
      } else {
        BelowTotal(key, db[i].0);
        BelowTransitive(key, db[i].0, db[p].0);
      }
    }
    forall a, b | 0 <= a < b < |r|
      ensures Below(r[a].0, r[b].0)
    {
      if a < i && b > i {
        BelowTransitive(r[a].0, key, r[b].0);
      }
    }
  }

  lemma PutMembers(db: Db, key: string, value: Value, x: (string, Value))
    requires Sorted(db)
    ensures x in Put(db, key, value) <==> x == (key, value) || (x in db && x.0 != key)
  {
    var i := Seek(db, key);
    BelowIrreflexive(key);
    if i < |db| && db[i].0 == key {
      assert db == db[..i] + [db[i]] + db[i + 1..];
      forall k | 0 <= k < |db| && k != i
        ensures db[k].0 != key
      {
        if k < i {
          BelowIrreflexive(key);
        } else {
          BelowIrreflexive(key);
          assert Below(db[i].0, db[k].0);
        }
      }
      OthersKeep(db, i, key, x);
    } else {
      assert db == db[..i] + db[i..];
      forall k | 0 <= k < |db|
        ensures db[k].0 != key
      {
        if k > i {
          BelowTotal(key, db[i].0);
          BelowAsymmetric(key, db[i].0);
          BelowTransitive(key, db[i].0, db[k].0);
        }
      }
    }
  }

  lemma OthersKeep(db: Db, i: nat, key: string, x: (string, Value))
    requires i < |db| && db[i].0 == key && forall k :: 0 <= k < |db| && k != i ==> db[k].0 != key
    ensures x in db[..i] || x in db[i + 1..] <==> x in db && x.0 != key
  {
    if x in db && x.0 != key {
      var k :| 0 <= k < |db| && db[k] == x;
      if k < i {
        assert db[..i][k] == x;
      } else {
        assert db[i + 1..][k - i - 1] == x;
      }
    }
  }

  // ------------------------------------------------------------------ keys

  function RunKey(run: string): string {
    "r/" + run
  }

  function EventPrefix(run: string): string {
    "e/" + (run + "/")
  }

  function EventKey(run: string, n: nat): string {
    EventPrefix(run) + Padded(n, SEQ_WIDTH)
  }

  predicate IsRunId(run: string) {
    '/' !in run
  }

  lemma EventKeyFixed(run: string, n: nat)
    requires n < SEQ_LIMIT
    ensures EventKey(run, n) == EventPrefix(run) + Fixed(n, SEQ_WIDTH)
  {
    LimitIsPower();
    PaddedIsFixed(n, SEQ_WIDTH);
  }

  /** Byte order on one run's keys is the order of the sequence numbers. */
  lemma EventKeyOrder(run: string, m: nat, n: nat)
    requires m < SEQ_LIMIT && n < SEQ_LIMIT
    ensures Below(EventKey(run, m), EventKey(run, n)) <==> m < n
  {
    EventKeyFixed(run, m);
    EventKeyFixed(run, n);
    LimitIsPower();
    BelowAfterPrefix(EventPrefix(run), Fixed(m, SEQ_WIDTH), Fixed(n, SEQ_WIDTH));
    FixedOrder(m, n, SEQ_WIDTH);
  }

  lemma EventKeyParses(run: string, n: nat)
    requires n < SEQ_LIMIT
    ensures EventPrefix(run) <= EventKey(run, n)
    ensures Parse(EventKey(run, n)[|EventPrefix(run)|..]) == n
  {
    EventKeyFixed(run, n);
    LimitIsPower();
    ParseFixed(n, SEQ_WIDTH);
    assert EventKey(run, n)[|EventPrefix(run)|..] == Fixed(n, SEQ_WIDTH);
  }

  /** A key is the run's id between slashes after an "e", and then the number in twenty digits. */
  lemma EventKeyText(run: string, n: nat)
    requires n < SEQ_LIMIT
    ensures EventKey(run, n)[..|run| + 3] == "e/" + (run + "/") && |EventKey(run, n)| == |run| + 3 + 20
    ensures var digits := EventKey(run, n)[|run| + 3..]; Parse(digits) == n && forall i :: 0 <= i < 20 ==> IsDigit(digits[i])
  {
    EventKeyParses(run, n);
    EventKeyFixed(run, n);
    assert EventKey(run, n)[|run| + 3..] == Fixed(n, SEQ_WIDTH);
  }

  lemma {:induction false} SplitAtSlash(a: string, x: string, b: string, y: string)
    requires IsRunId(a) && IsRunId(b) && a + "/" + x == b + "/" + y
    ensures a == b && x == y
  {
    if a == [] || b == [] {
      assert (a + "/" + x)[0] == (b + "/" + y)[0];
      if a == [] && b == [] {
        assert (a + "/" + x)[1..] == x && (b + "/" + y)[1..] == y;
      }
    } else {
      assert (a + "/" + x)[0] == a[0] && (b + "/" + y)[0] == b[0];
      assert (a + "/" + x)[1..] == a[1..] + "/" + x && (b + "/" + y)[1..] == b[1..] + "/" + y;
      SplitAtSlash(a[1..], x, b[1..], y);
      assert a == [a[0]] + a[1..] && b == [b[0]] + b[1..];
    }
  }

  lemma SlashPrefix(a: string, b: string, digits: string)
    requires '/' !in digits
    ensures a + "/" <= b + "/" + digits <==> a + "/" <= b + "/"
  {
    var whole := b + "/" + digits;
    if a + "/" <= whole {
      assert (a + "/")[|a|] == whole[|a|];
      assert forall k :: |b| < k < |whole| ==> whole[k] == digits[k - |b| - 1];
      assert (b + "/")[..|a| + 1] == whole[..|a| + 1];
    }
    if a + "/" <= b + "/" {
      assert whole[..|a| + 1] == (b + "/")[..|a| + 1];
    }
  }

  lemma PrefixAfter(p: string, a: string, b: string)
    ensures p + a <= p + b <==> a <= b
  {
    if p + a <= p + b {
      assert b[..|a|] == (p + b)[|p|..|p| + |a|];
    }
    if a <= b {
      assert (p + b)[..|p| + |a|] == p + b[..|a|];
    }
  }

  /** Another run's event key falls into a run's key range exactly when the first run's id, followed by a slash, is a
      prefix of the other's. */
  lemma ForeignKeyInRange(run: string, other: string, n: nat)
    requires n < SEQ_LIMIT
    ensures EventPrefix(run) <= EventKey(other, n) <==> run + "/" <= other + "/"
  {
    var digits := Fixed(n, SEQ_WIDTH);
    SlashPrefix(run, other, digits);
    PrefixAfter("e/", run + "/", other + "/" + digits);
    KeyShape(other, n);
  }

  lemma KeyShape(other: string, n: nat)
    requires n < SEQ_LIMIT
    ensures EventKey(other, n) == "e/" + (other + "/" + Fixed(n, SEQ_WIDTH))
  {
    EventKeyFixed(other, n);
    Regroup("e/", other + "/", Fixed(n, SEQ_WIDTH));
  }

  lemma Regroup(a: string, b: string, c: string)
    ensures (a + b) + c == a + (b + c)
  {
  }

  /** Run ids with a slash can share a key range. */
  lemma SlashMixesRuns()
    ensures EventPrefix("a") <= EventKey("a/b", 0)
  {
    ForeignKeyInRange("a", "a/b", 0);
    assert "a/" <= "a/b/";
  }
}
