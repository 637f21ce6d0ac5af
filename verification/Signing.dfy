/** The canonical bytes a task message's signature covers, signing, and verification under a list of keys. */
module Signing {
  import opened Wrappers
  import opened Seqs
  import opened Numerals
  import SpawnTree

  // ------------------------------------------------------------------ JSON strings, ASCII only

  function HexValue(c: char): (d: nat)
    ensures d < 16
  {
    if '0' <= c <= '9' then c as int - '0' as int
    else if 'a' <= c <= 'f' then c as int - 'a' as int + 10
    else 0
  }

  function HexDigit(d: nat): (c: char)
    requires d < 16
    ensures HexValue(c) == d && IsPrintable(c)
  {
    if d < 10 then ('0' as int + d) as char else ('a' as int + d - 10) as char
  }

  function UnicodeEscape(n: nat): (s: string)
    requires n < 0x10000
    ensures |s| == 6
  {
    ['\\', 'u', HexDigit(n / 4096), HexDigit(n / 256 % 16), HexDigit(n / 16 % 16), HexDigit(n % 16)]
  }

  /** The letter of a two-character escape. */
  function ShortEscape(c: char): Option<char> {
    if c == '"' then Some('"')
    else if c == '\\' then Some('\\')
    else if c == 8 as char then Some('b')
    else if c == 12 as char then Some('f')
    else if c == '\n' then Some('n')
    else if c == '\r' then Some('r')
    else if c == '\t' then Some('t')
    else None
  }

  predicate IsPrintable(c: char) {
    ' ' <= c <= '~'
  }

  function Escape(c: char): (s: string)
    ensures s != []
  {
    if ShortEscape(c).Some? then ['\\', ShortEscape(c).value]
    else if IsPrintable(c) then [c]
    else if c as int < 0x10000 then UnicodeEscape(c as int)
    else
      var n := c as int - 0x10000;
      UnicodeEscape(0xD800 + n / 1024) + UnicodeEscape(0xDC00 + n % 1024)
  }

  function Escaped(s: string): string {
    if s == [] then [] else Escape(s[0]) + Escaped(s[1..])
  }

  function JsonString(s: string): string {
    ['"'] + Escaped(s) + ['"']
  }

  // ------------------------------------------------------------------ reading them back

  function ReadUnit(s: string): (n: nat)
    requires |s| >= 6
    ensures n < 0x10000
  {
    HexValue(s[2]) * 4096 + HexValue(s[3]) * 256 + HexValue(s[4]) * 16 + HexValue(s[5])
  }

  function LongEscape(c: char): Option<char> {
    if c == '"' then Some('"')
    else if c == '\\' then Some('\\')
    else if c == 'b' then Some(8 as char)
    else if c == 'f' then Some(12 as char)
    else if c == 'n' then Some('\n')
    else if c == 'r' then Some('\r')
    else if c == 't' then Some('\t')
    else None
  }

  /** The first character of an escaped text and what follows it. */
  function ReadChar(s: string): (r: Option<(char, string)>)
    ensures r.Some? ==> |r.value.1| < |s|
  {
    if s == [] then None
    else if s[0] != '\\' then Some((s[0], s[1..]))
    else if |s| >= 2 && LongEscape(s[1]).Some? then Some((LongEscape(s[1]).value, s[2..]))
    else if |s| < 6 then None
    else
      var high := ReadUnit(s);
      if high < 0xD800 || 0xE000 <= high then Some((high as char, s[6..]))
      else if |s| < 12 || high >= 0xDC00 then None
      else
        var low := ReadUnit(s[6..]);
        if 0xDC00 <= low < 0xE000 then
          Some(((0x10000 + (high - 0xD800) * 1024 + (low - 0xDC00)) as char, s[12..]))
        else None
  }

  function ReadChars(s: string): Option<(string, string)>
    decreases |s|
  {
    if s != [] && s[0] == '"' then Some(([], s[1..]))
    else
      match ReadChar(s)
      case None => None
      case Some((c, rest)) =>
        match ReadChars(rest)
        case None => None
        case Some((cs, rest')) => Some(([c] + cs, rest'))
  }

  lemma HexDigits(n: nat)
    requires n < 0x10000
    ensures n / 4096 < 16
    ensures n == n / 4096 * 4096 + n / 256 % 16 * 256 + n / 16 % 16 * 16 + n % 16
  {
    assert n == n / 16 * 16 + n % 16;
    assert n / 16 / 16 == n / 256 && n / 256 / 16 == n / 4096;
  }

  lemma ReadUnitEscape(n: nat, rest: string)
    requires n < 0x10000
    ensures ReadUnit(UnicodeEscape(n) + rest) == n
  {
    HexDigits(n);
    var s := UnicodeEscape(n) + rest;
    assert s[2] == HexDigit(n / 4096) && s[3] == HexDigit(n / 256 % 16);
    assert s[4] == HexDigit(n / 16 % 16) && s[5] == HexDigit(n % 16);
  }

  lemma ReadShort(c: char, rest: string)
    requires ShortEscape(c).Some?
    ensures ReadChar(Escape(c) + rest) == Some((c, rest))
  {
    assert LongEscape(ShortEscape(c).value) == Some(c);
    assert (Escape(c) + rest)[2..] == rest;
  }

  lemma ReadBasic(c: char, rest: string)
    requires ShortEscape(c).None? && !IsPrintable(c) && c as int < 0x10000
    ensures ReadChar(Escape(c) + rest) == Some((c, rest))
  {
    var s := Escape(c) + rest;
    ReadUnitEscape(c as int, rest);
    assert s[0] == '\\' && s[1] == 'u' && s[6..] == rest;
  }

  /** Two escapes in a row read as the character they encode together. */
  lemma ReadPair(high: nat, low: nat, rest: string)
    requires 0xD800 <= high < 0xDC00 <= low < 0xE000
    ensures ReadChar(UnicodeEscape(high) + (UnicodeEscape(low) + rest)) ==
            Some(((0x10000 + (high - 0xD800) * 1024 + (low - 0xDC00)) as char, rest))
  {
    var s := UnicodeEscape(high) + (UnicodeEscape(low) + rest);
    ReadUnitEscape(high, UnicodeEscape(low) + rest);
    ReadUnitEscape(low, rest);
    assert s[0] == '\\' && s[1] == 'u' && s[6..] == UnicodeEscape(low) + rest && s[12..] == rest;
  }

  lemma Regroup(a: string, b: string, c: string)
    ensures a + b + c == a + (b + c)
  {
  }

  /** The two escapes of a character outside the basic plane. */
  lemma Surrogates(c: char) returns (high: nat, low: nat)
    requires c as int >= 0x10000
    ensures 0xD800 <= high < 0xDC00 <= low < 0xE000
    ensures c == (0x10000 + (high - 0xD800) * 1024 + (low - 0xDC00)) as char
    ensures Escape(c) == UnicodeEscape(high) + UnicodeEscape(low)
  {
    var n := c as int - 0x10000;
    high, low := 0xD800 + n / 1024, 0xDC00 + n % 1024;
  }

  lemma ReadSurrogates(c: char, rest: string)
    requires c as int >= 0x10000
    ensures ReadChar(Escape(c) + rest) == Some((c, rest))
  {
    var high, low := Surrogates(c);
    Regroup(UnicodeEscape(high), UnicodeEscape(low), rest);
    ReadPair(high, low, rest);
  }

  lemma ReadEscape(c: char, rest: string)
    ensures ReadChar(Escape(c) + rest) == Some((c, rest))
    ensures (Escape(c) + rest)[0] != '"'
  {
    if ShortEscape(c).Some? {
      ReadShort(c, rest);
    } else if IsPrintable(c) {
      assert (Escape(c) + rest)[1..] == rest;
    } else if c as int < 0x10000 {
      ReadBasic(c, rest);
    } else {
      ReadSurrogates(c, rest);
    }
  }

  lemma {:induction false} ReadEscaped(s: string, rest: string)
    ensures ReadChars(Escaped(s) + ['"'] + rest) == Some((s, rest))
  {
    if s == [] {
      assert Escaped(s) + ['"'] + rest == ['"'] + rest;
    } else {
      var after := Escaped(s[1..]) + ['"'] + rest;
      assert Escaped(s) + ['"'] + rest == Escape(s[0]) + after;
      ReadEscape(s[0], after);
      ReadEscaped(s[1..], rest);
      assert [s[0]] + s[1..] == s;
    }
  }

  lemma AfterQuote(a: string, x: string)
    ensures (JsonString(a) + x)[1..] == Escaped(a) + ['"'] + x
  {
    assert JsonString(a) + x == ['"'] + (Escaped(a) + ['"'] + x);
  }

  /** A string's code is never a proper prefix of, nor confused with, another string's code. */
  lemma StringsArePrefixFree(a: string, x: string, b: string, y: string)
    requires JsonString(a) + x == JsonString(b) + y
    ensures a == b && x == y
  {
    AfterQuote(a, x);
    AfterQuote(b, y);
    ReadEscaped(a, x);
    ReadEscaped(b, y);
  }

  // ------------------------------------------------------------------ sorting names

  ghost predicate Sorted(s: seq<string>) {
    forall i, j :: 0 <= i < j < |s| ==> Below(s[i], s[j])
  }

  /** The set in some order, each member once. */
  ghost predicate Enumerates(order: seq<string>, names: set<string>) {
    NoDup(order) && Elems(order) == names
  }

  function Insert(x: string, s: seq<string>): seq<string> {
    if s == [] then [x]
    else if Below(x, s[0]) then [x] + s
    else [s[0]] + Insert(x, s[1..])
  }

  function Sort(s: seq<string>): seq<string> {
    if s == [] then [] else Insert(s[0], Sort(s[1..]))
  }

  lemma SortedHead(x: string, s: seq<string>)
    requires Sorted(s) && (s != [] ==> Below(x, s[0]))
    ensures Sorted([x] + s)
  {
    forall j | 0 <= j < |s| ensures Below(x, s[j]) {
      if j > 0 {
        BelowTransitive(x, s[0], s[j]);
      }
    }
  }

  lemma {:induction false} InsertSorts(x: string, s: seq<string>)
    requires Sorted(s) && x !in s
    ensures Sorted(Insert(x, s)) && Elems(Insert(x, s)) == Elems(s) + {x}
    ensures Insert(x, s) != [] && (Insert(x, s)[0] == x || (s != [] && Insert(x, s)[0] == s[0]))
  {
    if s != [] {
      if Below(x, s[0]) {
        SortedHead(x, s);
      } else {
        InsertSorts(x, s[1..]);
        BelowTotal(x, s[0]);
        assert s[0] != x;
        SortedHead(s[0], Insert(x, s[1..]));
        assert Elems(s) == {s[0]} + Elems(s[1..]);
      }
    }
  }

  lemma {:induction false} SortSorts(s: seq<string>)
    requires NoDup(s)
    ensures Sorted(Sort(s)) && Elems(Sort(s)) == Elems(s)
  {
    if s != [] {
      SortSorts(s[1..]);
      assert s[0] !in s[1..];
      assert s[0] !in Elems(Sort(s[1..]));
      InsertSorts(s[0], Sort(s[1..]));
      assert Elems(s) == {s[0]} + Elems(s[1..]);
    }
  }

  lemma HeadIsLeast(a: seq<string>, b: seq<string>)
    requires Sorted(a) && Sorted(b) && Elems(a) == Elems(b) && a != [] && b != []
    ensures a[0] == b[0]
  {
    assert a[0] in Elems(b) && b[0] in Elems(a);
    var i :| 0 <= i < |b| && b[i] == a[0];
    var j :| 0 <= j < |a| && a[j] == b[0];
    if i > 0 && j > 0 {
      BelowAsymmetric(a[0], b[0]);
    }
  }

  lemma NoElems(s: seq<string>)
    ensures Elems(s) == {} <==> s == []
  {
    if s != [] {
      assert s[0] in Elems(s);
    }
  }

  lemma {:induction false} SortedIsUnique(a: seq<string>, b: seq<string>)
    requires Sorted(a) && Sorted(b) && Elems(a) == Elems(b)
    ensures a == b
  {
    if a == [] || b == [] {
      NoElems(a);
      NoElems(b);
    } else {
      HeadIsLeast(a, b);
      RestOfSorted(a);
      RestOfSorted(b);
      SortedIsUnique(a[1..], b[1..]);
      assert a == [a[0]] + a[1..] && b == [b[0]] + b[1..];
    }
  }

  lemma RestOfSorted(a: seq<string>)
    requires Sorted(a) && a != []
    ensures Sorted(a[1..]) && Elems(a[1..]) == Elems(a) - {a[0]}
  {
    assert a == [a[0]] + a[1..];
    BelowIrreflexive(a[0]);
    assert a[0] !in a[1..];
  }

  /** Sorting forgets the order a set was listed in. */
  lemma SortForgetsOrder(a: seq<string>, b: seq<string>, names: set<string>)
    requires Enumerates(a, names) && Enumerates(b, names)
    ensures Sort(a) == Sort(b) && Elems(Sort(a)) == names
  {
    SortSorts(a);
    SortSorts(b);
    SortedIsUnique(Sort(a), Sort(b));
  }

  // ------------------------------------------------------------------ the payload

  function JsonInt(n: int): string {
    if n < 0 then ['-'] + Decimal(-n) else Decimal(n)
  }

  /** The rest of an array of strings, from the first of these items, and then `rest`. */
  function ItemsText(names: seq<string>, rest: string): string
    decreases |names|
  {
    if names == [] then [']'] + rest else JsonString(names[0]) + MoreItemsText(names[1..], rest)
  }

  function MoreItemsText(names: seq<string>, rest: string): string
    decreases |names|
  {
    if names == [] then [']'] + rest else [','] + (JsonString(names[0]) + MoreItemsText(names[1..], rest))
  }

  const AGENT_NAME := "{\"agent_name\":"
  const ANCESTORS := ",\"ancestors\":["
  const DEPTH := ",\"depth\":"
  const TRACE_ID := ",\"trace_id\":"
  const PARENT_SPAWN := ",\"parent_spawn\":"
  const NULL := "null"
  const REQUEST_ID := ",\"request_id\":"

  /** The parent linkage as an object with its keys in order, its ancestors listed as given, and then `rest`. */
  function ParentText(p: SpawnTree.ParentSpawn, names: seq<string>, rest: string): string {
    AGENT_NAME + (JsonString(p.agentName) + (ANCESTORS + ItemsText(names,
    DEPTH + (JsonInt(p.depth) + (TRACE_ID + (JsonString(p.traceId) + (['}'] + rest)))))))
  }

  /** The bytes the signature covers; `order` is the order in which the parent's ancestors happen to be enumerated. */
  function SigningPayload(agentName: string, requestId: string, parent: Option<SpawnTree.ParentSpawn>,
                          order: seq<string>): string {
    var rest := REQUEST_ID + (JsonString(requestId) + ['}']);
    AGENT_NAME + (JsonString(agentName) + (PARENT_SPAWN +
    (if parent.None? then NULL + rest else ParentText(parent.value, Sort(order), rest))))
  }

  ghost predicate EnumeratesAncestors(order: seq<string>, parent: Option<SpawnTree.ParentSpawn>) {
    parent.Some? ==> Enumerates(order, parent.value.ancestors)
  }

  lemma DropPrefix(p: string, x: string, y: string)
    requires p + x == p + y
    ensures x == y
  {
    assert (p + x)[|p|..] == x && (p + y)[|p|..] == y;
  }

  lemma DropUntil(a: string, x: string, b: string, y: string, stop: char)
    requires stop !in a && stop !in b && x != [] && y != [] && x[0] == y[0] == stop
    requires a + x == b + y
    ensures a == b && x == y
  {
    var s := a + x;
    assert s[|a|] == stop && s[|b|] == stop;
    assert forall k :: 0 <= k < |a| ==> s[k] == a[k];
    assert forall k :: 0 <= k < |b| ==> s[k] == b[k];
    assert |a| == |b|;
    assert s[..|a|] == a && s[..|b|] == b;
    DropPrefix(a, x, y);
  }

  lemma IntsArePrefixFree(m: int, x: string, n: int, y: string)
    requires x != [] && y != [] && x[0] == y[0] == ','
    requires JsonInt(m) + x == JsonInt(n) + y
    ensures m == n && x == y
  {
    DropUntil(JsonInt(m), x, JsonInt(n), y, ',');
    assert (JsonInt(m)[0] == '-' <==> m < 0) && (JsonInt(n)[0] == '-' <==> n < 0);
    if m < 0 && n < 0 {
      DropPrefix(['-'], Decimal(-m), Decimal(-n));
      DecimalInjective(-m, -n);
    } else {
      DecimalInjective(m, n);
    }
  }

  lemma {:induction false} MoreItemsArePrefixFree(a: seq<string>, x: string, b: seq<string>, y: string)
    requires MoreItemsText(a, x) == MoreItemsText(b, y)
    ensures a == b && x == y
    decreases |a|
  {
    assert (MoreItemsText(a, x)[0] == ']' <==> a == []) && (MoreItemsText(b, y)[0] == ']' <==> b == []);
    if a == [] {
      DropPrefix([']'], x, y);
    } else {
      var moreA, moreB := MoreItemsText(a[1..], x), MoreItemsText(b[1..], y);
      DropPrefix([','], JsonString(a[0]) + moreA, JsonString(b[0]) + moreB);
      StringsArePrefixFree(a[0], moreA, b[0], moreB);
      MoreItemsArePrefixFree(a[1..], x, b[1..], y);
      assert a == [a[0]] + a[1..] && b == [b[0]] + b[1..];
    }
  }

  lemma ItemsArePrefixFree(a: seq<string>, x: string, b: seq<string>, y: string)
    requires ItemsText(a, x) == ItemsText(b, y)
    ensures a == b && x == y
  {
    assert (ItemsText(a, x)[0] == ']' <==> a == []) && (ItemsText(b, y)[0] == ']' <==> b == []);
    if a == [] {
      DropPrefix([']'], x, y);
    } else {
      var moreA, moreB := MoreItemsText(a[1..], x), MoreItemsText(b[1..], y);
      StringsArePrefixFree(a[0], moreA, b[0], moreB);
      MoreItemsArePrefixFree(a[1..], x, b[1..], y);
      assert a == [a[0]] + a[1..] && b == [b[0]] + b[1..];
    }
  }

  /** A key and its string value. */
  lemma FieldsArePrefixFree(key: string, a: string, x: string, b: string, y: string)
    requires key + (JsonString(a) + x) == key + (JsonString(b) + y)
    ensures a == b && x == y
  {
    DropPrefix(key, JsonString(a) + x, JsonString(b) + y);
    StringsArePrefixFree(a, x, b, y);
  }

  lemma ParentsArePrefixFree(p: SpawnTree.ParentSpawn, a: seq<string>, x: string,
                             q: SpawnTree.ParentSpawn, b: seq<string>, y: string)
    requires ParentText(p, a, x) == ParentText(q, b, y)
    ensures p.agentName == q.agentName && p.traceId == q.traceId && p.depth == q.depth && a == b && x == y
  {
    var endP, endQ := ['}'] + x, ['}'] + y;
    var idP, idQ := TRACE_ID + (JsonString(p.traceId) + endP), TRACE_ID + (JsonString(q.traceId) + endQ);
    var depthP, depthQ := DEPTH + (JsonInt(p.depth) + idP), DEPTH + (JsonInt(q.depth) + idQ);
    FieldsArePrefixFree(AGENT_NAME, p.agentName, ANCESTORS + ItemsText(a, depthP),
                        q.agentName, ANCESTORS + ItemsText(b, depthQ));
    DropPrefix(ANCESTORS, ItemsText(a, depthP), ItemsText(b, depthQ));
    ItemsArePrefixFree(a, depthP, b, depthQ);
    DropPrefix(DEPTH, JsonInt(p.depth) + idP, JsonInt(q.depth) + idQ);
    assert TRACE_ID[0] == ',';
    IntsArePrefixFree(p.depth, idP, q.depth, idQ);
    FieldsArePrefixFree(TRACE_ID, p.traceId, endP, q.traceId, endQ);
    DropPrefix(['}'], x, y);
  }

  /** The payload does not depend on the order in which the ancestors are enumerated. */
  lemma PayloadIsCanonical(agentName: string, requestId: string, parent: Option<SpawnTree.ParentSpawn>,
                           a: seq<string>, b: seq<string>)
    requires EnumeratesAncestors(a, parent) && EnumeratesAncestors(b, parent)
    ensures SigningPayload(agentName, requestId, parent, a) == SigningPayload(agentName, requestId, parent, b)
  {
    if parent.Some? {
      SortForgetsOrder(a, b, parent.value.ancestors);
    }
  }

  lemma ParentFieldIsPrefixFree(p: Option<SpawnTree.ParentSpawn>, a: seq<string>, x: string,
                                q: Option<SpawnTree.ParentSpawn>, b: seq<string>, y: string)
    requires EnumeratesAncestors(a, p) && EnumeratesAncestors(b, q)
    requires (if p.None? then NULL + x else ParentText(p.value, Sort(a), x)) ==
             (if q.None? then NULL + y else ParentText(q.value, Sort(b), y))
    ensures p == q && x == y
  {
    var s, t := if p.None? then NULL + x else ParentText(p.value, Sort(a), x),
                if q.None? then NULL + y else ParentText(q.value, Sort(b), y);
    assert NULL[0] == 'n' && AGENT_NAME[0] == '{';
    assert (s[0] == 'n' <==> p.None?) && (t[0] == 'n' <==> q.None?);
    if p.None? {
      DropPrefix(NULL, x, y);
    } else {
      ParentsArePrefixFree(p.value, Sort(a), x, q.value, Sort(b), y);
      SortForgetsOrder(a, a, p.value.ancestors);
      SortForgetsOrder(b, b, q.value.ancestors);
    }
  }

  /** Equal bytes mean equal agent, request and parent linkage. */
  lemma PayloadIsInjective(agent1: string, request1: string, p: Option<SpawnTree.ParentSpawn>, a: seq<string>,
                           agent2: string, request2: string, q: Option<SpawnTree.ParentSpawn>, b: seq<string>)
    requires EnumeratesAncestors(a, p) && EnumeratesAncestors(b, q)
    requires SigningPayload(agent1, request1, p, a) == SigningPayload(agent2, request2, q, b)
    ensures agent1 == agent2 && request1 == request2 && p == q
  {
    var end1, end2 := REQUEST_ID + (JsonString(request1) + ['}']), REQUEST_ID + (JsonString(request2) + ['}']);
    var parent1 := if p.None? then NULL + end1 else ParentText(p.value, Sort(a), end1);
    var parent2 := if q.None? then NULL + end2 else ParentText(q.value, Sort(b), end2);
    FieldsArePrefixFree(AGENT_NAME, agent1, PARENT_SPAWN + parent1, agent2, PARENT_SPAWN + parent2);
    DropPrefix(PARENT_SPAWN, parent1, parent2);
    ParentFieldIsPrefixFree(p, a, end1, q, b, end2);
    FieldsArePrefixFree(REQUEST_ID, request1, ['}'], request2, ['}']);
  }

  ghost predicate Printable(s: string) {
    forall i :: 0 <= i < |s| ==> IsPrintable(s[i])
  }

  lemma PrintableConcat(a: string, b: string)
    requires Printable(a) && Printable(b)
    ensures Printable(a + b)
  {
  }

  lemma {:induction false} PrintableEscaped(s: string)
    ensures Printable(Escaped(s))
  {
    if s != [] {
      PrintableEscaped(s[1..]);
      PrintableConcat(Escape(s[0]), Escaped(s[1..]));
    }
  }

  /** A printable key, a string value, and a printable rest. */
  lemma PrintableField(key: string, value: string, rest: string)
    requires Printable(key) && Printable(rest)
    ensures Printable(key + (JsonString(value) + rest))
  {
    PrintableEscaped(value);
    PrintableConcat(['"'] + Escaped(value), ['"']);
    PrintableConcat(JsonString(value), rest);
    PrintableConcat(key, JsonString(value) + rest);
  }

  lemma {:induction false} PrintableMoreItems(names: seq<string>, rest: string)
    requires Printable(rest)
    ensures Printable(MoreItemsText(names, rest))
    decreases |names|
  {
    if names == [] {
      PrintableConcat([']'], rest);
    } else {
      PrintableMoreItems(names[1..], rest);
      PrintableField([','], names[0], MoreItemsText(names[1..], rest));
    }
  }

  lemma PrintableItems(names: seq<string>, rest: string)
    requires Printable(rest)
    ensures Printable(ItemsText(names, rest))
  {
    if names != [] {
      PrintableMoreItems(names[1..], rest);
      PrintableField([], names[0], MoreItemsText(names[1..], rest));
      assert [] + (JsonString(names[0]) + MoreItemsText(names[1..], rest)) == ItemsText(names, rest);
    }
  }

  lemma KeysArePrintable()
    ensures Printable(AGENT_NAME) && Printable(ANCESTORS) && Printable(DEPTH) && Printable(TRACE_ID)
    ensures Printable(PARENT_SPAWN) && Printable(NULL) && Printable(REQUEST_ID)
  {
  }

  lemma PrintableParent(p: SpawnTree.ParentSpawn, names: seq<string>, rest: string)
    requires Printable(rest)
    ensures Printable(ParentText(p, names, rest))
  {
    KeysArePrintable();
    PrintableField(TRACE_ID, p.traceId, ['}'] + rest);
    var id := TRACE_ID + (JsonString(p.traceId) + (['}'] + rest));
    PrintableConcat(JsonInt(p.depth), id);
    PrintableConcat(DEPTH, JsonInt(p.depth) + id);
    PrintableItems(names, DEPTH + (JsonInt(p.depth) + id));
    PrintableConcat(ANCESTORS, ItemsText(names, DEPTH + (JsonInt(p.depth) + id)));
    PrintableField(AGENT_NAME, p.agentName, ANCESTORS + ItemsText(names, DEPTH + (JsonInt(p.depth) + id)));
  }

  /** The payload is printable ASCII, so its UTF-8 encoding is one byte a character. */
  lemma PayloadIsAscii(agentName: string, requestId: string, parent: Option<SpawnTree.ParentSpawn>, order: seq<string>)
    ensures Printable(SigningPayload(agentName, requestId, parent, order))
  {
    KeysArePrintable();
    PrintableField(REQUEST_ID, requestId, ['}']);
    var rest := REQUEST_ID + (JsonString(requestId) + ['}']);
    if parent.Some? {
      PrintableParent(parent.value, Sort(order), rest);
    } else {
      PrintableConcat(NULL, rest);
    }
    var field := if parent.None? then NULL + rest else ParentText(parent.value, Sort(order), rest);
    PrintableConcat(PARENT_SPAWN, field);
    PrintableField(AGENT_NAME, agentName, PARENT_SPAWN + field);
  }

  // ------------------------------------------------------------------ signing and verifying

  /** `routing` stands for the batch, the topics and the task itself, which the signature does not cover. */
  datatype TaskMessage = TaskMessage(requestId: string, parentSpawn: Option<SpawnTree.ParentSpawn>,
                                     signature: Option<string>, routing: string)

  predicate IsAscii(s: string) {
    forall i :: 0 <= i < |s| ==> s[i] as int < 128
  }

  /** A digest in hexadecimal. */
  type HexDigest = s: string | IsAscii(s) witness ""

  /** The keyed digest. */
  type Hmac = (string, string) -> HexDigest

  datatype TypeError = NonAsciiComparison

  function Digest(hmac: Hmac, key: string, m: TaskMessage, agentName: string, order: seq<string>): HexDigest {
    hmac(key, SigningPayload(agentName, m.requestId, m.parentSpawn, order))
  }

  function Sign(hmac: Hmac, m: TaskMessage, agentName: string, key: string, order: seq<string>): TaskMessage {
    m.(signature := Some(Digest(hmac, key, m, agentName, order)))
  }

  /** The constant-time comparison of two strings, which takes ASCII only. */
  function CompareDigest(a: string, b: string): Result<bool, TypeError> {
    if IsAscii(a) && IsAscii(b) then Ok(a == b) else Err(NonAsciiComparison)
  }

  /** Some key in the list gives the message's signature. */
  ghost predicate Verifies(hmac: Hmac, m: TaskMessage, agentName: string, keys: seq<string>, order: seq<string>) {
    m.signature.Some? && exists k {:trigger Digest(hmac, k, m, agentName, order)} ::
      k in keys && Digest(hmac, k, m, agentName, order) == m.signature.value
  }

  /** The comparison with the first key raises. */
  predicate Raises(m: TaskMessage, keys: seq<string>) {
    m.signature.Some? && keys != [] && !IsAscii(m.signature.value)
  }

  method Verify(hmac: Hmac, m: TaskMessage, agentName: string, keys: seq<string>, order: seq<string>)
    returns (r: Result<bool, TypeError>)
    ensures r.Err? <==> Raises(m, keys)
    ensures r.Ok? ==> (r.value <==> Verifies(hmac, m, agentName, keys, order))
  {
    if m.signature.None? || keys == [] {
      return Ok(false);
    }
    var i := 0;
    while i < |keys|
      invariant 0 <= i <= |keys|
      invariant i > 0 ==> IsAscii(m.signature.value)
      invariant forall j :: 0 <= j < i ==> Digest(hmac, keys[j], m, agentName, order) != m.signature.value
    {
      var same := CompareDigest(Digest(hmac, keys[i], m, agentName, order), m.signature.value);
      if same.Err? {
        return Err(same.error);
      }
      if same.value {
        return Ok(true);
      }
      i := i + 1;
    }
    return Ok(false);
  }

  /** A message whose signature is one accented letter is neither accepted nor rejected: verifying it raises. */
  lemma AccentedSignatureRaises(hmac: Hmac, agentName: string, order: seq<string>)
    ensures var m := TaskMessage("r", None, Some("\U{e9}"), "");
            Raises(m, ["k"]) && !Verifies(hmac, m, agentName, ["k"], order)
  {
    var m := TaskMessage("r", None, Some("\U{e9}"), "");
    assert m.signature.value[0] as int == 0xe9;
    assert !IsAscii(m.signature.value);
  }

  /** A message signed under any key of the list verifies, and does not raise, on whatever routing it travels and in
      whatever order the two sides enumerate the ancestors. */
  lemma SignedVerifies(hmac: Hmac, m: TaskMessage, agentName: string, key: string, keys: seq<string>, routing: string,
                       a: seq<string>, b: seq<string>)
    requires EnumeratesAncestors(a, m.parentSpawn) && EnumeratesAncestors(b, m.parentSpawn) && key in keys
    ensures var received := Sign(hmac, m, agentName, key, a).(routing := routing);
            Verifies(hmac, received, agentName, keys, b) && !Raises(received, keys)
  {
    PayloadIsCanonical(agentName, m.requestId, m.parentSpawn, a, b);
    var received := Sign(hmac, m, agentName, key, a).(routing := routing);
    assert Digest(hmac, key, received, agentName, b) == received.signature.value;
  }

  /** No key of the list gives the digest d of payload p under `key`, unless it is that key over that payload. */
  ghost predicate NoCollision(hmac: Hmac, keys: seq<string>, key: string, p: string, q: string) {
    forall k {:trigger hmac(k, q)} :: k in keys && hmac(k, q) == hmac(key, p) ==> k == key && q == p
  }

  /** When none of the digests compared on receipt collides with the signed one, a signature verifies on a message if and
      only if its key is in the list and the agent, the request and the parent linkage are the ones that were signed. */
  lemma VerifiesIffSigned(hmac: Hmac, m: TaskMessage, agentName: string, key: string, a: seq<string>,
                          received: TaskMessage, expected: string, keys: seq<string>, b: seq<string>)
    requires EnumeratesAncestors(a, m.parentSpawn) && EnumeratesAncestors(b, received.parentSpawn)
    requires received.signature == Sign(hmac, m, agentName, key, a).signature
    requires NoCollision(hmac, keys, key, SigningPayload(agentName, m.requestId, m.parentSpawn, a),
                         SigningPayload(expected, received.requestId, received.parentSpawn, b))
    ensures Verifies(hmac, received, expected, keys, b) <==>
            key in keys && expected == agentName && received.requestId == m.requestId &&
            received.parentSpawn == m.parentSpawn
  {
    if Verifies(hmac, received, expected, keys, b) {
      var k :| k in keys && Digest(hmac, k, received, expected, b) == received.signature.value;
      PayloadIsInjective(expected, received.requestId, received.parentSpawn, b, agentName, m.requestId, m.parentSpawn, a);
    }
    if key in keys && expected == agentName && received.requestId == m.requestId
       && received.parentSpawn == m.parentSpawn {
      SignedVerifies(hmac, m, agentName, key, keys, received.routing, a, b);
      assert received == Sign(hmac, m, agentName, key, a).(routing := received.routing);
    }
  }

  /** Two keys that give the same digests, as a short key and its zero-padded form do, stand for each other: what is signed
      under one verifies under a list that has only the other. */
  lemma EquivalentKeysVerify(hmac: Hmac, m: TaskMessage, agentName: string, key: string, other: string,
                             a: seq<string>, b: seq<string>)
    requires forall p {:trigger hmac(key, p)} :: hmac(key, p) == hmac(other, p)
    requires EnumeratesAncestors(a, m.parentSpawn) && EnumeratesAncestors(b, m.parentSpawn)
    ensures Verifies(hmac, Sign(hmac, m, agentName, key, a), agentName, [other], b)
  {
    var received := Sign(hmac, m, agentName, key, a);
    PayloadIsCanonical(agentName, m.requestId, m.parentSpawn, a, b);
    assert Digest(hmac, other, received, agentName, b) == received.signature.value;
  }
}
