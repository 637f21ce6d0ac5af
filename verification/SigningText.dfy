/** The signed text, spelled out: the format that other implementations of the wire contract have to match byte for byte. */
module SigningText {
  import opened Wrappers
  import opened Seqs
  import opened Signing
  import SpawnTree

  // ------------------------------------------------------------------ characters

  lemma LastHex(n: nat, d: nat)
    requires d < 16
    ensures (n * 16 + d) / 16 == n && (n * 16 + d) % 16 == d
  {
  }

  lemma HexIs(a: nat, b: nat, c: nat, d: nat)
    requires a < 16 && b < 16 && c < 16 && d < 16
    ensures var n := ((a * 16 + b) * 16 + c) * 16 + d;
            n < 0x10000 && UnicodeEscape(n) == ['\\', 'u', HexDigit(a), HexDigit(b), HexDigit(c), HexDigit(d)]
  {
    var ab, abc := a * 16 + b, (a * 16 + b) * 16 + c;
    LastHex(a, b);
    LastHex(ab, c);
    LastHex(abc, d);
    HexQuotients(abc * 16 + d);
  }

  lemma HexQuotients(n: nat)
    ensures n / 256 == n / 16 / 16 && n / 4096 == n / 16 / 16 / 16
  {
  }

  /** Printable ASCII other than the quote and the backslash stands for itself. */
  lemma PlainCharacters(c: char)
    requires ' ' <= c <= '~' && c != '"' && c != '\\'
    ensures Escape(c) == [c]
  {
  }

  lemma ShortEscapes()
    ensures Escape('"') == "\\\"" && Escape('\\') == "\\\\" && Escape('\n') == "\\n" && Escape('\r') == "\\r"
    ensures Escape('\t') == "\\t" && Escape('\U{8}') == "\\b" && Escape('\U{c}') == "\\f"
  {
  }

  /** A control character and letters beyond ASCII. */
  lemma BasicEscapes()
    ensures Escape('\U{1}') == "\\u0001" && Escape('\U{7f}') == "\\u007f"
    ensures Escape('\U{e9}') == "\\u00e9" && Escape('\U{20ac}') == "\\u20ac"
  {
    HexIs(0, 0, 0, 1);
    HexIs(0, 0, 7, 15);
    HexIs(0, 0, 14, 9);
    HexIs(2, 0, 10, 12);
  }

  /** A character beyond the basic plane is written as two surrogates. */
  lemma SurrogateEscape()
    ensures Escape('\U{1f600}') == "\\ud83d" + "\\ude00"
  {
    HexIs(13, 8, 3, 13);
    HexIs(13, 14, 0, 0);
    assert UnicodeEscape(0xd83d) == "\\ud83d" && UnicodeEscape(0xde00) == "\\ude00";
  }

  // ------------------------------------------------------------------ the object

  function Commas(names: seq<string>): string
    decreases |names|
  {
    if names == [] then "" else "," + (JsonString(names[0]) + Commas(names[1..]))
  }

  /** The names as JSON strings with commas in between. */
  function Listing(names: seq<string>): string {
    if names == [] then "" else JsonString(names[0]) + Commas(names[1..])
  }

  lemma Regroup(a: string, b: string, c: string)
    ensures a + (b + c) == (a + b) + c
  {
  }

  lemma {:induction false} MoreItemsAreListed(names: seq<string>, rest: string)
    ensures MoreItemsText(names, rest) == Commas(names) + ("]" + rest)
    decreases |names|
  {
    if names != [] {
      MoreItemsAreListed(names[1..], rest);
      var item, more := JsonString(names[0]), Commas(names[1..]);
      Regroup(item, more, "]" + rest);
      Regroup(",", item + more, "]" + rest);
    } else {
      assert "" + ("]" + rest) == "]" + rest;
    }
  }

  lemma ItemsAreListed(names: seq<string>, rest: string)
    ensures ItemsText(names, rest) == Listing(names) + ("]" + rest)
  {
    if names != [] {
      MoreItemsAreListed(names[1..], rest);
      Regroup(JsonString(names[0]), Commas(names[1..]), "]" + rest);
    } else {
      assert "" + ("]" + rest) == "]" + rest;
    }
  }

  /** The parts of a text, one after the other. */
  function Spelled(parts: seq<string>): string {
    if parts == [] then "" else parts[0] + Spelled(parts[1..])
  }

  lemma SpelledCons(x: string, parts: seq<string>, text: string)
    requires text == Spelled(parts)
    ensures x + text == Spelled([x] + parts)
  {
    assert ([x] + parts)[1..] == parts;
  }

  /** The end of the object. */
  lemma RequestParts(requestId: string) returns (text: string)
    ensures text == REQUEST_ID + (JsonString(requestId) + ['}'])
    ensures text == Spelled([",\"request_id\":", JsonString(requestId), "}"])
  {
    assert "}" + "" == "}";
    SpelledCons("}", [], "");
    SpelledCons(JsonString(requestId), ["}"], "}");
    SpelledCons(REQUEST_ID, [JsonString(requestId), "}"], JsonString(requestId) + "}");
    text := REQUEST_ID + (JsonString(requestId) + ['}']);
    assert [REQUEST_ID] + [JsonString(requestId), "}"] == [",\"request_id\":", JsonString(requestId), "}"];
  }

  /** Without a parent the signed text is an object of the agent's name, null and the request, with no spaces. */
  lemma RootPayloadText(agentName: string, requestId: string, order: seq<string>)
    ensures SigningPayload(agentName, requestId, None, order) ==
            Spelled(["{\"agent_name\":", JsonString(agentName), ",\"parent_spawn\":", "null",
                     ",\"request_id\":", JsonString(requestId), "}"])
  {
    var tail := RequestParts(requestId);
    var parts := [",\"request_id\":", JsonString(requestId), "}"];
    SpelledCons(NULL, parts, tail);
    SpelledCons(PARENT_SPAWN, [NULL] + parts, NULL + tail);
    SpelledCons(JsonString(agentName), [PARENT_SPAWN] + ([NULL] + parts), PARENT_SPAWN + (NULL + tail));
    SpelledCons(AGENT_NAME, [JsonString(agentName)] + ([PARENT_SPAWN] + ([NULL] + parts)),
                JsonString(agentName) + (PARENT_SPAWN + (NULL + tail)));
    assert [AGENT_NAME] + ([JsonString(agentName)] + ([PARENT_SPAWN] + ([NULL] + parts))) ==
           ["{\"agent_name\":", JsonString(agentName), ",\"parent_spawn\":", "null",
            ",\"request_id\":", JsonString(requestId), "}"];
  }

  /** The text of the parent linkage, in its parts. */
  function ParentParts(p: SpawnTree.ParentSpawn, names: seq<string>): seq<string> {
    ["{\"agent_name\":", JsonString(p.agentName), ",\"ancestors\":[", Listing(names), "]"] +
    [",\"depth\":", JsonInt(p.depth), ",\"trace_id\":", JsonString(p.traceId), "}"]
  }

  lemma EndParts(p: SpawnTree.ParentSpawn, rest: string, parts: seq<string>)
    requires rest == Spelled(parts)
    ensures DEPTH + (JsonInt(p.depth) + (TRACE_ID + (JsonString(p.traceId) + (['}'] + rest)))) ==
            Spelled([",\"depth\":", JsonInt(p.depth), ",\"trace_id\":", JsonString(p.traceId), "}"] + parts)
  {
    var t1, p1 := ['}'] + rest, ["}"] + parts;
    SpelledCons("}", parts, rest);
    var t2, p2 := JsonString(p.traceId) + t1, [JsonString(p.traceId)] + p1;
    SpelledCons(JsonString(p.traceId), p1, t1);
    var t3, p3 := TRACE_ID + t2, [TRACE_ID] + p2;
    SpelledCons(TRACE_ID, p2, t2);
    var t4, p4 := JsonInt(p.depth) + t3, [JsonInt(p.depth)] + p3;
    SpelledCons(JsonInt(p.depth), p3, t3);
    SpelledCons(DEPTH, p4, t4);
    assert [DEPTH] + p4 == [",\"depth\":", JsonInt(p.depth), ",\"trace_id\":", JsonString(p.traceId), "}"] + parts;
  }

  lemma ListParts(names: seq<string>, rest: string, parts: seq<string>)
    requires rest == Spelled(parts)
    ensures ItemsText(names, rest) == Spelled([Listing(names), "]"] + parts)
  {
    ItemsAreListed(names, rest);
    SpelledCons("]", parts, rest);
    SpelledCons(Listing(names), ["]"] + parts, "]" + rest);
    assert [Listing(names)] + (["]"] + parts) == [Listing(names), "]"] + parts;
  }

  lemma NameParts(name: string, rest: string, parts: seq<string>)
    requires rest == Spelled(parts)
    ensures AGENT_NAME + (JsonString(name) + (ANCESTORS + rest)) ==
            Spelled(["{\"agent_name\":", JsonString(name), ",\"ancestors\":["] + parts)
  {
    SpelledCons(ANCESTORS, parts, rest);
    SpelledCons(JsonString(name), [ANCESTORS] + parts, ANCESTORS + rest);
    SpelledCons(AGENT_NAME, [JsonString(name)] + ([ANCESTORS] + parts), JsonString(name) + (ANCESTORS + rest));
    assert [AGENT_NAME] + ([JsonString(name)] + ([ANCESTORS] + parts)) ==
           ["{\"agent_name\":", JsonString(name), ",\"ancestors\":["] + parts;
  }

  /** Three parts, two and five, and the rest. */
  lemma TenParts(a: string, b: string, c: string, d: string, e: string, f: seq<string>, parts: seq<string>)
    ensures [a, b, c] + ([d, e] + (f + parts)) == [a, b, c, d, e] + f + parts
  {
  }

  lemma ParentIsItsParts(p: SpawnTree.ParentSpawn, names: seq<string>, rest: string, parts: seq<string>)
    requires rest == Spelled(parts)
    ensures ParentText(p, names, rest) == Spelled(ParentParts(p, names) + parts)
  {
    var tail := DEPTH + (JsonInt(p.depth) + (TRACE_ID + (JsonString(p.traceId) + (['}'] + rest))));
    var end := [",\"depth\":", JsonInt(p.depth), ",\"trace_id\":", JsonString(p.traceId), "}"];
    EndParts(p, rest, parts);
    ListParts(names, tail, end + parts);
    NameParts(p.agentName, ItemsText(names, tail), [Listing(names), "]"] + (end + parts));
    TenParts("{\"agent_name\":", JsonString(p.agentName), ",\"ancestors\":[", Listing(names), "]", end, parts);
  }

  /** With a parent, null becomes an object of the parent's name, its ancestors' names in code point order, its depth and its
      trace. */
  lemma ChildPayloadText(agentName: string, requestId: string, p: SpawnTree.ParentSpawn, order: seq<string>,
                         names: seq<string>)
    requires Enumerates(order, p.ancestors) && Sorted(names) && Elems(names) == p.ancestors
    ensures SigningPayload(agentName, requestId, Some(p), order) ==
            Spelled(["{\"agent_name\":", JsonString(agentName), ",\"parent_spawn\":"] + ParentParts(p, names) +
                    [",\"request_id\":", JsonString(requestId), "}"])
  {
    SortSorts(order);
    SortedIsUnique(Sort(order), names);
    var tail := RequestParts(requestId);
    var parts := [",\"request_id\":", JsonString(requestId), "}"];
    ParentIsItsParts(p, names, tail, parts);
    var t1, p1 := ParentText(p, names, tail), ParentParts(p, names) + parts;
    SpelledCons(PARENT_SPAWN, p1, t1);
    SpelledCons(JsonString(agentName), [PARENT_SPAWN] + p1, PARENT_SPAWN + t1);
    SpelledCons(AGENT_NAME, [JsonString(agentName)] + ([PARENT_SPAWN] + p1), JsonString(agentName) + (PARENT_SPAWN + t1));
    assert [AGENT_NAME] + ([JsonString(agentName)] + ([PARENT_SPAWN] + p1)) ==
           ["{\"agent_name\":", JsonString(agentName), ",\"parent_spawn\":"] + ParentParts(p, names) + parts;
  }
}
