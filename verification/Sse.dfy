/** The incremental reader of server-sent events: chunks of text in, one record per blank-line-terminated block out. A
    subset of section 9.2.6 of the WHATWG HTML Living Standard. */
module Sse {
  import opened Wrappers

  datatype Record = Record(data: string, event: Option<string>, id: Option<string>)

  // ------------------------------------------------------------------ separators

  predicate OccursAt(s: string, pattern: string, i: nat) {
    i + |pattern| <= |s| && s[i..i + |pattern|] == pattern
  }

  /** The first place at or after i where the pattern occurs. */
  function IndexOf(s: string, pattern: string, i: nat): (r: Option<nat>)
    ensures r.Some? ==> i <= r.value && OccursAt(s, pattern, r.value)
    ensures forall k {:trigger OccursAt(s, pattern, k)} ::
              i <= k && (r.None? || k < r.value) ==> !OccursAt(s, pattern, k)
    decreases |s| - i
  {
    if OccursAt(s, pattern, i) then Some(i)
    else if i >= |s| then None
    else IndexOf(s, pattern, i + 1)
  }

  predicate LfLf(s: string, i: nat) {
    i + 1 < |s| && s[i] == s[i + 1] == '\n'
  }

  predicate CrLfCrLf(s: string, i: nat) {
    i + 3 < |s| && s[i] == s[i + 2] == '\r' && s[i + 1] == s[i + 3] == '\n'
  }

  predicate IsSeparator(s: string, i: nat) {
    LfLf(s, i) || CrLfCrLf(s, i)
  }

  lemma OccursLfLf(s: string, i: nat)
    ensures OccursAt(s, "\n\n", i) <==> LfLf(s, i)
  {
    if i + 2 <= |s| {
      assert s[i..i + 2] == [s[i], s[i + 1]];
    }
  }

  lemma OccursCrLfCrLf(s: string, i: nat)
    ensures OccursAt(s, "\r\n\r\n", i) <==> CrLfCrLf(s, i)
  {
    if i + 4 <= |s| {
      assert s[i..i + 4] == [s[i], s[i + 1], s[i + 2], s[i + 3]];
    }
  }

  function FindSeparator(s: string): Option<nat> {
    var lf, crlf := IndexOf(s, "\n\n", 0), IndexOf(s, "\r\n\r\n", 0);
    if lf.None? then crlf
    else if crlf.None? then lf
    else Some(if lf.value < crlf.value then lf.value else crlf.value)
  }

  ghost predicate FirstSeparator(s: string, p: nat) {
    IsSeparator(s, p) && forall k {:trigger IsSeparator(s, k)} :: IsSeparator(s, k) ==> p <= k
  }

  lemma FindsFirst(s: string)
    ensures FindSeparator(s).Some? ==> FirstSeparator(s, FindSeparator(s).value)
    ensures FindSeparator(s).None? ==> forall k {:trigger IsSeparator(s, k)} :: !IsSeparator(s, k)
  {
    forall k: nat ensures (OccursAt(s, "\n\n", k) <==> LfLf(s, k)) {
      OccursLfLf(s, k);
    }
    forall k: nat ensures (OccursAt(s, "\r\n\r\n", k) <==> CrLfCrLf(s, k)) {
      OccursCrLfCrLf(s, k);
    }
  }

  lemma FoundIff(s: string, p: nat)
    ensures FindSeparator(s) == Some(p) <==> FirstSeparator(s, p)
  {
    FindsFirst(s);
  }

  function SeparatorLength(s: string, i: nat): (n: nat)
    requires i < |s|
  {
    if s[i] == '\r' then 4 else 2
  }

  lemma EarlierStaysInside(s: string, more: string, p: nat, q: nat)
    requires IsSeparator(s, p) && IsSeparator(s + more, q) && q < p
    ensures IsSeparator(s, q)
  {
    var t := s + more;
    assert q + 1 < |s| && t[q] == s[q] && t[q + 1] == s[q + 1];
    if CrLfCrLf(t, q) {
      assert p != q + 1;
      assert q + 3 < |s| && t[q + 2] == s[q + 2] && t[q + 3] == s[q + 3];
    }
  }

  /** What arrives later cannot move the first separator. */
  lemma SeparatorStays(s: string, more: string, p: nat)
    requires FindSeparator(s) == Some(p)
    ensures FindSeparator(s + more) == Some(p) && p + SeparatorLength(s, p) <= |s|
    ensures SeparatorLength(s + more, p) == SeparatorLength(s, p)
  {
    FoundIff(s, p);
    FindsFirst(s + more);
    assert IsSeparator(s + more, p);
    var q := FindSeparator(s + more).value;
    if q < p {
      EarlierStaysInside(s, more, p, q);
    }
  }

  // ------------------------------------------------------------------ blocks

  predicate NoLf(s: string) {
    '\n' !in s
  }

  predicate EndsInCr(line: string) {
    line != [] && line[|line| - 1] == '\r'
  }

  function StripCr(line: string): string {
    if EndsInCr(line) then line[..|line| - 1] else line
  }

  /** The number of characters before the first c: all of them if there is none. */
  function Before(s: string, c: char): nat {
    if s == [] || s[0] == c then 0 else 1 + Before(s[1..], c)
  }

  /** The number of characters of the first line. */
  function FirstLf(s: string): nat {
    Before(s, '\n')
  }

  lemma {:induction false} BeforeIsFirst(s: string, c: char)
    ensures Before(s, c) <= |s| && c !in s[..Before(s, c)]
    ensures Before(s, c) < |s| ==> s[Before(s, c)] == c
  {
    if s != [] && s[0] != c {
      BeforeIsFirst(s[1..], c);
      assert s[..Before(s, c)] == [s[0]] + s[1..][..Before(s, c) - 1];
    }
  }

  /** The pieces between line feeds; a carriage return just before a line feed belongs to the line feed. */
  function SplitLines(s: string): (lines: seq<string>)
    ensures lines != []
    decreases |s|
  {
    BeforeIsFirst(s, '\n');
    var i := FirstLf(s);
    if i == |s| then [s] else [StripCr(s[..i])] + SplitLines(s[i + 1..])
  }

  /** The fields met so far in a block. */
  datatype Fields = Fields(data: seq<string>, event: Option<string>, id: Option<string>)

  const NoFields := Fields([], None, None)

  function ColonAt(line: string): nat {
    Before(line, ':')
  }

  function FieldValue(line: string, colon: nat): string
    requires colon <= |line|
  {
    if colon == |line| then ""
    else if colon + 1 < |line| && line[colon + 1] == ' ' then line[colon + 2..]
    else line[colon + 1..]
  }

  function ReadLine(f: Fields, line: string): Fields {
    if line == [] || line[0] == ':' then f
    else
      BeforeIsFirst(line, ':');
      var colon := ColonAt(line);
      var value := FieldValue(line, colon);
      if line[..colon] == "data" then f.(data := f.data + [value])
      else if line[..colon] == "event" then f.(event := Some(value))
      else if line[..colon] == "id" then f.(id := Some(value))
      else f
  }

  function ReadLines(f: Fields, lines: seq<string>): Fields
    decreases |lines|
  {
    if lines == [] then f else ReadLines(ReadLine(f, lines[0]), lines[1..])
  }

  function Join(lines: seq<string>): string {
    if lines == [] then "" else if |lines| == 1 then lines[0] else lines[0] + "\n" + Join(lines[1..])
  }

  function RecordOf(f: Fields): Option<Record> {
    if f.data == [] then None else Some(Record(Join(f.data), f.event, f.id))
  }

  function BlockRecord(block: string): Option<Record> {
    RecordOf(ReadLines(NoFields, SplitLines(block)))
  }

  method ParseBlock(block: string) returns (record: Option<Record>)
    ensures record == BlockRecord(block)
  {
    var f := NoFields;
    var lines := SplitLines(block);
    var i := 0;
    while i < |lines|
      invariant 0 <= i <= |lines|
      invariant ReadLines(f, lines[i..]) == ReadLines(NoFields, lines)
    {
      f := ReadLine(f, lines[i]);
      i := i + 1;
    }
    record := RecordOf(f);
  }

  // ------------------------------------------------------------------ the stream

  function Listed(r: Option<Record>): seq<Record> {
    if r.Some? then [r.value] else []
  }

  /** The records of a whole text, and of what is left after its last separator. */
  function Records(s: string): seq<Record>
    decreases |s|
  {
    match FindSeparator(s)
    case None => if s == [] then [] else Listed(BlockRecord(s))
    case Some(p) =>
      SeparatorStays(s, "", p);
      Listed(BlockRecord(s[..p])) + Records(s[p + SeparatorLength(s, p)..])
  }

  function Concat(chunks: seq<string>): string {
    if chunks == [] then "" else chunks[0] + Concat(chunks[1..])
  }

  /** The first block can be taken off before the rest has arrived. */
  lemma TakeBlock(s: string, more: string, p: nat)
    requires FindSeparator(s) == Some(p)
    ensures p + SeparatorLength(s, p) <= |s|
    ensures Records(s + more) ==
            Listed(BlockRecord(s[..p])) + Records(s[p + SeparatorLength(s, p)..] + more)
  {
    SeparatorStays(s, more, p);
    var n := p + SeparatorLength(s, p);
    assert (s + more)[n..] == s[n..] + more;
    assert (s + more)[..p] == s[..p];
  }

  /** Yields the complete blocks at the front of the buffer and keeps the rest. */
  method DrainBlocks(s: string, ghost more: string) returns (records: seq<Record>, buffer: string)
    ensures FindSeparator(buffer).None?
    ensures records + Records(buffer + more) == Records(s + more)
  {
    buffer := s;
    records := [];
    var sep := FindSeparator(buffer);
    while sep.Some?
      invariant sep == FindSeparator(buffer)
      invariant records + Records(buffer + more) == Records(s + more)
      decreases |buffer|
    {
      TakeBlock(buffer, more, sep.value);
      var record := ParseBlock(buffer[..sep.value]);
      records := records + Listed(record);
      buffer := buffer[sep.value + SeparatorLength(buffer, sep.value)..];
      sep := FindSeparator(buffer);
    }
  }

  lemma NextChunk(buffer: string, chunks: seq<string>, i: nat)
    requires i < |chunks|
    ensures buffer + Concat(chunks[i..]) == buffer + chunks[i] + Concat(chunks[i + 1..])
  {
  }

  /** Of the records of the whole text these are found, and the buffer and the chunks from i on hold the others. */
  ghost predicate FoundSoFar(records: seq<Record>, buffer: string, chunks: seq<string>, i: nat)
    requires i <= |chunks|
  {
    records + Records(buffer + Concat(chunks[i..])) == Records(Concat(chunks))
  }

  lemma AtFirstChunk(chunks: seq<string>)
    ensures FoundSoFar([], "", chunks, 0)
  {
    assert chunks[0..] == chunks && "" + Concat(chunks) == Concat(chunks);
  }

  lemma AfterLastChunk(records: seq<Record>, buffer: string, chunks: seq<string>)
    requires FoundSoFar(records, buffer, chunks, |chunks|) && FindSeparator(buffer).None?
    ensures records + (if |buffer| > 0 then Listed(BlockRecord(buffer)) else []) == Records(Concat(chunks))
  {
    assert buffer + "" == buffer;
  }

  /** However the text is cut into chunks, the records are those of the whole text. */
  method ParseSse(chunks: seq<string>) returns (records: seq<Record>)
    ensures records == Records(Concat(chunks))
  {
    var buffer := "";
    records := [];
    AtFirstChunk(chunks);
    var i := 0;
    while i < |chunks|
      invariant 0 <= i <= |chunks|
      invariant FindSeparator(buffer).None?
      invariant FoundSoFar(records, buffer, chunks, i)
    {
      NextChunk(buffer, chunks, i);
      var found, rest := DrainBlocks(buffer + chunks[i], Concat(chunks[i + 1..]));
      records, buffer := records + found, rest;
      i := i + 1;
    }
    AfterLastChunk(records, buffer, chunks);
    if |buffer| > 0 {
      var record := ParseBlock(buffer);
      records := records + Listed(record);
    }
  }

  // ------------------------------------------------------------------ printing and reading back

  function SplitLf(s: string): (lines: seq<string>)
    ensures lines != [] && forall i :: 0 <= i < |lines| ==> NoLf(lines[i])
    decreases |s|
  {
    BeforeIsFirst(s, '\n');
    var i := FirstLf(s);
    if i == |s| then assert s[..i] == s; [s] else [s[..i]] + SplitLf(s[i + 1..])
  }

  function Line(name: string, value: string): string {
    name + ": " + value
  }

  function DataLines(lines: seq<string>): (r: seq<string>)
    ensures |r| == |lines| && forall i :: 0 <= i < |r| ==> r[i] == Line("data", lines[i])
  {
    seq(|lines|, i requires 0 <= i < |lines| => Line("data", lines[i]))
  }

  function OptionLine(name: string, value: Option<string>): seq<string> {
    if value.None? then [] else [Line(name, value.value)]
  }

  function FieldLines(f: Fields): seq<string> {
    OptionLine("event", f.event) + (OptionLine("id", f.id) + DataLines(f.data))
  }

  function FieldsOf(r: Record): (f: Fields)
    ensures f.data != []
  {
    Fields(SplitLf(r.data), r.event, r.id)
  }

  /** An event line, an id line, one data line per line of the data, and a blank line. */
  function Render(r: Record): string {
    Join(FieldLines(FieldsOf(r))) + "\n\n"
  }

  function RenderAll(rs: seq<Record>): string
    decreases |rs|
  {
    if rs == [] then "" else Render(rs[0]) + RenderAll(rs[1..])
  }

  predicate SingleLine(r: Record) {
    (r.event.Some? ==> NoLf(r.event.value)) && (r.id.Some? ==> NoLf(r.id.value))
  }

  /** Every line but the last without the carriage return it may end in. */
  function StripAll(lines: seq<string>): (r: seq<string>)
    ensures |r| == |lines|
    decreases |lines|
  {
    if |lines| <= 1 then lines else [StripCr(lines[0])] + StripAll(lines[1..])
  }

  function StripOption(value: Option<string>): Option<string> {
    if value.None? then None else Some(StripCr(value.value))
  }

  /** What a printed record reads back as. */
  function ReadBack(r: Record): Record {
    Record(Join(StripAll(SplitLf(r.data))), StripOption(r.event), StripOption(r.id))
  }

  lemma FirstLfOf(line: string, rest: string)
    requires NoLf(line)
    ensures FirstLf(line) == |line| && FirstLf(line + "\n" + rest) == |line|
  {
    var s := line + "\n" + rest;
    BeforeIsFirst(line, '\n');
    BeforeIsFirst(s, '\n');
    assert forall k :: 0 <= k < |line| ==> s[k] == line[k];
    assert s[|line|] == '\n';
    assert forall k :: |line| < k <= |s| ==> s[|line|] == s[..k][|line|] && s[..k][|line|] in s[..k];
  }

  ghost predicate AllNoLf(lines: seq<string>) {
    forall i :: 0 <= i < |lines| ==> NoLf(lines[i])
  }

  lemma {:induction false} SplitJoined(lines: seq<string>)
    requires lines != [] && AllNoLf(lines)
    ensures SplitLines(Join(lines)) == StripAll(lines)
    ensures SplitLf(Join(lines)) == lines
    decreases |lines|
  {
    if |lines| == 1 {
      FirstLfOf(lines[0], "");
    } else {
      var rest := Join(lines[1..]);
      FirstLfOf(lines[0], rest);
      SplitJoined(lines[1..]);
      assert (lines[0] + "\n" + rest)[..|lines[0]|] == lines[0];
      assert (lines[0] + "\n" + rest)[|lines[0]| + 1..] == rest;
    }
  }

  lemma {:induction false} JoinSplit(s: string)
    ensures Join(SplitLf(s)) == s
    decreases |s|
  {
    BeforeIsFirst(s, '\n');
    var i := FirstLf(s);
    if i < |s| {
      JoinSplit(s[i + 1..]);
      assert s == s[..i] + "\n" + s[i + 1..];
    }
  }

  lemma {:induction false} ReadConcat(f: Fields, a: seq<string>, b: seq<string>)
    ensures ReadLines(f, a + b) == ReadLines(ReadLines(f, a), b)
    decreases |a|
  {
    if a == [] {
      assert a + b == b;
    } else {
      ReadConcat(ReadLine(f, a[0]), a[1..], b);
      assert (a + b)[1..] == a[1..] + b;
    }
  }

  lemma ColonAfterName(name: string, value: string)
    requires ':' !in name
    ensures ColonAt(Line(name, value)) == |name|
  {
    var line := Line(name, value);
    BeforeIsFirst(line, ':');
    assert forall k :: 0 <= k < |name| ==> line[k] == name[k];
    assert line[|name|] == ':';
    assert forall k :: |name| < k <= |line| ==> line[|name|] == line[..k][|name|] && line[..k][|name|] in line[..k];
  }

  lemma ReadField(f: Fields, name: string, value: string)
    requires name == "data" || name == "event" || name == "id"
    ensures ReadLine(f, Line(name, value)) ==
            if name == "data" then f.(data := f.data + [value])
            else if name == "event" then f.(event := Some(value))
            else f.(id := Some(value))
  {
    var line := Line(name, value);
    ColonAfterName(name, value);
    assert line[0] == name[0] && line[|name| + 1] == ' ';
    assert line[..|name|] == name && line[|name| + 2..] == value;
  }

  lemma {:induction false} ReadData(f: Fields, lines: seq<string>)
    ensures ReadLines(f, DataLines(lines)) == f.(data := f.data + lines)
    decreases |lines|
  {
    if lines == [] {
      assert f.data + lines == f.data;
    } else {
      ReadField(f, "data", lines[0]);
      ReadData(f.(data := f.data + [lines[0]]), lines[1..]);
      assert DataLines(lines)[1..] == DataLines(lines[1..]);
      assert f.data + [lines[0]] + lines[1..] == f.data + lines;
    }
  }

  lemma ReadOption(f: Fields, name: string, value: Option<string>)
    requires name == "event" || name == "id"
    ensures ReadLines(f, OptionLine(name, value)) ==
            if value.None? then f
            else if name == "event" then f.(event := value) else f.(id := value)
  {
    if value.Some? {
      ReadField(f, name, value.value);
      assert OptionLine(name, value)[1..] == [];
    }
  }

  lemma ReadFieldLines(f: Fields)
    ensures ReadLines(NoFields, FieldLines(f)) == f
  {
    var e, i, d := OptionLine("event", f.event), OptionLine("id", f.id), DataLines(f.data);
    ReadConcat(NoFields, e, i + d);
    ReadOption(NoFields, "event", f.event);
    var f1 := ReadLines(NoFields, e);
    ReadConcat(f1, i, d);
    ReadOption(f1, "id", f.id);
    ReadData(ReadLines(f1, i), f.data);
    assert [] + f.data == f.data;
  }

  lemma StripLine(name: string, value: string)
    ensures StripCr(Line(name, value)) == Line(name, StripCr(value))
  {
    var line := Line(name, value);
    if value == [] {
      assert line[|line| - 1] == ' ';
    } else {
      assert line[|line| - 1] == value[|value| - 1];
      assert line[..|line| - 1] == Line(name, value[..|value| - 1]);
    }
  }

  lemma {:induction false} StripDataLines(lines: seq<string>)
    ensures StripAll(DataLines(lines)) == DataLines(StripAll(lines))
    decreases |lines|
  {
    if |lines| > 1 {
      StripLine("data", lines[0]);
      StripDataLines(lines[1..]);
      assert DataLines(lines)[1..] == DataLines(lines[1..]);
    }
  }

  lemma StripOptionLine(name: string, value: Option<string>, lines: seq<string>)
    requires lines != []
    ensures StripAll(OptionLine(name, value) + lines) == OptionLine(name, StripOption(value)) + StripAll(lines)
  {
    if value.None? {
      assert OptionLine(name, value) + lines == lines;
    } else {
      StripLine(name, value.value);
      assert (OptionLine(name, value) + lines)[1..] == lines;
    }
  }

  lemma StripFieldLines(f: Fields)
    requires f.data != []
    ensures StripAll(FieldLines(f)) == FieldLines(Fields(StripAll(f.data), StripOption(f.event), StripOption(f.id)))
  {
    StripOptionLine("event", f.event, OptionLine("id", f.id) + DataLines(f.data));
    StripOptionLine("id", f.id, DataLines(f.data));
    StripDataLines(f.data);
  }

  lemma NoLfLine(name: string, value: string)
    requires NoLf(name) && NoLf(value)
    ensures NoLf(Line(name, value))
  {
  }

  lemma FieldLinesAreLines(r: Record)
    requires SingleLine(r)
    ensures AllNoLf(FieldLines(FieldsOf(r))) && FieldLines(FieldsOf(r)) != []
  {
    forall value | NoLf(value) ensures NoLf(Line("data", value)) && NoLf(Line("event", value)) && NoLf(Line("id", value)) {
      NoLfLine("data", value);
      NoLfLine("event", value);
      NoLfLine("id", value);
    }
    assert AllNoLf(DataLines(SplitLf(r.data)));
  }

  /** The text of a record without its blank line reads back as the record, less some carriage returns. */
  lemma BlockReadsBack(r: Record)
    requires SingleLine(r)
    ensures BlockRecord(Join(FieldLines(FieldsOf(r)))) == Some(ReadBack(r))
  {
    var f := FieldsOf(r);
    FieldLinesAreLines(r);
    SplitJoined(FieldLines(f));
    StripFieldLines(f);
    ReadFieldLines(Fields(StripAll(f.data), StripOption(f.event), StripOption(f.id)));
  }

  /** A line feed inside the text is followed by something that starts a line. */
  ghost predicate LinesStartPlainly(s: string) {
    && s != [] && s[0] != '\r'
    && forall i :: 0 <= i < |s| && s[i] == '\n' ==> i + 1 < |s| && s[i + 1] != '\n' && s[i + 1] != '\r'
  }

  ghost predicate PlainLines(lines: seq<string>) {
    AllNoLf(lines) && forall i :: 0 <= i < |lines| ==> lines[i] != [] && lines[i][0] != '\r'
  }

  lemma {:induction false} JoinedStartsPlainly(lines: seq<string>)
    requires lines != [] && PlainLines(lines)
    ensures LinesStartPlainly(Join(lines)) && Join(lines)[0] == lines[0][0]
    decreases |lines|
  {
    if |lines| > 1 {
      JoinedStartsPlainly(lines[1..]);
      var rest := Join(lines[1..]);
      assert rest[0] != '\n' by {
        assert rest[0] == lines[1][0] && lines[1][0] in lines[1];
      }
      var s := Join(lines);
      assert s == lines[0] + "\n" + rest;
      assert forall i :: 0 <= i < |lines[0]| ==> s[i] == lines[0][i] && s[i] != '\n';
      assert forall i :: |lines[0]| < i < |s| ==> s[i] == rest[i - |lines[0]| - 1];
    }
  }

  lemma SeparatorAfter(s: string, rest: string)
    requires LinesStartPlainly(s)
    ensures FindSeparator(s + "\n\n" + rest) == Some(|s|)
  {
    var t := s + "\n\n" + rest;
    assert forall i :: 0 <= i < |s| ==> t[i] == s[i];
    assert t[|s|] == '\n' && t[|s| + 1] == '\n';
    assert IsSeparator(t, |s|);
    assert forall k: nat {:trigger IsSeparator(t, k)} :: k < |s| ==> !IsSeparator(t, k);
    FoundIff(t, |s|);
  }

  lemma RecordsAfterPrinted(r: Record, rest: string)
    requires SingleLine(r)
    ensures Records(Render(r) + rest) == [ReadBack(r)] + Records(rest)
  {
    var lines := FieldLines(FieldsOf(r));
    FieldLinesAreLines(r);
    assert PlainLines(lines);
    JoinedStartsPlainly(lines);
    var s := Join(lines);
    SeparatorAfter(s, rest);
    assert Render(r) + rest == s + "\n\n" + rest;
    assert (s + "\n\n" + rest)[..|s|] == s;
    assert (s + "\n\n" + rest)[|s| + 2..] == rest;
    BlockReadsBack(r);
  }

  function AllReadBack(rs: seq<Record>): (r: seq<Record>)
    ensures |r| == |rs| && forall i :: 0 <= i < |r| ==> r[i] == ReadBack(rs[i])
    decreases |rs|
  {
    if rs == [] then [] else [ReadBack(rs[0])] + AllReadBack(rs[1..])
  }

  lemma {:induction false} PrintedRecordsReadBack(rs: seq<Record>)
    requires forall i :: 0 <= i < |rs| ==> SingleLine(rs[i])
    ensures Records(RenderAll(rs)) == AllReadBack(rs)
    decreases |rs|
  {
    if rs == [] {
      FindsFirst("");
    } else {
      RecordsAfterPrinted(rs[0], RenderAll(rs[1..]));
      PrintedRecordsReadBack(rs[1..]);
    }
  }

  // ------------------------------------------------------------------ exactly which records survive

  ghost predicate CrBeforeLf(s: string) {
    exists i :: 0 <= i < |s| - 1 && s[i] == '\r' && s[i + 1] == '\n'
  }

  ghost predicate Survives(r: Record) {
    && SingleLine(r)
    && (r.event.Some? ==> !EndsInCr(r.event.value))
    && (r.id.Some? ==> !EndsInCr(r.id.value))
    && !CrBeforeLf(r.data)
  }

  lemma CrBeforeLfSplits(line: string, rest: string)
    requires NoLf(line)
    ensures CrBeforeLf(line + "\n" + rest) <==> EndsInCr(line) || CrBeforeLf(rest)
  {
    var s, n := line + "\n" + rest, |line|;
    assert forall i :: 0 <= i < n ==> s[i] == line[i];
    assert forall i :: n < i < |s| ==> s[i] == rest[i - n - 1];
    if EndsInCr(line) {
      assert s[n - 1] == '\r' && s[n - 1 + 1] == '\n';
    } else if CrBeforeLf(rest) {
      var i :| 0 <= i < |rest| - 1 && rest[i] == '\r' && rest[i + 1] == '\n';
      assert s[n + 1 + i] == '\r' && s[n + 1 + i + 1] == '\n';
    } else {
      forall i | 0 <= i < |s| - 1 ensures !(s[i] == '\r' && s[i + 1] == '\n') {
        assert i > n ==> s[i] == rest[i - n - 1] && s[i + 1] == rest[i - n - 1 + 1];
      }
    }
  }

  lemma {:induction false} DataSurvives(s: string)
    ensures |Join(StripAll(SplitLf(s)))| <= |s|
    ensures Join(StripAll(SplitLf(s))) == s <==> !CrBeforeLf(s)
    decreases |s|
  {
    BeforeIsFirst(s, '\n');
    var i := FirstLf(s);
    if i == |s| {
      assert s[..i] == s;
    } else {
      var line, rest := s[..i], s[i + 1..];
      assert s == line + "\n" + rest;
      DataSurvives(rest);
      CrBeforeLfSplits(line, rest);
      var back := Join(StripAll(SplitLf(rest)));
      assert Join(StripAll(SplitLf(s))) == StripCr(line) + "\n" + back;
      if StripCr(line) + "\n" + back == s {
        assert |StripCr(line)| == |line|;
        assert back == s[i + 1..];
      }
    }
  }

  lemma SurvivesIff(r: Record)
    requires SingleLine(r)
    ensures ReadBack(r) == r <==> Survives(r)
  {
    DataSurvives(r.data);
  }

  lemma {:induction false} SplitLinesNoLf(s: string)
    ensures AllNoLf(SplitLines(s))
    decreases |s|
  {
    BeforeIsFirst(s, '\n');
    var i := FirstLf(s);
    if i < |s| {
      SplitLinesNoLf(s[i + 1..]);
    } else {
      assert s[..i] == s;
    }
  }

  ghost predicate FieldsNoLf(f: Fields) {
    (f.event.Some? ==> NoLf(f.event.value)) && (f.id.Some? ==> NoLf(f.id.value))
  }

  lemma {:induction false} ReadLinesNoLf(f: Fields, lines: seq<string>)
    requires FieldsNoLf(f) && AllNoLf(lines)
    ensures FieldsNoLf(ReadLines(f, lines))
    decreases |lines|
  {
    if lines != [] {
      assert FieldsNoLf(ReadLine(f, lines[0]));
      ReadLinesNoLf(ReadLine(f, lines[0]), lines[1..]);
    }
  }

  lemma BlockIsSingleLine(block: string)
    ensures BlockRecord(block).Some? ==> SingleLine(BlockRecord(block).value)
  {
    SplitLinesNoLf(block);
    ReadLinesNoLf(NoFields, SplitLines(block));
  }

  /** Whatever the text, no event or id that is read contains a line feed. */
  lemma {:induction false} ReadRecordsAreSingleLine(s: string)
    ensures forall i :: 0 <= i < |Records(s)| ==> SingleLine(Records(s)[i])
    decreases |s|
  {
    match FindSeparator(s)
    case None => BlockIsSingleLine(s);
    case Some(p) =>
      SeparatorStays(s, "", p);
      BlockIsSingleLine(s[..p]);
      ReadRecordsAreSingleLine(s[p + SeparatorLength(s, p)..]);
  }

  /** Printing a list of records and reading the text gives the list back if and only if no event or id contains a line
      feed or ends in a carriage return and no data has a carriage return just before a line feed. */
  lemma RoundTripIff(rs: seq<Record>)
    ensures Records(RenderAll(rs)) == rs <==> forall i :: 0 <= i < |rs| ==> Survives(rs[i])
  {
    if forall i :: 0 <= i < |rs| ==> SingleLine(rs[i]) {
      PrintedRecordsReadBack(rs);
      forall i | 0 <= i < |rs| ensures ReadBack(rs[i]) == rs[i] <==> Survives(rs[i]) {
        SurvivesIff(rs[i]);
      }
    } else {
      ReadRecordsAreSingleLine(RenderAll(rs));
    }
  }
}
