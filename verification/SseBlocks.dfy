/** What a text of server-sent events says, by its blocks, lines and fields. */
module SseBlocks {
  import opened Wrappers
  import opened Sse

  // ------------------------------------------------------------------ the fields of a line

  /** The line holds the field: its name alone, or the name, a colon, perhaps one space, and the value. Comments and blank
      lines hold a field without a name. */
  ghost predicate IsField(line: string, name: string, value: string) {
    && ':' !in name
    && (|| (line == name && value == "")
        || line == name + ":" + " " + value
        || (line == name + ":" + value && (value == [] || value[0] != ' ')))
  }

  lemma ColonEndsName(name: string, rest: string)
    requires ':' !in name
    ensures ColonAt(name) == |name| && ColonAt(name + ":" + rest) == |name|
  {
    var line := name + ":" + rest;
    BeforeIsFirst(name, ':');
    BeforeIsFirst(line, ':');
    assert forall k :: 0 <= k < |name| ==> line[k] == name[k];
    assert line[|name|] == ':';
    assert forall k :: |name| < k <= |line| ==> line[|name|] == line[..k][|name|] && line[..k][|name|] in line[..k];
  }

  /** What a field adds to the fields read so far. */
  function WithField(f: Fields, name: string, value: string): Fields {
    if name == "data" then f.(data := f.data + [value])
    else if name == "event" then f.(event := Some(value))
    else if name == "id" then f.(id := Some(value))
    else f
  }

  lemma NameIsFirstPart(line: string, name: string, value: string)
    requires IsField(line, name, value)
    ensures ColonAt(line) == |name| <= |line| && line[..|name|] == name && FieldValue(line, |name|) == value
  {
    if line == name && value == "" {
      ColonEndsName(name, "");
    } else if line == name + ":" + " " + value {
      ColonEndsName(name, " " + value);
      assert line == name + ":" + (" " + value);
      assert line[|name| + 1] == ' ' && line[|name| + 2..] == value;
    } else {
      ColonEndsName(name, value);
      assert line[|name| + 1..] == value;
    }
  }

  lemma ReadLineReadsField(f: Fields, line: string, name: string, value: string)
    requires IsField(line, name, value)
    ensures ReadLine(f, line) == WithField(f, name, value)
  {
    NameIsFirstPart(line, name, value);
    assert line == [] || line[0] == ':' ==> name == "";
  }

  lemma LineHasField(line: string) returns (name: string, value: string)
    ensures IsField(line, name, value)
  {
    BeforeIsFirst(line, ':');
    var colon := ColonAt(line);
    name := line[..colon];
    if colon == |line| {
      value := "";
    } else if colon + 1 < |line| && line[colon + 1] == ' ' {
      value := line[colon + 2..];
      assert line == name + ":" + " " + value;
    } else {
      value := line[colon + 1..];
      assert line == name + ":" + value;
    }
  }

  // ------------------------------------------------------------------ the record of a block

  type Field = (string, string)

  /** The values of the fields of that name, in order. */
  function ValuesOf(fields: seq<Field>, name: string): seq<string> {
    if fields == [] then []
    else
      var k := |fields| - 1;
      ValuesOf(fields[..k], name) + (if fields[k].0 == name then [fields[k].1] else [])
  }

  /** The value of the last field of that name. */
  function LastValue(fields: seq<Field>, name: string): Option<string> {
    if fields == [] then None
    else if fields[|fields| - 1].0 == name then Some(fields[|fields| - 1].1)
    else LastValue(fields[..|fields| - 1], name)
  }

  ghost predicate AreFieldsOf(lines: seq<string>, fields: seq<Field>) {
    |fields| == |lines| && forall i :: 0 <= i < |lines| ==> IsField(lines[i], fields[i].0, fields[i].1)
  }

  function Gathered(fields: seq<Field>): Fields {
    Fields(ValuesOf(fields, "data"), LastValue(fields, "event"), LastValue(fields, "id"))
  }

  lemma {:induction false} ReadLinesReadFields(lines: seq<string>, fields: seq<Field>)
    requires AreFieldsOf(lines, fields)
    ensures ReadLines(NoFields, lines) == Gathered(fields)
  {
    if lines != [] {
      var k := |lines| - 1;
      ReadLinesReadFields(lines[..k], fields[..k]);
      assert lines == lines[..k] + [lines[k]];
      ReadConcat(NoFields, lines[..k], [lines[k]]);
      var before := ReadLines(NoFields, lines[..k]);
      assert [lines[k]][1..] == [];
      assert ReadLines(before, [lines[k]]) == ReadLine(before, lines[k]);
      ReadLineReadsField(before, lines[k], fields[k].0, fields[k].1);
    }
  }

  lemma {:induction false} LinesHaveFields(lines: seq<string>) returns (fields: seq<Field>)
    ensures AreFieldsOf(lines, fields)
  {
    if lines == [] {
      fields := [];
    } else {
      var name, value := LineHasField(lines[0]);
      var rest := LinesHaveFields(lines[1..]);
      fields := [(name, value)] + rest;
    }
  }

  /** The lines are the pieces; every piece but the last loses the carriage return it may end in. */
  ghost predicate AreLinesOf(pieces: seq<string>, lines: seq<string>) {
    && |lines| == |pieces| && pieces != []
    && lines[|lines| - 1] == pieces[|pieces| - 1]
    && forall i :: 0 <= i < |pieces| - 1 ==>
         pieces[i] == lines[i] + "\r" || (pieces[i] == lines[i] && (lines[i] == [] || lines[i][|lines[i]| - 1] != '\r'))
  }

  lemma {:induction false} StrippedAreLines(pieces: seq<string>)
    requires pieces != []
    ensures AreLinesOf(pieces, StripAll(pieces))
    decreases |pieces|
  {
    if |pieces| > 1 {
      StrippedAreLines(pieces[1..]);
      assert EndsInCr(pieces[0]) ==> pieces[0] == StripCr(pieces[0]) + "\r";
    }
  }

  /** The pieces have no line feed and give the text when they are joined by line feeds. */
  ghost predicate ArePiecesOf(text: string, pieces: seq<string>) {
    pieces != [] && AllNoLf(pieces) && Joins(text, pieces)
  }

  ghost predicate Joins(text: string, pieces: seq<string>)
    decreases |pieces|
  {
    if |pieces| == 0 then text == ""
    else if |pieces| == 1 then text == pieces[0]
    else exists rest :: text == pieces[0] + "\n" + rest && Joins(rest, pieces[1..])
  }

  lemma {:induction false} JoinJoins(pieces: seq<string>, text: string)
    ensures Joins(text, pieces) <==> text == Join(pieces)
    decreases |pieces|
  {
    if |pieces| > 1 {
      JoinJoins(pieces[1..], Join(pieces[1..]));
      if Joins(text, pieces) {
        var rest :| text == pieces[0] + "\n" + rest && Joins(rest, pieces[1..]);
        JoinJoins(pieces[1..], rest);
      }
    }
  }

  /** A block gives no record when it has no data; otherwise the data of its data lines joined by line feeds, and its last
      event and id. */
  lemma BlockIsItsFields(block: string, pieces: seq<string>, lines: seq<string>, fields: seq<Field>)
    requires ArePiecesOf(block, pieces) && AreLinesOf(pieces, lines) && AreFieldsOf(lines, fields)
    ensures BlockRecord(block).None? <==> forall i :: 0 <= i < |fields| ==> fields[i].0 != "data"
    ensures BlockRecord(block).Some? ==>
              && Joins(BlockRecord(block).value.data, ValuesOf(fields, "data"))
              && BlockRecord(block).value.event == LastValue(fields, "event")
              && BlockRecord(block).value.id == LastValue(fields, "id")
  {
    JoinJoins(pieces, block);
    SplitJoined(pieces);
    StrippedAreLines(pieces);
    LinesAreUnique(pieces, lines, StripAll(pieces));
    ReadLinesReadFields(lines, fields);
    SomeValue(fields, "data");
    JoinJoins(ValuesOf(fields, "data"), Join(ValuesOf(fields, "data")));
  }

  lemma LinesAreUnique(pieces: seq<string>, lines: seq<string>, lines': seq<string>)
    requires AreLinesOf(pieces, lines) && AreLinesOf(pieces, lines')
    ensures lines == lines'
  {
    forall i | 0 <= i < |pieces| - 1
      ensures lines[i] == lines'[i]
    {
      LineIsUnique(pieces[i], lines[i], lines'[i]);
    }
  }

  lemma LineIsUnique(piece: string, a: string, b: string)
    requires piece == a + "\r" || (piece == a && (a == [] || a[|a| - 1] != '\r'))
    requires piece == b + "\r" || (piece == b && (b == [] || b[|b| - 1] != '\r'))
    ensures a == b
  {
    assert (a + "\r")[..|a|] == a && (b + "\r")[..|b|] == b;
    assert (a + "\r")[|a|] == '\r' && (b + "\r")[|b|] == '\r';
  }

  lemma {:induction false} SomeValue(fields: seq<Field>, name: string)
    ensures ValuesOf(fields, name) == [] <==> forall i :: 0 <= i < |fields| ==> fields[i].0 != name
  {
    if fields != [] {
      var before := fields[..|fields| - 1];
      SomeValue(before, name);
      assert forall i :: 0 <= i < |before| ==> before[i] == fields[i];
    }
  }

  /** Every block has pieces, lines and fields. */
  lemma BlockHasFields(block: string) returns (pieces: seq<string>, lines: seq<string>, fields: seq<Field>)
    ensures ArePiecesOf(block, pieces) && AreLinesOf(pieces, lines) && AreFieldsOf(lines, fields)
  {
    pieces := SplitLf(block);
    JoinSplit(block);
    JoinJoins(pieces, block);
    StrippedAreLines(pieces);
    lines := StripAll(pieces);
    fields := LinesHaveFields(lines);
  }

  // ------------------------------------------------------------------ the blocks of a text

  /** A block ends at the first blank line, written with either line ending; what follows is read by itself. */
  lemma FirstBlockIsRead(block: string, sep: string, rest: string)
    requires sep == "\n\n" || sep == "\r\n\r\n"
    requires forall i: nat {:trigger IsSeparator(block + sep + rest, i)} ::
               i < |block| ==> !IsSeparator(block + sep + rest, i)
    ensures Records(block + sep + rest) ==
            (if BlockRecord(block).Some? then [BlockRecord(block).value] else []) + Records(rest)
  {
    var s, p := block + sep + rest, |block|;
    assert s[p] == sep[0] && s[p + 1] == sep[1];
    assert |sep| == 4 ==> s[p + 2] == sep[2] && s[p + 3] == sep[3];
    assert IsSeparator(s, p);
    FoundIff(s, p);
    assert s[..p] == block && s[p + |sep|..] == rest;
  }

  /** What no blank line ends is one more block. */
  lemma LastBlockIsRead(s: string)
    requires forall i: nat {:trigger IsSeparator(s, i)} :: !IsSeparator(s, i)
    ensures Records(s) == if s != "" && BlockRecord(s).Some? then [BlockRecord(s).value] else []
  {
    FindsFirst(s);
  }
}
