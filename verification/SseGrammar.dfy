/**
 Event streams by their grammar: sections 9.2.5 and 9.2.6 of the HTML Living Standard, as
 narrowed by python-service/cli/client.py. UTF-8 and JSON decoding are parameters.
 */
module SseGrammar {
  import opened Wrappers
  import opened Segments

  newtype byte = x: int | 0 <= x < 256

  const LF: byte := 10
  const CR: byte := 13
  const MAX_SSE_EVENT_BYTES: nat := 16 * 1024 * 1024

  datatype Value = Text(text: string) | Null | OtherJson

  type Event = map<string, Value>

  datatype Json = Malformed | NotAnObject | Object(fields: Event)

  /**
   How bytes become text, text becomes JSON, and whether a block's lines are joined and split
   once more before they are read, which the client does and the standard does not.
   */
  datatype Decoder = Decoder(utf8: seq<byte> -> Option<string>, json: string -> Json, resplit: bool)

  /** Only the empty byte string decodes to the empty text. */
  ghost predicate Sound(utf8: seq<byte> -> Option<string>) { forall bytes :: utf8(bytes) == Some("") <==> bytes == [] }

  datatype StreamError = TooLarge | InvalidUtf8 | InvalidJson | DataNotAnObject | AfterTerminal | Interrupted

  // ---------- line terminators ----------

  /** CR LF, CR and LF all end a line; afterwards only LF does. */
  function Norm(bytes: seq<byte>): seq<byte> {
    if bytes == [] then []
    else if bytes[0] != CR then [bytes[0]] + Norm(bytes[1..])
    else if |bytes| > 1 && bytes[1] == LF then [LF] + Norm(bytes[2..])
    else [LF] + Norm(bytes[1..])
  }

  // ---------- fields ----------

  /** The part before the first colon, and the part after it less one leading space. */
  function FieldOf(line: string): (string, string) {
    var parts := Split(line, ':');
    if |parts| == 1 then (line, "")
    else
      var value := Join(parts[1..], ':');
      (parts[0], if value != "" && value[0] == ' ' then value[1..] else value)
  }

  /** The values of all data lines, in order. */
  function DataValues(lines: seq<string>): seq<string> {
    if lines == [] then []
    else
      var before, field := DataValues(lines[..|lines| - 1]), FieldOf(lines[|lines| - 1]);
      if field.0 == "data" then before + [field.1] else before
  }

  /** The value of the last line with the name; an identifier holding NUL does not count. */
  function LastValue(lines: seq<string>, name: string): Option<string> {
    if lines == [] then None
    else
      var field := FieldOf(lines[|lines| - 1]);
      if field.0 == name && !(name == "id" && '\U{0000}' in field.1) then Some(field.1)
      else LastValue(lines[..|lines| - 1], name)
  }

  function WithMeta(data: Event, name: Option<string>, id: Option<string>): Event {
    var named :=
      if name.None? || name.value == "" then data
      else (if "type" in data then data else data["type" := Text(name.value)])["event" := Text(name.value)];
    if id.None? then named else named["eventId" := Text(id.value)]
  }

  /** One block of lines read as an event: no data line, no event. */
  function EventOf(json: string -> Json, lines: seq<string>): Result<Option<Event>, StreamError> {
    var data := DataValues(lines);
    if data == [] then Ok(None)
    else
      match json(Join(data, '\n'))
      case Malformed => Err(InvalidJson)
      case NotAnObject => Err(DataNotAnObject)
      case Object(o) => Ok(Some(WithMeta(o, LastValue(lines, "event"), LastValue(lines, "id"))))
  }

  predicate IsTerminal(e: Event) {
    if "event" in e then e["event"] == Text("complete") else "type" in e && e["type"] == Text("complete")
  }

  // ---------- reading a block ----------

  /** The characters at which Python's str.splitlines cuts; the standard knows only the first two. */
  predicate IsBreak(c: char) {
    var n := c as int;
    n == 0xA || n == 0xD || 0xB <= n <= 0xC || 0x1C <= n <= 0x1E || n == 0x85 || n == 0x2028 || n == 0x2029
  }

  predicate Plain(s: string) { forall i :: 0 <= i < |s| ==> !IsBreak(s[i]) }

  function FirstBreak(s: string): (i: nat)
    ensures i <= |s| && (forall k :: 0 <= k < i ==> !IsBreak(s[k])) && (i < |s| ==> IsBreak(s[i]))
  {
    if s == [] || IsBreak(s[0]) then 0 else 1 + FirstBreak(s[1..])
  }

  function SplitLines(s: string): seq<string>
    decreases |s|
  {
    if s == [] then []
    else
      var i := FirstBreak(s);
      if i == |s| then [s]
      else if s[i] == '\r' && i + 1 < |s| && s[i + 1] == '\n' then [s[..i]] + SplitLines(s[i + 2..])
      else [s[..i]] + SplitLines(s[i + 1..])
  }

  /** "\n".join of a list that may be empty. */
  function JoinLines(lines: seq<string>): string { if lines == [] then "" else Join(lines, '\n') }

  function Read(d: Decoder, lines: seq<string>): Result<Option<Event>, StreamError> {
    EventOf(d.json, if d.resplit then SplitLines(JoinLines(lines)) else lines)
  }

  // ---------- blocks ----------

  datatype Outcome = Outcome(events: seq<Event>, terminal: bool, failure: Option<StreamError>)

  /** The bytes a block occupies, one terminator per line. */
  function Size(block: seq<seq<byte>>): nat { if block == [] then 0 else |block[0]| + 1 + Size(block[1..]) }

  /** The decoded lines of a block that starts after `used` bytes, or what stops its reading first. */
  function Texts(utf8: seq<byte> -> Option<string>, block: seq<seq<byte>>, used: nat):
      Result<seq<string>, StreamError> {
    if block == [] then Ok([])
    else if used + |block[0]| > MAX_SSE_EVENT_BYTES then Err(TooLarge)
    else
      match utf8(block[0])
      case None => Err(InvalidUtf8)
      case Some(t) =>
        match Texts(utf8, block[1..], used + |block[0]| + 1)
        case Err(e) => Err(e)
        case Ok(rest) => Ok([t] + rest)
  }

  /** One event after another, and none after the terminal one. */
  function DeliverLines(d: Decoder, lines: seq<string>, o: Outcome): Outcome {
    match Read(d, lines)
    case Err(e) => o.(failure := Some(e))
    case Ok(None) => o
    case Ok(Some(e)) =>
      if o.terminal then o.(failure := Some(AfterTerminal)) else Outcome(o.events + [e], IsTerminal(e), None)
  }

  function DeliverBlock(d: Decoder, block: seq<seq<byte>>, o: Outcome): Outcome {
    match Texts(d.utf8, block, 0)
    case Err(e) => o.(failure := Some(e))
    case Ok(lines) => DeliverLines(d, lines, o)
  }

  function Deliver(d: Decoder, blocks: seq<seq<seq<byte>>>, o: Outcome): Outcome
    decreases |blocks|
  {
    if blocks == [] || o.failure.Some? then o
    else Deliver(d, blocks[1..], DeliverBlock(d, blocks[0], o))
  }

  /** Blocks are cut at empty lines, lines at terminators; what follows the last of each is incomplete. */
  function Lines(bytes: seq<byte>): seq<seq<byte>> { Split(Norm(bytes), LF) }

  function Blocks(bytes: seq<byte>): seq<seq<seq<byte>>> { Split(Lines(bytes)[..|Lines(bytes)| - 1], []) }

  function Complete<T>(parts: seq<T>): seq<T> requires |parts| > 0 { parts[..|parts| - 1] }

  function Rest<T>(parts: seq<T>): T requires |parts| > 0 { parts[|parts| - 1] }

  /** What a whole stream means: the events of its complete blocks, and how it ends. */
  function Meaning(d: Decoder, bytes: seq<byte>): Outcome {
    var o := Deliver(d, Complete(Blocks(bytes)), Outcome([], false, None));
    var open, partial := Rest(Blocks(bytes)), Rest(Lines(bytes));
    if o.failure.Some? then o
    else
      match Texts(d.utf8, open, 0)
      case Err(e) => o.(failure := Some(e))
      case Ok(_) =>
        if partial != [] && Size(open) + |partial| > MAX_SSE_EVENT_BYTES then o.(failure := Some(TooLarge))
        else if partial != [] || open != [] || !o.terminal then o.(failure := Some(Interrupted))
        else o
  }

  // ---------- re-splitting a block ----------

  lemma {:induction false} SplitLinesArePlain(s: string)
    ensures forall i :: 0 <= i < |SplitLines(s)| ==> Plain(SplitLines(s)[i])
    decreases |s|
  {
    if s != [] {
      var i := FirstBreak(s);
      if i == |s| {
        assert s[..i] == s;
      } else if s[i] == '\r' && i + 1 < |s| && s[i + 1] == '\n' {
        SplitLinesArePlain(s[i + 2..]);
      } else {
        SplitLinesArePlain(s[i + 1..]);
      }
    }
  }

  lemma FirstBreakAt(s: string, i: nat)
    requires i <= |s| && (forall k :: 0 <= k < i ==> !IsBreak(s[k])) && (i < |s| ==> IsBreak(s[i]))
    ensures FirstBreak(s) == i
  {
    assert FirstBreak(s) < |s| ==> IsBreak(s[FirstBreak(s)]);
  }

  /** A separator cuts one plain line off; a carriage return would also take a line feed behind it. */
  lemma CutLine(first: string, x: char, rest: string)
    requires Plain(first) && IsBreak(x) && x != '\r'
    ensures SplitLines(first + [x] + rest) == [first] + SplitLines(rest)
  {
    var s := first + [x] + rest;
    FirstBreakAt(s, |first|);
    assert s[..|first|] == first && s[|first| + 1..] == rest;
  }

  lemma {:induction false} PlainLinesSurvive(lines: seq<string>)
    requires forall i :: 0 <= i < |lines| ==> lines[i] != "" && Plain(lines[i])
    ensures SplitLines(JoinLines(lines)) == lines
  {
    if |lines| == 1 {
      FirstBreakAt(lines[0], |lines[0]|);
    } else if lines != [] {
      PlainLinesSurvive(lines[1..]);
      CutLine(lines[0], '\n', JoinLines(lines[1..]));
    }
  }

  /** Joining the lines of a block and splitting them again is harmless exactly when none holds a further separator. */
  lemma ResplitExact(lines: seq<string>)
    requires forall i :: 0 <= i < |lines| ==> lines[i] != ""
    ensures SplitLines(JoinLines(lines)) == lines <==> forall i :: 0 <= i < |lines| ==> Plain(lines[i])
  {
    SplitLinesArePlain(JoinLines(lines));
    if forall i :: 0 <= i < |lines| ==> Plain(lines[i]) {
      PlainLinesSurvive(lines);
    }
  }

  function Client(d: Decoder): Decoder { d.(resplit := true) }

  function Standard(d: Decoder): Decoder { d.(resplit := false) }

  ghost predicate PlainBlocks(d: Decoder, blocks: seq<seq<seq<byte>>>) {
    forall b, i :: 0 <= b < |blocks| && 0 <= i < |blocks[b]| ==>
      match d.utf8(blocks[b][i])
      case None => true
      case Some(t) => t != "" && Plain(t)
  }

  lemma {:induction false} TextsAre(utf8: seq<byte> -> Option<string>, block: seq<seq<byte>>, used: nat)
    requires Texts(utf8, block, used).Ok?
    ensures var lines := Texts(utf8, block, used).value;
      |lines| == |block| && forall i :: 0 <= i < |block| ==> utf8(block[i]) == Some(lines[i])
  {
    if block != [] {
      TextsAre(utf8, block[1..], used + |block[0]| + 1);
    }
  }

  lemma {:induction false} DeliverAgrees(d: Decoder, blocks: seq<seq<seq<byte>>>, o: Outcome)
    requires PlainBlocks(d, blocks)
    ensures Deliver(Client(d), blocks, o) == Deliver(Standard(d), blocks, o)
    decreases |blocks|
  {
    if blocks != [] && o.failure.None? {
      if Texts(d.utf8, blocks[0], 0).Ok? {
        var lines := Texts(d.utf8, blocks[0], 0).value;
        TextsAre(d.utf8, blocks[0], 0);
        forall i | 0 <= i < |lines| ensures lines[i] != "" && Plain(lines[i]) {
          assert d.utf8(blocks[0][i]) == Some(lines[i]);
        }
        PlainLinesSurvive(lines);
      }
      DeliverAgrees(d, blocks[1..], DeliverBlock(Standard(d), blocks[0], o));
    }
  }

  /** The lines of every block, the last one included, decode to text without further separators. */
  ghost predicate PlainStream(d: Decoder, bytes: seq<byte>) {
    forall i :: 0 <= i < |Lines(bytes)| ==> match d.utf8(Lines(bytes)[i]) case None => true case Some(t) => Plain(t)
  }

  lemma BlockLinesAreLines(lines: seq<seq<byte>>, b: nat, i: nat)
    requires b < |Split(lines, [])| && i < |Split(lines, [])[b]|
    ensures Split(lines, [])[b][i] != [] && Split(lines, [])[b][i] in lines
  {
    JoinSplit(lines, []);
    JoinHasParts(Split(lines, []), [], b, i);
  }

  lemma {:induction false} JoinHasParts<T>(parts: seq<seq<T>>, x: T, b: nat, i: nat)
    requires b < |parts| && i < |parts[b]|
    ensures parts[b][i] in Join(parts, x)
  {
    if b > 0 {
      JoinHasParts(parts[1..], x, b - 1, i);
    } else {
      assert parts[0] <= Join(parts, x);
      assert Join(parts, x)[i] == parts[0][i];
    }
  }

  /** For streams free of the extra separators, the client's reading is the standard's. */
  lemma ResplitIsHarmless(d: Decoder, bytes: seq<byte>)
    requires Sound(d.utf8) && PlainStream(d, bytes)
    ensures Meaning(Client(d), bytes) == Meaning(Standard(d), bytes)
  {
    var lines, blocks := Complete(Lines(bytes)), Complete(Blocks(bytes));
    forall b, i | 0 <= b < |blocks| && 0 <= i < |blocks[b]|
      ensures match d.utf8(blocks[b][i]) case None => true case Some(t) => t != "" && Plain(t)
    {
      BlockLinesAreLines(lines, b, i);
      var k :| 0 <= k < |lines| && lines[k] == blocks[b][i];
      assert Lines(bytes)[k] == blocks[b][i];
    }
    DeliverAgrees(d, blocks, Outcome([], false, None));
  }

  lemma DataOfOne(line: string)
    ensures DataValues([line]) == if FieldOf(line).0 == "data" then [FieldOf(line).1] else []
  {
    assert [line][..0] == [];
  }

  lemma OneDataLine(value: string)
    requires value == "" || value[0] != ' '
    ensures DataValues(["data:" + value]) == [value]
  {
    FieldWithColon("data", value);
    assert "data" + [':'] + value == "data:" + value;
    DataOfOne("data:" + value);
  }

  lemma {:induction false} DataValuesConcat(a: seq<string>, b: seq<string>)
    ensures DataValues(a + b) == DataValues(a) + DataValues(b)
    decreases |b|
  {
    if b == [] {
      assert a + b == a;
    } else {
      var n := |b| - 1;
      assert (a + b)[..|a + b| - 1] == a + b[..n];
      DataValuesConcat(a, b[..n]);
    }
  }

  /**
   One further separator inside a data value: the standard keeps the whole value, the client cuts
   it there and reads what follows as lines of its own, whatever that is.
   */
  lemma SeparatorInsideDataIsLost(a: string, x: char, b: string)
    requires Plain(a) && IsBreak(x) && x != '\r' && (a == "" || a[0] != ' ')
    ensures var value := a + [x] + b;
      && DataValues(["data:" + value]) == [value]
      && DataValues(SplitLines(JoinLines(["data:" + value]))) == [a] + DataValues(SplitLines(b))
    ensures Plain(b) && b != "" ==>
              DataValues(SplitLines(b)) == if FieldOf(b).0 == "data" then [FieldOf(b).1] else []
  {
    OneDataLine(a + [x] + b);
    CutDataLine(a, x, b);
    if Plain(b) && b != "" {
      FirstBreakAt(b, |b|);
      DataOfOne(b);
    }
  }

  lemma CutDataLine(a: string, x: char, b: string)
    requires Plain(a) && IsBreak(x) && x != '\r' && (a == "" || a[0] != ' ')
    ensures DataValues(SplitLines("data:" + (a + [x] + b))) == [a] + DataValues(SplitLines(b))
  {
    var first := "data:" + a;
    assert "data:" + (a + [x] + b) == first + [x] + b;
    CutLine(first, x, b);
    OneDataLine(a);
    DataValuesConcat([first], SplitLines(b));
  }

  /** A plain text in front shifts the first separator and changes nothing behind it. */
  lemma FirstBreakBehind(prefix: string, s: string)
    requires Plain(prefix)
    ensures FirstBreak(prefix + s) == |prefix| + FirstBreak(s)
  {
    FirstBreakAt(prefix + s, |prefix| + FirstBreak(s));
  }

  /** Text that is not plain is cut at its first separator, a carriage return and line feed counting as one. */
  lemma CutAtFirstBreak(s: string) returns (rest: seq<string>)
    requires FirstBreak(s) < |s|
    ensures SplitLines(s) == [s[..FirstBreak(s)]] + rest
  {
    var i := FirstBreak(s);
    rest := if s[i] == '\r' && i + 1 < |s| && s[i + 1] == '\n' then SplitLines(s[i + 2..]) else SplitLines(s[i + 1..]);
  }

  lemma SpacedDataLine(value: string)
    ensures DataValues(["data: " + value]) == [value]
  {
    FieldWithColon("data", " " + value);
    assert "data" + [':'] + (" " + value) == "data: " + value;
    DataOfOne("data: " + value);
  }

  lemma PlainDataLine(value: string)
    requires Plain(value)
    ensures SplitLines("data: " + value) == ["data: " + value]
  {
    FirstBreakAt("data: " + value, |"data: " + value|);
  }

  lemma BrokenDataLine(value: string) returns (rest: seq<string>)
    requires !Plain(value)
    ensures FirstBreak(value) < |value|
    ensures SplitLines("data: " + value) == ["data: " + value[..FirstBreak(value)]] + rest
  {
    assert Plain("data: ");
    FirstBreakBehind("data: ", value);
    rest := CutAtFirstBreak("data: " + value);
    assert ("data: " + value)[..6 + FirstBreak(value)] == "data: " + value[..FirstBreak(value)];
  }

  lemma FirstValueIs(value: string, rest: seq<string>)
    ensures DataValues(["data: " + value] + rest) == [value] + DataValues(rest)
  {
    SpacedDataLine(value);
    DataValuesConcat(["data: " + value], rest);
  }

  lemma ShorterFirstDiffers(values: seq<string>, value: string, i: nat, rest: seq<string>)
    requires i < |value| && values == [value[..i]] + rest
    ensures values != [value]
  {
    assert |values[0]| < |value|;
  }

  lemma PlainDataSurvives(value: string)
    requires Plain(value)
    ensures DataValues(SplitLines("data: " + value)) == [value]
  {
    PlainDataLine(value);
    SpacedDataLine(value);
  }

  lemma BrokenDataIsLost(value: string)
    requires !Plain(value)
    ensures DataValues(SplitLines("data: " + value)) != [value]
  {
    var rest := BrokenDataLine(value);
    var values := DataValues(SplitLines("data: " + value));
    FirstValueIs(value[..FirstBreak(value)], rest);
    ShorterFirstDiffers(values, value, FirstBreak(value), DataValues(rest));
  }

  /** The values a re-split data line gives back. */
  function Survivors(value: string): seq<string> { DataValues(SplitLines("data: " + value)) }

  /** A data line read after re-splitting gives its value back exactly when the value is plain. */
  lemma DataSurvivesExactly(value: string)
    ensures Survivors(value) == [value] <==> Plain(value)
  {
    if Plain(value) { PlainDataSurvives(value); } else { BrokenDataIsLost(value); }
  }

  /** A name without colon, a colon and a value make a field of that name and value. */
  lemma FieldWithColon(name: string, value: string)
    requires Free(name, ':')
    ensures FieldOf(name + [':'] + value) == (name, if value != "" && value[0] == ' ' then value[1..] else value)
  {
    SplitConcat(name, value, ':');
    SplitFree(name, ':');
    JoinSplit(value, ':');
    assert Split(name + [':'] + value, ':')[1..] == Split(value, ':');
  }

  // ---------- what an event holds ----------

  predicate NamesItself(name: Option<string>) { name.Some? && name.value != "" }

  /** The two events agree on whether they hold a key, and on its value. */
  predicate Agree(a: Event, b: Event, key: string) { (key in a <==> key in b) && (key in a ==> a[key] == b[key]) }

  /**
   An event is the JSON object of its data, field by field. A name that is not empty becomes its
   event, and its type where the object has none; an id becomes its eventId; nothing else is added.
   */
  lemma EventIsItsData(json: string -> Json, lines: seq<string>)
    requires DataValues(lines) != [] && json(Join(DataValues(lines), '\n')).Object?
    ensures var data := json(Join(DataValues(lines), '\n')).fields;
      var name, id := LastValue(lines, "event"), LastValue(lines, "id");
      && EventOf(json, lines).Ok? && EventOf(json, lines).value.Some?
      && var e := EventOf(json, lines).value.value;
         && (forall key :: key !in {"event", "eventId", "type"} ==> Agree(e, data, key))
         && (if NamesItself(name) then "event" in e && e["event"] == Text(name.value) else Agree(e, data, "event"))
         && (if NamesItself(name) && "type" !in data then "type" in e && e["type"] == Text(name.value)
             else Agree(e, data, "type"))
         && (if id.Some? then "eventId" in e && e["eventId"] == Text(id.value) else Agree(e, data, "eventId"))
  {
  }

  function DataLines(values: seq<string>): seq<string> {
    seq(|values|, i requires 0 <= i < |values| => "data: " + values[i])
  }

  /** Several data lines are one text with line feeds between them. */
  lemma {:induction false} DataLinesAreJoined(json: string -> Json, values: seq<string>)
    ensures DataValues(DataLines(values)) == values
    ensures values != [] && json(Join(values, '\n')).Malformed? ==> EventOf(json, DataLines(values)) == Err(InvalidJson)
    ensures values != [] && json(Join(values, '\n')).Object? ==>
              EventOf(json, DataLines(values)).Ok? && EventOf(json, DataLines(values)).value.Some?
  {
    if values != [] {
      var n := |values| - 1;
      DataLinesAreJoined(json, values[..n]);
      assert DataLines(values)[..n] == DataLines(values[..n]);
      SpacedDataLine(values[n]);
      DataOfOne("data: " + values[n]);
      assert values == values[..n] + [values[n]];
    }
  }

  /** A line without a colon is a field of that name without a value. */
  lemma FieldWithoutColon(line: string)
    requires Free(line, ':')
    ensures FieldOf(line) == (line, "")
  {
    SplitFree(line, ':');
  }

  /** Of several fields of a name the last one counts, an id holding NUL not at all; comments never do. */
  lemma LastFieldCounts(lines: seq<string>, name: string, value: string)
    requires Free(name, ':')
    ensures LastValue(lines + [name + ":" + value], name) ==
              var text := if value != "" && value[0] == ' ' then value[1..] else value;
              if name == "id" && '\U{0000}' in text then LastValue(lines, name) else Some(text)
    ensures forall other :: other != name ==>
              LastValue(lines + [name + ":" + value], other) == LastValue(lines, other)
  {
    var line := name + ":" + value;
    FieldWithColon(name, value);
    assert name + [':'] + value == line;
    assert (lines + [line])[..|lines|] == lines;
  }
}
