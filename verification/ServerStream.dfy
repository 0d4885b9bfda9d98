/**
 What the query server sends (crates/zk-server/src/api/query_stream.rs): frames of an event, an
 id and one data line, with comments between them, and what any cut of them decodes to.
 */
module ServerStream {
  import opened Wrappers
  import opened Segments
  import opened SseGrammar
  import opened SseFramer

  /** The stream holds these events, whole, without a failure and with nothing left over. */
  ghost predicate Carries(d: Decoder, bytes: seq<byte>, events: seq<Event>) {
    var f := Feed(d, Fresh(START), bytes);
    f.failure.None? && f.yielded == events && f.line == [] && f.lines == []
  }

  /** Whatever arrives of such a stream yields a prefix of its events and no failure. */
  lemma CutYieldsPrefix(d: Decoder, bytes: seq<byte>, events: seq<Event>, cut: nat)
    requires Sound(d.utf8) && Carries(d, bytes, events) && cut <= |bytes|
    ensures var f := Feed(d, Fresh(START), bytes[..cut]);
      f.failure.None? && f.yielded <= events
  {
    var f := Feed(d, Fresh(START), bytes[..cut]);
    assert bytes == bytes[..cut] + bytes[cut..];
    FeedConcat(d, Fresh(START), bytes[..cut], bytes[cut..]);
    FeedKeeps(d, Fresh(START), bytes[..cut]);
    FeedKeeps(d, f, bytes[cut..]);
    if f.failure.Some? { FailureStays(d, f, bytes[cut..]); }
  }

  // ---------- frames ----------

  predicate OneLine(s: string) { Free(s, '\n') && Free(s, '\r') }

  /** UTF-8 encoding, inverse to the decoder; only line terminators encode to line terminators. */
  ghost predicate Encodes(d: Decoder, encode: string -> seq<byte>) {
    forall t :: d.utf8(encode(t)) == Some(t) && (OneLine(t) ==> Free(encode(t), LF) && Free(encode(t), CR))
  }

  function Encoded(encode: string -> seq<byte>, lines: seq<string>): seq<seq<byte>> {
    if lines == [] then [] else [encode(lines[0])] + Encoded(encode, lines[1..])
  }

  /** Every line with its terminator, and an empty line. */
  function BlockBytes(block: seq<seq<byte>>): seq<byte> {
    if block == [] then [LF] else block[0] + ([LF] + BlockBytes(block[1..]))
  }

  /** A block the server may send: a frame or a comment. */
  datatype Piece = Piece(lines: seq<string>, event: Option<Event>)

  ghost predicate Sendable(d: Decoder, encode: string -> seq<byte>, p: Piece) {
    && (forall i :: 0 <= i < |p.lines| ==> p.lines[i] != "" && Plain(p.lines[i]))
    && Size(Encoded(encode, p.lines)) <= MAX_SSE_EVENT_BYTES
    && Read(d, p.lines) == Ok(p.event)
  }

  ghost predicate AllSendable(d: Decoder, encode: string -> seq<byte>, pieces: seq<Piece>) {
    pieces != [] ==> Sendable(d, encode, pieces[0]) && AllSendable(d, encode, pieces[1..])
  }

  function StreamBytes(encode: string -> seq<byte>, pieces: seq<Piece>): seq<byte> {
    if pieces == [] then [] else BlockBytes(Encoded(encode, pieces[0].lines)) + StreamBytes(encode, pieces[1..])
  }

  function EventsOf(pieces: seq<Piece>): seq<Event> {
    if pieces == [] then []
    else if pieces[0].event.None? then EventsOf(pieces[1..])
    else [pieces[0].event.value] + EventsOf(pieces[1..])
  }

  lemma {:induction false} FeedWithoutCr(d: Decoder, f: Framer, bytes: seq<byte>)
    requires Free(bytes, CR) && !f.previousCr
    ensures Feed(d, f, bytes) == FeedLf(d, f, bytes)
    decreases |bytes|
  {
    if f.failure.Some? {
      FailureStays(d, f, bytes);
    } else if bytes != [] {
      FeedWithoutCr(d, Step(d, f, bytes[0]), bytes[1..]);
    }
  }

  lemma {:induction false} BlockIsFolded(d: Decoder, f: Framer, block: seq<seq<byte>>)
    requires forall i :: 0 <= i < |block| ==> Free(block[i], LF)
    ensures FeedLf(d, f, BlockBytes(block)) == FoldLines(d, f, block + [[]])
    decreases |block|
  {
    if block == [] {
      assert f.line + [] == f.line;
      assert FeedLf(d, f, [LF]) == EndLine(d, f);
      assert block + [[]] == [[]];
      assert FoldLines(d, f, [[]]) == EndLine(d, ReadLine(f, []));
    } else {
      FeedLfConcat(d, f, block[0], [LF] + BlockBytes(block[1..]));
      FeedIsReadLine(d, f, block[0]);
      FeedLfCons(d, ReadLine(f, block[0]), LF, BlockBytes(block[1..]));
      BlockIsFolded(d, EndLine(d, ReadLine(f, block[0])), block[1..]);
      assert (block + [[]])[1..] == block[1..] + [[]];
    }
  }

  lemma {:induction false} EncodedTexts(d: Decoder, encode: string -> seq<byte>, lines: seq<string>, used: nat)
    requires Encodes(d, encode) && used + Size(Encoded(encode, lines)) <= MAX_SSE_EVENT_BYTES
    ensures Texts(d.utf8, Encoded(encode, lines), used) == Ok(lines)
  {
    if lines != [] {
      var block := Encoded(encode, lines);
      assert block[0] == encode(lines[0]) && block[1..] == Encoded(encode, lines[1..]);
      EncodedTexts(d, encode, lines[1..], used + |block[0]| + 1);
      assert lines == [lines[0]] + lines[1..];
    }
  }

  lemma {:induction false} EncodedLines(d: Decoder, encode: string -> seq<byte>, lines: seq<string>)
    requires Sound(d.utf8) && Encodes(d, encode)
    requires forall i :: 0 <= i < |lines| ==> lines[i] != "" && OneLine(lines[i])
    ensures var block := Encoded(encode, lines);
      && (forall i :: 0 <= i < |block| ==> block[i] != [] && Free(block[i], LF))
      && Free(BlockBytes(block), CR)
  {
    if lines != [] {
      EncodedLines(d, encode, lines[1..]);
      var first := encode(lines[0]);
      assert d.utf8(first) == Some(lines[0]);
    }
  }

  /** One block decodes to its event, from any point where no block is open. */
  lemma PieceDelivers(d: Decoder, encode: string -> seq<byte>, p: Piece, o: Outcome)
    requires Sound(d.utf8) && Encodes(d, encode) && Sendable(d, encode, p)
    requires o.failure.None? && (p.event.Some? ==> !o.terminal)
    ensures Feed(d, Fresh(o), BlockBytes(Encoded(encode, p.lines))) ==
            Fresh(AfterPiece(o, p))
  {
    var block := Encoded(encode, p.lines);
    EncodedLines(d, encode, p.lines);
    EncodedTexts(d, encode, p.lines, 0);
    FeedWithoutCr(d, Fresh(o), BlockBytes(block));
    BlockIsFolded(d, Fresh(o), block);
    FoldBlock(d, o, block);
  }

  function AfterPiece(o: Outcome, p: Piece): Outcome {
    if p.event.None? then o else Outcome(o.events + [p.event.value], IsTerminal(p.event.value), None)
  }

  lemma PieceThen(d: Decoder, encode: string -> seq<byte>, p: Piece, o: Outcome, more: seq<byte>)
    requires Sound(d.utf8) && Encodes(d, encode) && Sendable(d, encode, p)
    requires o.failure.None? && (p.event.Some? ==> !o.terminal)
    ensures Feed(d, Fresh(o), BlockBytes(Encoded(encode, p.lines)) + more) == Feed(d, Fresh(AfterPiece(o, p)), more)
  {
    PieceDelivers(d, encode, p, o);
    FeedConcat(d, Fresh(o), BlockBytes(Encoded(encode, p.lines)), more);
  }

  function AfterPieces(o: Outcome, pieces: seq<Piece>): Outcome
    decreases |pieces|
  {
    if pieces == [] then o else AfterPieces(AfterPiece(o, pieces[0]), pieces[1..])
  }

  lemma EventsOfCons(p: Piece, rest: seq<Piece>)
    ensures EventsOf([p] + rest) == (if p.event.None? then [] else [p.event.value]) + EventsOf(rest)
  {
    assert ([p] + rest)[1..] == rest;
  }

  lemma AfterPieceThen(o: Outcome, p: Piece, rest: seq<Piece>)
    ensures AfterPiece(o, p).events + EventsOf(rest) == o.events + EventsOf([p] + rest)
  {
    EventsOfCons(p, rest);
  }

  ghost predicate NoneTerminal(events: seq<Event>) { forall i :: 0 <= i < |events| ==> !IsTerminal(events[i]) }

  lemma NoneTerminalTail(p: Piece, rest: seq<Piece>)
    requires NoneTerminal(EventsOf([p] + rest))
    ensures NoneTerminal(EventsOf(rest)) && (p.event.Some? ==> !IsTerminal(p.event.value))
  {
    var events := EventsOf([p] + rest);
    EventsOfCons(p, rest);
    if p.event.Some? {
      assert events[0] == p.event.value;
      assert forall i :: 0 <= i < |EventsOf(rest)| ==> EventsOf(rest)[i] == events[i + 1];
    }
  }

  lemma {:induction false} AfterPiecesIs(o: Outcome, pieces: seq<Piece>)
    requires o.failure.None? && !o.terminal && NoneTerminal(EventsOf(pieces))
    ensures AfterPieces(o, pieces) == Outcome(o.events + EventsOf(pieces), false, None)
    decreases |pieces|
  {
    if pieces == [] {
      assert o.events + [] == o.events;
    } else {
      var p, rest := pieces[0], pieces[1..];
      assert pieces == [p] + rest;
      NoneTerminalTail(p, rest);
      AfterPiecesIs(AfterPiece(o, p), rest);
      AfterPieceThen(o, p, rest);
    }
  }

  lemma FirstPieceThen(d: Decoder, encode: string -> seq<byte>, p: Piece, rest: seq<Piece>, o: Outcome,
                       more: seq<byte>)
    requires Sound(d.utf8) && Encodes(d, encode) && Sendable(d, encode, p) && o.failure.None? && !o.terminal
    ensures Feed(d, Fresh(o), StreamBytes(encode, [p] + rest) + more) ==
            Feed(d, Fresh(AfterPiece(o, p)), StreamBytes(encode, rest) + more)
  {
    PieceThen(d, encode, p, o, StreamBytes(encode, rest) + more);
    assert ([p] + rest)[1..] == rest;
    assert StreamBytes(encode, [p] + rest) + more ==
      BlockBytes(Encoded(encode, p.lines)) + (StreamBytes(encode, rest) + more);
  }

  /** Whatever follows such blocks is decoded from where they leave off. */
  lemma {:induction false} PiecesThen(d: Decoder, encode: string -> seq<byte>, pieces: seq<Piece>, o: Outcome,
                                      more: seq<byte>)
    requires Sound(d.utf8) && Encodes(d, encode) && AllSendable(d, encode, pieces)
    requires o.failure.None? && !o.terminal && NoneTerminal(EventsOf(pieces))
    ensures Feed(d, Fresh(o), StreamBytes(encode, pieces) + more) == Feed(d, Fresh(AfterPieces(o, pieces)), more)
    decreases |pieces|
  {
    if pieces == [] {
      assert [] + more == more;
    } else {
      var p, rest := pieces[0], pieces[1..];
      assert pieces == [p] + rest;
      NoneTerminalTail(p, rest);
      FirstPieceThen(d, encode, p, rest, o, more);
      PiecesThen(d, encode, rest, AfterPiece(o, p), more);
    }
  }

  /** A block that cannot be read stops the stream there, and nothing behind it is looked at. */
  lemma UnreadableBlockStops(d: Decoder, encode: string -> seq<byte>, lines: seq<string>, o: Outcome, e: StreamError,
                             more: seq<byte>)
    requires Sound(d.utf8) && Encodes(d, encode) && o.failure.None?
    requires forall i :: 0 <= i < |lines| ==> lines[i] != "" && OneLine(lines[i])
    requires Size(Encoded(encode, lines)) <= MAX_SSE_EVENT_BYTES && Read(d, lines) == Err(e)
    ensures Feed(d, Fresh(o), BlockBytes(Encoded(encode, lines)) + more) == Fresh(o.(failure := Some(e)))
  {
    var block := Encoded(encode, lines);
    EncodedLines(d, encode, lines);
    EncodedTexts(d, encode, lines, 0);
    FeedWithoutCr(d, Fresh(o), BlockBytes(block));
    BlockIsFolded(d, Fresh(o), block);
    FoldBlock(d, o, block);
    FeedConcat(d, Fresh(o), BlockBytes(block), more);
    FailureStays(d, Fresh(o.(failure := Some(e))), more);
  }

  /** Nothing comes after the terminal event. */
  ghost predicate TerminalAtEnd(events: seq<Event>) {
    forall i :: 0 <= i < |events| - 1 ==> !IsTerminal(events[i])
  }

  lemma TerminalAtEndTail(e: Event, rest: seq<Event>)
    requires TerminalAtEnd([e] + rest)
    ensures TerminalAtEnd(rest) && (IsTerminal(e) ==> rest == [])
  {
    var events := [e] + rest;
    assert forall i :: 0 <= i < |rest| ==> rest[i] == events[i + 1];
    if rest != [] { assert !IsTerminal(events[0]); }
  }

  lemma TerminalPieceIsLast(p: Piece, rest: seq<Piece>)
    requires TerminalAtEnd(EventsOf([p] + rest))
    ensures TerminalAtEnd(EventsOf(rest))
    ensures p.event.Some? ==> EventsOf([p] + rest) != [] && (IsTerminal(p.event.value) ==> EventsOf(rest) == [])
    ensures p.event.None? ==> EventsOf([p] + rest) == EventsOf(rest)
  {
    EventsOfCons(p, rest);
    if p.event.Some? { TerminalAtEndTail(p.event.value, EventsOf(rest)); }
  }

  /** A stream of such blocks, terminal at most in its last event, carries exactly their events. */
  lemma {:induction false} PiecesCarry(d: Decoder, encode: string -> seq<byte>, pieces: seq<Piece>, o: Outcome)
    requires Sound(d.utf8) && Encodes(d, encode) && AllSendable(d, encode, pieces)
    requires o.failure.None? && (o.terminal ==> EventsOf(pieces) == []) && TerminalAtEnd(EventsOf(pieces))
    ensures var f := Feed(d, Fresh(o), StreamBytes(encode, pieces));
      f.failure.None? && f.yielded == o.events + EventsOf(pieces) && f.line == [] && f.lines == []
    decreases |pieces|
  {
    if pieces == [] {
      assert o.events + [] == o.events;
    } else {
      var p, rest := pieces[0], pieces[1..];
      assert pieces == [p] + rest;
      TerminalPieceIsLast(p, rest);
      AfterPieceThen(o, p, rest);
      PieceThen(d, encode, p, o, StreamBytes(encode, rest));
      PiecesCarry(d, encode, rest, AfterPiece(o, p));
    }
  }

  lemma StreamCarries(d: Decoder, encode: string -> seq<byte>, pieces: seq<Piece>)
    requires Sound(d.utf8) && Encodes(d, encode) && AllSendable(d, encode, pieces)
    requires TerminalAtEnd(EventsOf(pieces))
    ensures Carries(d, StreamBytes(encode, pieces), EventsOf(pieces))
  {
    PiecesCarry(d, encode, pieces, START);
    assert START.events + EventsOf(pieces) == EventsOf(pieces);
  }

  /** The lines of one frame, in the order the server writes them. */
  function FrameLines(name: string, id: string, data: string): seq<string> {
    ["event" + ": " + name, "id" + ": " + id, "data" + ": " + data]
  }

  lemma FieldWithSpace(name: string, value: string)
    requires Free(name, ':')
    ensures FieldOf(name + ": " + value) == (name, value)
  {
    FieldWithColon(name, " " + value);
    assert name + [':'] + (" " + value) == name + ": " + value;
  }

  /** A frame read back is its data object, named and numbered by the frame. */
  lemma FrameReadsBack(d: Decoder, name: string, id: string, data: string)
    requires d.json(data).Object? && '\U{0000}' !in id
    requires Plain(name) && Plain(id) && Plain(data)
    ensures Read(d, FrameLines(name, id, data)) == Ok(Some(WithMeta(d.json(data).fields, Some(name), Some(id))))
  {
    FrameLinesSurvive(name, id, data);
    FrameHasFields(name, id, data);
    assert Join([data], '\n') == data;
  }

  /**
   A frame reads back as its data object with every field, its name as event, its id as eventId, its
   name as type where the object has none, and no other field.
   */
  lemma FrameCarriesItsData(d: Decoder, name: string, id: string, data: string)
    requires d.json(data).Object? && '\U{0000}' !in id && name != ""
    requires Plain(name) && Plain(id) && Plain(data)
    ensures Read(d, FrameLines(name, id, data)).Ok? && Read(d, FrameLines(name, id, data)).value.Some?
    ensures Carrying(Read(d, FrameLines(name, id, data)).value.value, d.json(data).fields, name, id)
  {
    FrameReadsBack(d, name, id, data);
  }

  predicate Carrying(e: Event, fields: Event, name: string, id: string) {
    && e.Keys == fields.Keys + {"event", "eventId", "type"}
    && e["event"] == Text(name) && e["eventId"] == Text(id)
    && e["type"] == (if "type" in fields then fields["type"] else Text(name))
    && forall key :: key in fields && key !in {"event", "eventId"} ==> e[key] == fields[key]
  }

  lemma FrameHasFields(name: string, id: string, data: string)
    requires '\U{0000}' !in id
    ensures var lines := FrameLines(name, id, data);
      DataValues(lines) == [data] && LastValue(lines, "event") == Some(name) && LastValue(lines, "id") == Some(id)
  {
    FieldWithSpace("event", name);
    FieldWithSpace("id", id);
    FieldWithSpace("data", data);
    FrameFields(FrameLines(name, id, data), name, id, data);
  }

  lemma FrameLinesSurvive(name: string, id: string, data: string)
    requires Plain(name) && Plain(id) && Plain(data)
    ensures SplitLines(JoinLines(FrameLines(name, id, data))) == FrameLines(name, id, data)
  {
    var lines := FrameLines(name, id, data);
    assert Plain(lines[0]) && Plain(lines[1]) && Plain(lines[2]);
    PlainLinesSurvive(lines);
  }

  lemma FieldLineIsPlain(field: string, value: string)
    requires Plain(field) && Plain(value)
    ensures Plain(field + ": " + value)
  {
  }

  lemma FrameSplits(name: string, id: string, data: string)
    requires Plain(name) && Plain(id)
    ensures var lines := FrameLines(name, id, data);
      SplitLines(JoinLines(lines)) == [lines[0]] + ([lines[1]] + SplitLines("data: " + data))
  {
    FieldLineIsPlain("event", name);
    FieldLineIsPlain("id", id);
    ThreeLines("event" + ": " + name, "id" + ": " + id, "data" + ": " + data);
    assert "data" + ": " + data == "data: " + data;
  }

  lemma FrameSurvivors(name: string, id: string, data: string)
    requires Plain(name) && Plain(id)
    ensures DataValues(SplitLines(JoinLines(FrameLines(name, id, data)))) == Survivors(data)
  {
    var lines := FrameLines(name, id, data);
    FrameSplits(name, id, data);
    FieldWithSpace("event", name);
    FieldWithSpace("id", id);
    NoDataInFront(lines[0], lines[1], SplitLines("data: " + data));
  }

  /** A frame's data reaches the client unchanged exactly when it holds none of the further separators. */
  lemma FrameDataSurvivesExactly(name: string, id: string, data: string)
    requires Plain(name) && Plain(id)
    ensures DataValues(SplitLines(JoinLines(FrameLines(name, id, data)))) == [data] <==> Plain(data)
  {
    FrameSurvivors(name, id, data);
    DataSurvivesExactly(data);
  }

  /** What stops a client that read this instead of an object. */
  function ReadError(json: Json): StreamError { if json.Malformed? then InvalidJson else DataNotAnObject }

  /** What the client is left with of a value it cut does not parse as an object. */
  predicate Unreadable(d: Decoder, data: string) {
    OneLine(data) && !Plain(data) && !d.json(JoinLines(Survivors(data))).Object?
  }

  lemma FrameLinesAreOneLine(name: string, id: string, data: string)
    requires Plain(name) && Plain(id) && OneLine(data)
    ensures var lines := FrameLines(name, id, data);
      forall k :: 0 <= k < |lines| ==> lines[k] != "" && OneLine(lines[k])
  {
    var lines := FrameLines(name, id, data);
    assert OneLine(name) && OneLine(id);
    assert OneLine(lines[0]) && OneLine(lines[1]) && OneLine(lines[2]);
  }

  lemma UnreadableFrame(d: Decoder, name: string, id: string, data: string)
    requires d.resplit && Plain(name) && Plain(id) && Unreadable(d, data)
    ensures Read(d, FrameLines(name, id, data)) == Err(ReadError(d.json(JoinLines(Survivors(data)))))
  {
    FrameSurvivors(name, id, data);
    var rest := BrokenDataLine(data);
    FirstValueIs(data[..FirstBreak(data)], rest);
  }

  lemma NoDataInFront(a: string, b: string, rest: seq<string>)
    requires FieldOf(a).0 != "data" && FieldOf(b).0 != "data"
    ensures DataValues([a] + ([b] + rest)) == DataValues(rest)
  {
    DataOfOne(a);
    DataOfOne(b);
    DataValuesConcat([a], [b] + rest);
    DataValuesConcat([b], rest);
  }

  /** Plain lines in front of a last one are split off it. */
  lemma ThreeLines(a: string, b: string, last: string)
    requires Plain(a) && Plain(b)
    ensures SplitLines(JoinLines([a, b, last])) == [a] + ([b] + SplitLines(last))
  {
    var tail: seq<string> := [b, last];
    assert [a, b, last][1..] == tail && tail[1..] == [last];
    assert Join(tail, '\n') == b + ['\n'] + last;
    assert JoinLines([a, b, last]) == a + ['\n'] + Join(tail, '\n');
    CutLine(a, '\n', Join(tail, '\n'));
    CutLine(b, '\n', last);
  }

  lemma FrameFields(lines: seq<string>, name: string, id: string, data: string)
    requires |lines| == 3 && '\U{0000}' !in id
    requires FieldOf(lines[0]) == ("event", name)
    requires FieldOf(lines[1]) == ("id", id)
    requires FieldOf(lines[2]) == ("data", data)
    ensures DataValues(lines) == [data] && LastValue(lines, "event") == Some(name) && LastValue(lines, "id") == Some(id)
  {
    var two, one := lines[..2], lines[..1];
    assert lines[..2] == two && two[..1] == one && one[..0] == [];
    assert two[1] == lines[1] && one[0] == lines[0];
    assert DataValues(one) == [];
    assert DataValues(two) == [];
    assert LastValue(two, "id") == Some(id);
    assert LastValue(one, "event") == Some(name);
  }
}
