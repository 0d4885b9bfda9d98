/** The incremental stream decoder (python-service/cli/client.py, _decode_sse and _parse_sse_event). */
module SseFramer {
  import opened Wrappers
  import opened Segments
  import opened SseGrammar

  /** The decoder's variables; a failure ends it and drops what it had buffered. */
  datatype Framer = Framer(
    line: seq<byte>, lines: seq<string>, frameSize: nat, terminal: bool, previousCr: bool,
    yielded: seq<Event>, failure: Option<StreamError>)

  function Fresh(o: Outcome): Framer { Framer([], [], 0, o.terminal, false, o.events, o.failure) }

  const START := Outcome([], false, None)

  function Fail(f: Framer, e: StreamError): Framer { Fresh(Outcome(f.yielded, f.terminal, Some(e))) }

  /** An empty line hands the block over. */
  function EndBlock(d: Decoder, f: Framer): Framer {
    match Read(d, f.lines)
    case Err(e) => Fail(f, e)
    case Ok(None) => f.(lines := [], frameSize := 0)
    case Ok(Some(e)) =>
      if f.terminal then Fail(f, AfterTerminal)
      else f.(lines := [], frameSize := 0, terminal := IsTerminal(e), yielded := f.yielded + [e])
  }

  function EndLine(d: Decoder, f: Framer): Framer {
    if f.failure.Some? then f
    else
      match d.utf8(f.line)
      case None => Fail(f, InvalidUtf8)
      case Some(t) =>
        if t != "" then f.(line := [], lines := f.lines + [t], frameSize := f.frameSize + |f.line| + 1)
        else EndBlock(d, f.(line := [], frameSize := f.frameSize + |f.line| + 1))
  }

  function Take(f: Framer, b: byte): Framer {
    if f.failure.Some? then f
    else if f.frameSize + |f.line| + 1 > MAX_SSE_EVENT_BYTES then Fail(f, TooLarge)
    else f.(line := f.line + [b])
  }

  function Step(d: Decoder, f: Framer, b: byte): Framer {
    if f.failure.Some? then f
    else if f.previousCr && b == LF then f.(previousCr := false)
    else
      var g := f.(previousCr := b == CR);
      if b != LF && b != CR then Take(g, b) else EndLine(d, g)
  }

  function Feed(d: Decoder, f: Framer, bytes: seq<byte>): Framer
    decreases |bytes|
  {
    if bytes == [] then f else Feed(d, Step(d, f, bytes[0]), bytes[1..])
  }

  /** How the decoder ends when the chunks run out. */
  function End(f: Framer): Outcome {
    Outcome(f.yielded, f.terminal,
            if f.failure.Some? then f.failure
            else if f.line != [] || f.lines != [] || !f.terminal then Some(Interrupted)
            else None)
  }

  // ---------- LF alone ----------

  function StepLf(d: Decoder, f: Framer, b: byte): Framer { if b == LF then EndLine(d, f) else Take(f, b) }

  function FeedLf(d: Decoder, f: Framer, bytes: seq<byte>): Framer
    decreases |bytes|
  {
    if bytes == [] then f else FeedLf(d, StepLf(d, f, bytes[0]), bytes[1..])
  }

  function Strip(f: Framer): Framer { f.(previousCr := false) }

  lemma {:induction false} FailureStays(d: Decoder, f: Framer, bytes: seq<byte>)
    requires f.failure.Some?
    ensures Feed(d, f, bytes) == f && FeedLf(d, f, bytes) == f
    decreases |bytes|
  {
    if bytes != [] { FailureStays(d, f, bytes[1..]); }
  }

  lemma FeedLfCons(d: Decoder, f: Framer, b: byte, rest: seq<byte>)
    ensures FeedLf(d, f, [b] + rest) == FeedLf(d, StepLf(d, f, b), rest)
  {
    assert ([b] + rest)[1..] == rest;
  }

  /** Unless it is the line feed of a pair already ended, a byte does what its terminator or itself does. */
  lemma StepIsStepLf(d: Decoder, f: Framer, b: byte)
    requires f.failure.None? && !(f.previousCr && b == LF)
    ensures Strip(Step(d, f, b)) == StepLf(d, Strip(f), if b == CR then LF else b)
    ensures Step(d, f, b).failure.None? ==> Step(d, f, b).previousCr == (b == CR)
  {
  }

  /** What is left to read once a line feed that only completes a pair is skipped. */
  function Unread(f: Framer, bytes: seq<byte>): seq<byte> {
    if f.previousCr && bytes != [] && bytes[0] == LF then bytes[1..] else bytes
  }

  lemma NormCons(b: byte, rest: seq<byte>)
    ensures b == CR ==> Norm([b] + rest) == [LF] + Norm(if rest != [] && rest[0] == LF then rest[1..] else rest)
    ensures b != CR ==> Norm([b] + rest) == [b] + Norm(rest)
  {
    assert ([b] + rest)[1..] == rest;
    if rest != [] { assert ([b] + rest)[2..] == rest[1..]; }
  }

  /** Remembering the carriage return is the same as reading the stream with one terminator. */
  lemma {:induction false} FeedIsFeedLf(d: Decoder, f: Framer, bytes: seq<byte>)
    ensures Strip(Feed(d, f, bytes)) == FeedLf(d, Strip(f), Norm(Unread(f, bytes)))
    decreases |bytes|
  {
    if f.failure.Some? {
      FailureStays(d, f, bytes);
      FailureStays(d, Strip(f), Norm(Unread(f, bytes)));
    } else if bytes != [] {
      var b, rest := bytes[0], bytes[1..];
      var g := Step(d, f, b);
      assert bytes == [b] + rest;
      FeedIsFeedLf(d, g, rest);
      if !(f.previousCr && b == LF) {
        StepIsStepLf(d, f, b);
        NormCons(b, rest);
        var left := if b == CR && rest != [] && rest[0] == LF then rest[1..] else rest;
        FeedLfCons(d, Strip(f), if b == CR then LF else b, Norm(left));
        if g.failure.Some? {
          FailureStays(d, g, rest);
          FailureStays(d, Strip(g), Norm(left));
        }
      }
    }
  }

  // ---------- whole lines ----------

  /** Reading a stretch without terminators. */
  function ReadLine(f: Framer, l: seq<byte>): Framer {
    if f.failure.Some? then f
    else if l != [] && f.frameSize + |f.line| + |l| > MAX_SSE_EVENT_BYTES then Fail(f, TooLarge)
    else f.(line := f.line + l)
  }

  lemma {:induction false} FeedIsReadLine(d: Decoder, f: Framer, l: seq<byte>)
    requires Free(l, LF)
    ensures FeedLf(d, f, l) == ReadLine(f, l)
    decreases |l|
  {
    if f.failure.Some? {
      FailureStays(d, f, l);
    } else if l == [] {
      assert f.line + l == f.line;
    } else {
      FeedIsReadLine(d, Take(f, l[0]), l[1..]);
      assert (f.line + [l[0]]) + l[1..] == f.line + l;
    }
  }

  lemma {:induction false} FeedLfConcat(d: Decoder, f: Framer, a: seq<byte>, b: seq<byte>)
    ensures FeedLf(d, f, a + b) == FeedLf(d, FeedLf(d, f, a), b)
    decreases |a|
  {
    if a == [] {
      assert a + b == b;
    } else {
      assert (a + b)[1..] == a[1..] + b;
      FeedLfConcat(d, StepLf(d, f, a[0]), a[1..], b);
    }
  }

  function FoldLines(d: Decoder, f: Framer, lines: seq<seq<byte>>): Framer
    decreases |lines|
  {
    if lines == [] then f else FoldLines(d, EndLine(d, ReadLine(f, lines[0])), lines[1..])
  }

  lemma {:induction false} FeedIsFoldLines(d: Decoder, f: Framer, segments: seq<seq<byte>>)
    requires |segments| > 0 && forall i :: 0 <= i < |segments| ==> Free(segments[i], LF)
    ensures FeedLf(d, f, Join(segments, LF)) == ReadLine(FoldLines(d, f, Complete(segments)), Rest(segments))
    decreases |segments|
  {
    FeedIsReadLine(d, f, segments[0]);
    if |segments| > 1 {
      var rest := Join(segments[1..], LF);
      assert Join(segments, LF) == segments[0] + ([LF] + rest);
      FeedLfConcat(d, f, segments[0], [LF] + rest);
      FeedLfCons(d, ReadLine(f, segments[0]), LF, rest);
      FeedIsFoldLines(d, EndLine(d, ReadLine(f, segments[0])), segments[1..]);
      assert Complete(segments)[1..] == Complete(segments[1..]);
    }
  }

  // ---------- whole blocks ----------

  lemma {:induction false} FoldConcat(d: Decoder, f: Framer, a: seq<seq<byte>>, b: seq<seq<byte>>)
    ensures FoldLines(d, f, a + b) == FoldLines(d, FoldLines(d, f, a), b)
    decreases |a|
  {
    if a == [] {
      assert a + b == b;
    } else {
      assert (a + b)[1..] == a[1..] + b;
      FoldConcat(d, EndLine(d, ReadLine(f, a[0])), a[1..], b);
    }
  }

  lemma {:induction false} FoldFailed(d: Decoder, f: Framer, lines: seq<seq<byte>>)
    requires f.failure.Some?
    ensures FoldLines(d, f, lines) == f
    decreases |lines|
  {
    if lines != [] { FoldFailed(d, f, lines[1..]); }
  }

  lemma GatherOne(d: Decoder, f: Framer, l: seq<byte>)
    requires Sound(d.utf8) && f.line == [] && f.failure.None? && l != []
    ensures EndLine(d, ReadLine(f, l)) ==
            if f.frameSize + |l| > MAX_SSE_EVENT_BYTES then Fail(f, TooLarge)
            else match d.utf8(l)
              case None => Fail(f, InvalidUtf8)
              case Some(t) => f.(lines := f.lines + [t], frameSize := f.frameSize + |l| + 1)
  {
    assert f.line + l == l;
  }

  /** The lines of one block are gathered, or the first bad one stops everything. */
  function Gathered(d: Decoder, f: Framer, block: seq<seq<byte>>): Framer {
    match Texts(d.utf8, block, f.frameSize)
    case Err(e) => Fail(f, e)
    case Ok(lines) => f.(lines := f.lines + lines, frameSize := f.frameSize + Size(block))
  }

  predicate Gathers(f: Framer, block: seq<seq<byte>>) {
    f.line == [] && f.failure.None? && forall i :: 0 <= i < |block| ==> block[i] != []
  }

  lemma BadLineStops(d: Decoder, f: Framer, block: seq<seq<byte>>)
    requires Sound(d.utf8) && Gathers(f, block) && block != []
    ensures var next := EndLine(d, ReadLine(f, block[0]));
      next.failure.Some? ==> Gathered(d, f, block) == next
  {
    GatherOne(d, f, block[0]);
  }

  lemma GoodLineIsKept(d: Decoder, f: Framer, block: seq<seq<byte>>)
    requires Sound(d.utf8) && Gathers(f, block) && block != []
    ensures var next := EndLine(d, ReadLine(f, block[0]));
      next.failure.None? ==> Gathers(next, block[1..]) && Gathered(d, f, block) == Gathered(d, next, block[1..])
  {
    var l := block[0];
    GatherOne(d, f, l);
    var next := EndLine(d, ReadLine(f, l));
    if next.failure.None? {
      var t, rest := d.utf8(l).value, Texts(d.utf8, block[1..], next.frameSize);
      if rest.Ok? { assert next.lines + rest.value == f.lines + ([t] + rest.value); }
    }
  }

  lemma {:induction false} FoldGathers(d: Decoder, f: Framer, block: seq<seq<byte>>)
    requires Sound(d.utf8) && Gathers(f, block)
    ensures FoldLines(d, f, block) == Gathered(d, f, block)
    decreases |block|
  {
    if block == [] {
      assert f.lines + [] == f.lines;
    } else {
      var next := EndLine(d, ReadLine(f, block[0]));
      BadLineStops(d, f, block);
      GoodLineIsKept(d, f, block);
      if next.failure.Some? { FoldFailed(d, next, block[1..]); } else { FoldGathers(d, next, block[1..]); }
    }
  }

  lemma FoldBlock(d: Decoder, o: Outcome, block: seq<seq<byte>>)
    requires Sound(d.utf8) && o.failure.None? && forall i :: 0 <= i < |block| ==> block[i] != []
    ensures FoldLines(d, Fresh(o), block + [[]]) == Fresh(DeliverBlock(d, block, o))
  {
    FoldConcat(d, Fresh(o), block, [[]]);
    FoldGathers(d, Fresh(o), block);
    var f := FoldLines(d, Fresh(o), block);
    if Texts(d.utf8, block, 0).Ok? {
      assert f.lines == Texts(d.utf8, block, 0).value;
    }
    assert FoldLines(d, f, [[]]) == EndLine(d, ReadLine(f, []));
  }

  lemma {:induction false} FoldBlocks(d: Decoder, o: Outcome, groups: seq<seq<seq<byte>>>)
    requires Sound(d.utf8) && |groups| > 0
    requires forall b, i :: 0 <= b < |groups| && 0 <= i < |groups[b]| ==> groups[b][i] != []
    ensures FoldLines(d, Fresh(o), Join(groups, [])) ==
            FoldLines(d, Fresh(Deliver(d, Complete(groups), o)), Rest(groups))
    decreases |groups|
  {
    if o.failure.Some? {
      FoldFailed(d, Fresh(o), Join(groups, []));
      FoldFailed(d, Fresh(o), Rest(groups));
    } else if |groups| > 1 {
      var rest := Join(groups[1..], []);
      assert Join(groups, []) == (groups[0] + [[]]) + rest;
      FoldConcat(d, Fresh(o), groups[0] + [[]], rest);
      FoldBlock(d, o, groups[0]);
      FoldBlocks(d, DeliverBlock(d, groups[0], o), groups[1..]);
      assert Complete(groups)[1..] == Complete(groups[1..]);
    }
  }

  // ---------- the refinement ----------

  lemma FoldIsMeaning(d: Decoder, bytes: seq<byte>)
    requires Sound(d.utf8)
    ensures End(ReadLine(FoldLines(d, Fresh(START), Complete(Lines(bytes))), Rest(Lines(bytes)))) ==
            Meaning(d, bytes)
  {
    var lines, groups := Complete(Lines(bytes)), Blocks(bytes);
    JoinSplit(lines, []);
    FoldBlocks(d, START, groups);
    var o := Deliver(d, Complete(groups), START);
    if o.failure.Some? {
      FoldFailed(d, Fresh(o), Rest(groups));
    } else {
      assert Free(Rest(groups), []);
      FoldGathers(d, Fresh(o), Rest(groups));
      if Texts(d.utf8, Rest(groups), 0).Ok? { TextsAre(d.utf8, Rest(groups), 0); }
    }
  }

  /** Fed byte by byte, the decoder ends as the grammar says the whole stream does, failures included. */
  lemma FramerRefinesGrammar(d: Decoder, bytes: seq<byte>)
    requires Sound(d.utf8)
    ensures End(Feed(d, Fresh(START), bytes)) == Meaning(d, bytes)
  {
    FeedIsFeedLf(d, Fresh(START), bytes);
    JoinSplit(Norm(bytes), LF);
    FeedIsFoldLines(d, Fresh(START), Lines(bytes));
    FoldIsMeaning(d, bytes);
    assert End(Strip(Feed(d, Fresh(START), bytes))) == End(Feed(d, Fresh(START), bytes));
  }

  /** For streams without further separators the decoder is the standard's reader. */
  lemma FramerRefinesStandard(d: Decoder, bytes: seq<byte>)
    requires Sound(d.utf8) && PlainStream(d, bytes)
    ensures End(Feed(Client(d), Fresh(START), bytes)) == Meaning(Standard(d), bytes)
  {
    FramerRefinesGrammar(Client(d), bytes);
    ResplitIsHarmless(d, bytes);
  }

  // ---------- bounds and the terminal event ----------

  /** What is held: undecoded bytes, and the decoded lines without their terminators. */
  predicate Bounded(f: Framer) {
    && |f.lines| <= f.frameSize
    && f.frameSize - |f.lines| + |f.line| <= MAX_SSE_EVENT_BYTES
    && (f.line != [] ==> f.frameSize + |f.line| <= MAX_SSE_EVENT_BYTES)
    && f.frameSize <= MAX_SSE_EVENT_BYTES + |f.lines|
  }

  predicate TerminalLast(f: Framer) {
    && (forall i :: 0 <= i < |f.yielded| - 1 ==> !IsTerminal(f.yielded[i]))
    && (f.terminal <==> f.yielded != [] && IsTerminal(f.yielded[|f.yielded| - 1]))
  }

  lemma SameYieldKeeps(f: Framer, g: Framer)
    requires TerminalLast(f) && g.yielded == f.yielded && g.terminal == f.terminal
    ensures TerminalLast(g) && f.yielded <= g.yielded
  {
  }

  lemma EndBlockKeeps(d: Decoder, f: Framer)
    requires f.failure.None? && f.line == [] && TerminalLast(f)
    ensures TerminalLast(EndBlock(d, f)) && f.yielded <= EndBlock(d, f).yielded
    ensures Bounded(EndBlock(d, f)) || EndBlock(d, f).lines == f.lines
  {
  }

  lemma EndLineKeeps(d: Decoder, f: Framer)
    requires Sound(d.utf8) && Bounded(f) && TerminalLast(f)
    ensures Bounded(EndLine(d, f)) && TerminalLast(EndLine(d, f)) && f.yielded <= EndLine(d, f).yielded
  {
    if f.failure.None? && d.utf8(f.line).Some? {
      if d.utf8(f.line).value == "" {
        assert f.line == [];
        var g := f.(line := [], frameSize := f.frameSize + 1);
        SameYieldKeeps(f, g);
        EndBlockKeeps(d, g);
      } else {
        SameYieldKeeps(f, EndLine(d, f));
      }
    } else {
      SameYieldKeeps(f, EndLine(d, f));
    }
  }

  lemma StepKeeps(d: Decoder, f: Framer, b: byte)
    requires Sound(d.utf8) && Bounded(f) && TerminalLast(f)
    ensures Bounded(Step(d, f, b)) && TerminalLast(Step(d, f, b)) && f.yielded <= Step(d, f, b).yielded
  {
    if f.failure.None? && !(f.previousCr && b == LF) && (b == LF || b == CR) {
      EndLineKeeps(d, f.(previousCr := b == CR));
    }
  }

  /** At every byte of every stream: the buffer is bounded, and nothing follows a terminal event. */
  lemma {:induction false} FeedKeeps(d: Decoder, f: Framer, bytes: seq<byte>)
    requires Sound(d.utf8) && Bounded(f) && TerminalLast(f)
    ensures Bounded(Feed(d, f, bytes)) && TerminalLast(Feed(d, f, bytes)) && f.yielded <= Feed(d, f, bytes).yielded
    decreases |bytes|
  {
    if bytes != [] {
      StepKeeps(d, f, bytes[0]);
      FeedKeeps(d, Step(d, f, bytes[0]), bytes[1..]);
    }
  }

  /** A clean end means exactly one terminal event, yielded last. */
  lemma CleanEndIsTerminal(d: Decoder, bytes: seq<byte>)
    requires Sound(d.utf8) && End(Feed(d, Fresh(START), bytes)).failure.None?
    ensures var events := End(Feed(d, Fresh(START), bytes)).events;
      && events != [] && IsTerminal(events[|events| - 1])
      && forall i :: 0 <= i < |events| - 1 ==> !IsTerminal(events[i])
  {
    FeedKeeps(d, Fresh(START), bytes);
  }

  // ---------- the code ----------

  function Flatten(chunks: seq<seq<byte>>): seq<byte> {
    if chunks == [] then [] else chunks[0] + Flatten(chunks[1..])
  }

  lemma {:induction false} FeedConcat(d: Decoder, f: Framer, a: seq<byte>, b: seq<byte>)
    ensures Feed(d, f, a + b) == Feed(d, Feed(d, f, a), b)
    decreases |a|
  {
    if a == [] {
      assert a + b == b;
    } else {
      assert (a + b)[1..] == a[1..] + b;
      FeedConcat(d, Step(d, f, a[0]), a[1..], b);
    }
  }

  method ParseSseEvent(json: string -> Json, text: string) returns (r: Result<Option<Event>, StreamError>)
    ensures r == EventOf(json, SplitLines(text))
  {
    var lines := SplitLines(text);
    var dataLines: seq<string> := [];
    var eventName: Option<string>, eventId: Option<string> := None, None;
    for i := 0 to |lines|
      invariant dataLines == DataValues(lines[..i])
      invariant eventName == LastValue(lines[..i], "event") && eventId == LastValue(lines[..i], "id")
    {
      assert lines[..i + 1][..i] == lines[..i] && lines[..i + 1][i] == lines[i];
      if lines[i] != "" && lines[i][0] == ':' {
        CommentIsNoField(lines[i]);
        continue;
      }
      var (field, value) := FieldOf(lines[i]);
      if field == "data" {
        dataLines := dataLines + [value];
      } else if field == "event" {
        eventName := Some(value);
      } else if field == "id" && '\U{0000}' !in value {
        eventId := Some(value);
      }
    }
    assert lines[..|lines|] == lines;
    if dataLines == [] { return Ok(None); }
    match json(Join(dataLines, '\n'))
    case Malformed => return Err(InvalidJson);
    case NotAnObject => return Err(DataNotAnObject);
    case Object(fields) =>
      var data := fields;
      if eventName.Some? && eventName.value != "" {
        if "type" !in data { data := data["type" := Text(eventName.value)]; }
        data := data["event" := Text(eventName.value)];
      }
      if eventId.Some? { data := data["eventId" := Text(eventId.value)]; }
      return Ok(Some(data));
  }

  /** The lines of a block joined and handed to the parser. */
  method ReadBlock(d: Decoder, lines: seq<string>) returns (r: Result<Option<Event>, StreamError>)
    requires d.resplit
    ensures r == Read(d, lines)
  {
    r := ParseSseEvent(d.json, JoinLines(lines));
  }

  lemma FeedCons(d: Decoder, f: Framer, b: byte, rest: seq<byte>)
    ensures Feed(d, f, [b] + rest) == Feed(d, Step(d, f, b), rest)
    ensures Step(d, f, b).failure.Some? ==> Feed(d, f, [b] + rest) == Step(d, f, b)
  {
    assert ([b] + rest)[1..] == rest;
    if Step(d, f, b).failure.Some? { FailureStays(d, Step(d, f, b), rest); }
  }

  lemma CommentIsNoField(line: string)
    requires line != "" && line[0] == ':'
    ensures FieldOf(line).0 == ""
  {
    assert Split(line, ':')[0] == "";
  }

  /** The suspended generator: its variables live on between chunks. */
  class SseDecoder {
    const decoder: Decoder
    var line: seq<byte>
    var lines: seq<string>
    var frameSize: nat
    var terminal: bool
    var previousCr: bool
    var yielded: seq<Event>
    var failure: Option<StreamError>

    ghost function State(): Framer
      reads this
    {
      Framer(line, lines, frameSize, terminal, previousCr, yielded, failure)
    }

    constructor (decoder: Decoder)
      ensures this.decoder == decoder && State() == Fresh(START)
    {
      this.decoder := decoder;
      line, lines, frameSize := [], [], 0;
      terminal, previousCr, yielded, failure := false, false, [], None;
    }

    /** An exception ends the generator. */
    method Raise(e: StreamError)
      modifies this
      ensures State() == Fail(old(State()), e)
    {
      line, lines, frameSize, previousCr, failure := [], [], 0, false, Some(e);
    }

    /** What follows an empty line. */
    method FinishBlock()
      requires failure.None? && decoder.resplit
      modifies this
      ensures State() == EndBlock(decoder, old(State()))
    {
      var parsed := ReadBlock(decoder, lines);
      if parsed.Err? {
        Raise(parsed.error);
      } else if parsed.value.Some? && terminal {
        Raise(AfterTerminal);
      } else {
        lines, frameSize := [], 0;
        if parsed.value.Some? {
          terminal := IsTerminal(parsed.value.value);
          yielded := yielded + [parsed.value.value];
        }
      }
    }

    /** What follows a line terminator. */
    method FinishLine()
      requires failure.None? && decoder.resplit
      modifies this
      ensures State() == EndLine(decoder, old(State()))
    {
      ghost var d, f := decoder, State();
      var decoded := decoder.utf8(line);
      assert decoded == d.utf8(f.line);
      if decoded.None? {
        Raise(InvalidUtf8);
        assert State() == EndLine(d, f);
        return;
      }
      frameSize := frameSize + |line| + 1;
      line := [];
      if decoded.value != "" {
        lines := lines + [decoded.value];
        assert State() == EndLine(d, f);
        return;
      }
      assert EndLine(d, f) == EndBlock(d, State());
      FinishBlock();
    }

    method Push(b: byte)
      requires failure.None? && decoder.resplit
      modifies this
      ensures State() == Step(decoder, old(State()), b)
    {
      if previousCr && b == LF {
        previousCr := false;
        return;
      }
      previousCr := b == CR;
      if b == LF || b == CR {
        FinishLine();
      } else if frameSize + |line| + 1 > MAX_SSE_EVENT_BYTES {
        Raise(TooLarge);
      } else {
        line := line + [b];
      }
    }

    /** One chunk, byte by byte, until a failure. */
    method PushChunk(chunk: seq<byte>)
      requires decoder.resplit
      modifies this
      ensures State() == Feed(decoder, old(State()), chunk)
    {
      ghost var d := decoder;
      ghost var goal := Feed(d, State(), chunk);
      var j := 0;
      assert chunk[0..] == chunk;
      while j < |chunk| && failure.None?
        invariant 0 <= j <= |chunk|
        invariant Feed(d, State(), chunk[j..]) == goal
      {
        ghost var rest := chunk[j + 1..];
        assert chunk[j..] == [chunk[j]] + rest;
        FeedCons(d, State(), chunk[j], rest);
        Push(chunk[j]);
        assert Feed(d, State(), rest) == goal;
        j := j + 1;
      }
      if failure.Some? {
        FailureStays(d, State(), chunk[j..]);
      } else {
        assert chunk[j..] == [];
      }
    }

    method Finish() returns (o: Outcome)
      modifies this
      ensures o == End(old(State()))
    {
      if failure.None? && (line != [] || lines != [] || !terminal) { Raise(Interrupted); }
      return Outcome(yielded, terminal, failure);
    }
  }

  /** However the stream is cut into chunks, the outcome is the meaning of the whole. */
  method DecodeSse(d: Decoder, chunks: seq<seq<byte>>) returns (o: Outcome)
    requires Sound(d.utf8) && d.resplit
    ensures o == Meaning(d, Flatten(chunks))
  {
    var generator := new SseDecoder(d);
    for i := 0 to |chunks|
      invariant fresh(generator) && generator.decoder == d
      invariant generator.State() == FeedChunks(d, Fresh(START), chunks[..i])
    {
      assert chunks[..i + 1] == chunks[..i] + [chunks[i]];
      FeedChunksSnoc(d, Fresh(START), chunks[..i], chunks[i]);
      generator.PushChunk(chunks[i]);
    }
    assert chunks[..|chunks|] == chunks;
    FeedChunksIsFeed(d, Fresh(START), chunks);
    FramerRefinesGrammar(d, Flatten(chunks));
    o := generator.Finish();
  }

  lemma {:induction false} FeedChunksSnoc(d: Decoder, f: Framer, chunks: seq<seq<byte>>, last: seq<byte>)
    ensures FeedChunks(d, f, chunks + [last]) == Feed(d, FeedChunks(d, f, chunks), last)
    decreases |chunks|
  {
    if chunks == [] {
      assert chunks + [last] == [last];
    } else {
      assert (chunks + [last])[1..] == chunks[1..] + [last];
      FeedChunksSnoc(d, Feed(d, f, chunks[0]), chunks[1..], last);
    }
  }

  /** Cutting the same bytes into other chunks changes nothing. */
  lemma ChunkingIsIrrelevant(d: Decoder, f: Framer, chunks: seq<seq<byte>>, others: seq<seq<byte>>)
    requires Flatten(chunks) == Flatten(others)
    ensures FeedChunks(d, f, chunks) == FeedChunks(d, f, others)
  {
    FeedChunksIsFeed(d, f, chunks);
    FeedChunksIsFeed(d, f, others);
  }

  function FeedChunks(d: Decoder, f: Framer, chunks: seq<seq<byte>>): Framer
    decreases |chunks|
  {
    if chunks == [] then f else FeedChunks(d, Feed(d, f, chunks[0]), chunks[1..])
  }

  lemma {:induction false} FeedChunksIsFeed(d: Decoder, f: Framer, chunks: seq<seq<byte>>)
    ensures FeedChunks(d, f, chunks) == Feed(d, f, Flatten(chunks))
    decreases |chunks|
  {
    if chunks != [] {
      FeedChunksIsFeed(d, Feed(d, f, chunks[0]), chunks[1..]);
      FeedConcat(d, f, chunks[0], Flatten(chunks[1..]));
    }
  }
}
