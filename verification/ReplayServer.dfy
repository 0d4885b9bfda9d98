/**
 The query server's replay (crates/zk-server/src/api/query_stream.rs): a log of numbered frames,
 sent from a cursor on with comments between them, and broken off with an unnumbered notice when
 the buffer has moved past the reader.
 */
module ReplayServer {
  import opened Wrappers
  import opened Segments
  import opened SseGrammar
  import opened SseFramer
  import opened ServerStream
  import opened StreamClient

  datatype LogFrame = LogFrame(name: string, data: string)

  function FramePiece(d: Decoder, requestId: string, frames: seq<LogFrame>, i: nat): Piece
    requires i < |frames| && d.json(frames[i].data).Object?
  {
    var id := CursorOf(requestId, i + 1);
    Piece(FrameLines(frames[i].name, id, frames[i].data),
          Some(WithMeta(d.json(frames[i].data).fields, Some(frames[i].name), Some(id))))
  }

  ghost predicate Plainly(requestId: string) { Plain(requestId) && '\U{0000}' !in requestId }

  /** Frames of an execution: a start naming the request, results, and completion exactly at the end. */
  ghost predicate Framed(d: Decoder, requestId: string, frames: seq<LogFrame>) {
    && frames != [] && frames[0].name == "query_started"
    && Plainly(requestId)
    && forall i :: 0 <= i < |frames| ==>
         && frames[i].name != "" && Plain(frames[i].name)
         && d.json(frames[i].data).Object?
         && (frames[i].name == "complete" <==> i == |frames| - 1)
         && (frames[i].name == "query_started" ==>
               Lookup(d.json(frames[i].data).fields, "requestId") == Some(Text(requestId)))
  }

  /** The frame is within the client's limit. */
  ghost predicate Within(encode: string -> seq<byte>, requestId: string, frames: seq<LogFrame>, i: nat)
    requires i < |frames|
  {
    Size(Encoded(encode, FrameLines(frames[i].name, CursorOf(requestId, i + 1), frames[i].data))) <= MAX_SSE_EVENT_BYTES
  }

  /** Frames the client can read: an object each, without further separators, within the limit. */
  ghost predicate Legible(d: Decoder, encode: string -> seq<byte>, requestId: string, frames: seq<LogFrame>) {
    && Plainly(requestId)
    && forall i :: 0 <= i < |frames| ==>
         && Plain(frames[i].name) && Plain(frames[i].data) && d.json(frames[i].data).Object?
         && frames[i].name != "" && Within(encode, requestId, frames, i)
  }

  ghost predicate Published(d: Decoder, encode: string -> seq<byte>, requestId: string, frames: seq<LogFrame>) {
    Framed(d, requestId, frames) && Legible(d, encode, requestId, frames)
  }

  function LogEvents(d: Decoder, requestId: string, frames: seq<LogFrame>): seq<Event>
    requires forall i :: 0 <= i < |frames| ==> d.json(frames[i].data).Object?
  {
    seq(|frames|, i requires 0 <= i < |frames| => FramePiece(d, requestId, frames, i).event.value)
  }

  /** A keep-alive, or any other comment. */
  ghost predicate IsComment(encode: string -> seq<byte>, p: Piece) {
    && |p.lines| == 1 && p.lines[0] != "" && p.lines[0][0] == ':' && Plain(p.lines[0]) && p.event.None?
    && Size(Encoded(encode, p.lines)) <= MAX_SSE_EVENT_BYTES
  }

  /** The notice of an expired cursor: an error event without an id. */
  ghost predicate IsExpiry(d: Decoder, encode: string -> seq<byte>, p: Piece, data: string) {
    && Plain(data) && d.json(data).Object? && Lookup(d.json(data).fields, "eventId").None?
    && p.lines == ["event" + ": " + "error", "data" + ": " + data]
    && p.event == Some(WithMeta(d.json(data).fields, Some("error"), None))
    && Size(Encoded(encode, p.lines)) <= MAX_SSE_EVENT_BYTES
  }

  /** One response: the frames from n on with comments anywhere, to the end or up to a notice. */
  ghost predicate Transcript(d: Decoder, encode: string -> seq<byte>, requestId: string, frames: seq<LogFrame>, n: nat,
                             pieces: seq<Piece>, mayExpire: bool)
    requires forall i :: 0 <= i < |frames| ==> d.json(frames[i].data).Object?
    decreases |pieces|
  {
    && n <= |frames|
    && if pieces == [] then n == |frames|
       else
         || (IsComment(encode, pieces[0]) && Transcript(d, encode, requestId, frames, n, pieces[1..], mayExpire))
         || (n < |frames| && pieces[0] == FramePiece(d, requestId, frames, n)
             && Transcript(d, encode, requestId, frames, n + 1, pieces[1..], mayExpire))
         || (mayExpire && n < |frames| && |pieces| == 1 && exists data :: IsExpiry(d, encode, pieces[0], data))
  }

  // ---------- pieces are sendable ----------

  lemma FrameIsSendable(d: Decoder, encode: string -> seq<byte>, requestId: string, frames: seq<LogFrame>, i: nat)
    requires d.resplit && Legible(d, encode, requestId, frames) && i < |frames|
    ensures Sendable(d, encode, FramePiece(d, requestId, frames, i))
  {
    var name, id, data := frames[i].name, CursorOf(requestId, i + 1), frames[i].data;
    CursorIsPlain(requestId, i + 1);
    FrameReadsBack(d, name, id, data);
    FrameLinesArePlain(name, id, data);
  }

  lemma FrameLinesArePlain(name: string, id: string, data: string)
    requires Plain(name) && Plain(id) && Plain(data)
    ensures var lines := FrameLines(name, id, data);
      forall k :: 0 <= k < |lines| ==> lines[k] != "" && Plain(lines[k])
  {
    var lines := FrameLines(name, id, data);
    assert Plain(lines[0]) && Plain(lines[1]) && Plain(lines[2]);
  }

  lemma {:induction false} DigitsArePlain(n: nat)
    ensures Plain(Digits(n)) && '\U{0000}' !in Digits(n)
  {
    DigitsRoundTrip(n);
  }

  lemma CursorIsPlain(requestId: string, n: nat)
    requires Plain(requestId) && '\U{0000}' !in requestId
    ensures Plain(CursorOf(requestId, n)) && '\U{0000}' !in CursorOf(requestId, n)
  {
    DigitsArePlain(n);
  }

  lemma CommentIsSendable(d: Decoder, encode: string -> seq<byte>, p: Piece)
    requires IsComment(encode, p)
    ensures Sendable(d, encode, p)
  {
    PlainLinesSurvive(p.lines);
    CommentIsNoField(p.lines[0]);
    assert p.lines[..0] == [];
    assert DataValues(p.lines) == [];
  }

  lemma ExpiryIsSendable(d: Decoder, encode: string -> seq<byte>, p: Piece, data: string)
    requires IsExpiry(d, encode, p, data)
    ensures Sendable(d, encode, p)
    ensures Notice(p.event.value)
  {
    var lines := p.lines;
    FieldWithSpace("event", "error");
    FieldWithSpace("data", data);
    assert Plain(lines[0]) && Plain(lines[1]);
    PlainLinesSurvive(lines);
    ExpiryFields(lines, data);
    assert Join([data], '\n') == data;
  }

  lemma ExpiryFields(lines: seq<string>, data: string)
    requires |lines| == 2 && FieldOf(lines[0]) == ("event", "error") && FieldOf(lines[1]) == ("data", data)
    ensures DataValues(lines) == [data] && LastValue(lines, "event") == Some("error") && LastValue(lines, "id") == None
  {
    var one := [lines[0]];
    assert lines == one + [lines[1]];
    DataOfOne(lines[0]);
    DataOfOne(lines[1]);
    DataValuesConcat(one, [lines[1]]);
    assert lines[..1] == one && one[..0] == [];
    assert LastValue(one, "id") == None && LastValue(one, "event") == Some("error");
  }

  // ---------- what a transcript carries ----------

  lemma {:induction false} TranscriptContinues(d: Decoder, encode: string -> seq<byte>, requestId: string,
                                               frames: seq<LogFrame>, n: nat, pieces: seq<Piece>, mayExpire: bool)
    requires d.resplit && Legible(d, encode, requestId, frames)
    requires Transcript(d, encode, requestId, frames, n, pieces, mayExpire)
    ensures AllSendable(d, encode, pieces)
    ensures Continues(LogEvents(d, requestId, frames), n, EventsOf(pieces), mayExpire)
    decreases |pieces|
  {
    var log := LogEvents(d, requestId, frames);
    if pieces == [] {
      assert log[n..] == [];
    } else {
      var p, rest := pieces[0], pieces[1..];
      assert pieces == [p] + rest;
      EventsOfCons(p, rest);
      if IsComment(encode, p) && Transcript(d, encode, requestId, frames, n, rest, mayExpire) {
        CommentIsSendable(d, encode, p);
        TranscriptContinues(d, encode, requestId, frames, n, rest, mayExpire);
        assert EventsOf(pieces) == EventsOf(rest);
      } else if n < |frames| && p == FramePiece(d, requestId, frames, n)
                && Transcript(d, encode, requestId, frames, n + 1, rest, mayExpire) {
        FrameIsSendable(d, encode, requestId, frames, n);
        TranscriptContinues(d, encode, requestId, frames, n + 1, rest, mayExpire);
        assert p.event == Some(log[n]);
        ContinuesBackwards(log, n, EventsOf(rest), mayExpire);
      } else {
        var data :| IsExpiry(d, encode, p, data);
        ExpiryIsSendable(d, encode, p, data);
        assert rest == [] && EventsOf(pieces) == [p.event.value];
        NoticeContinues(log, n, p.event.value);
      }
    }
  }

  lemma NoticeContinues(log: seq<Event>, n: nat, x: Event)
    requires n < |log| && Notice(x)
    ensures Continues(log, n, [x], true)
  {
    assert [x] == log[n..n] + [x];
  }

  lemma ContinuesBackwards(log: seq<Event>, n: nat, events: seq<Event>, mayExpire: bool)
    requires n < |log| && Continues(log, n + 1, events, mayExpire)
    ensures Continues(log, n, [log[n]] + events, mayExpire)
  {
    if events == log[n + 1..] {
      assert [log[n]] + events == log[n..];
    } else {
      var m, x :| n + 1 <= m < |log| && Notice(x) && events == log[n + 1..m] + [x];
      assert [log[n]] + events == log[n..m] + [x];
    }
  }

  lemma ContinuesEndsTerminal(requestId: string, log: seq<Event>, n: nat, events: seq<Event>, mayExpire: bool)
    requires LogOf(requestId, log) && Continues(log, n, events, mayExpire)
    ensures TerminalAtEnd(events)
  {
    if events == log[n..] {
      forall i | 0 <= i < |events| - 1 ensures !IsTerminal(events[i]) { assert events[i] == log[n + i]; }
    } else {
      var m, x :| n <= m < |log| && Notice(x) && events == log[n..m] + [x];
      forall i | 0 <= i < |events| - 1 ensures !IsTerminal(events[i]) { assert events[i] == log[n + i]; }
    }
  }

  /** The published frames are a log of the request. */
  lemma PublishedIsLog(d: Decoder, requestId: string, frames: seq<LogFrame>)
    requires Framed(d, requestId, frames)
    ensures LogOf(requestId, LogEvents(d, requestId, frames))
  {
    var log := LogEvents(d, requestId, frames);
    forall i | 0 <= i < |log|
      ensures Lookup(log[i], "event") == Some(Text(frames[i].name))
      ensures Lookup(log[i], "eventId") == Some(Text(CursorOf(requestId, i + 1)))
      ensures Lookup(log[i], "requestId") == Lookup(d.json(frames[i].data).fields, "requestId")
      ensures IsTerminal(log[i]) <==> frames[i].name == "complete"
    {
    }
  }

  // ---------- the server ----------

  /** A POST is answered from the start, a resume from its cursor, each with whatever transcript comes about. */
  function Serve(encode: string -> seq<byte>, requestId: string, replay: nat -> seq<Piece>): Request -> seq<byte> {
    (request: Request) =>
      match request
      case Post => StreamBytes(encode, replay(0))
      case Get(id, cursor) =>
        if id == requestId && ResumeAfter(requestId, cursor).Some?
        then StreamBytes(encode, replay(ResumeAfter(requestId, cursor).value)) else []
  }

  ghost predicate Replays(d: Decoder, encode: string -> seq<byte>, requestId: string, frames: seq<LogFrame>,
                          replay: nat -> seq<Piece>, mayExpire: bool)
    requires forall i :: 0 <= i < |frames| ==> d.json(frames[i].data).Object?
  {
    forall n: nat :: n <= |frames| ==> Transcript(d, encode, requestId, frames, n, replay(n), mayExpire)
  }

  lemma TranscriptAnswers(d: Decoder, encode: string -> seq<byte>, requestId: string, frames: seq<LogFrame>, n: nat,
                          pieces: seq<Piece>, mayExpire: bool)
    requires d.resplit && Sound(d.utf8) && Encodes(d, encode) && Published(d, encode, requestId, frames)
    requires Transcript(d, encode, requestId, frames, n, pieces, mayExpire)
    ensures Answers(d, LogEvents(d, requestId, frames), n, StreamBytes(encode, pieces), mayExpire)
  {
    var log := LogEvents(d, requestId, frames);
    PublishedIsLog(d, requestId, frames);
    TranscriptContinues(d, encode, requestId, frames, n, pieces, mayExpire);
    ContinuesEndsTerminal(requestId, log, n, EventsOf(pieces), mayExpire);
    StreamCarries(d, encode, pieces);
  }

  /** The modelled server is the honest server that delivery is stated against. */
  lemma ReplayIsHonest(d: Decoder, encode: string -> seq<byte>, requestId: string, frames: seq<LogFrame>,
                       replay: nat -> seq<Piece>, mayExpire: bool)
    requires d.resplit && Sound(d.utf8) && Encodes(d, encode) && Published(d, encode, requestId, frames)
    requires Replays(d, encode, requestId, frames, replay, mayExpire)
    ensures LogOf(requestId, LogEvents(d, requestId, frames))
    ensures Honest(d, requestId, LogEvents(d, requestId, frames), Serve(encode, requestId, replay), mayExpire)
  {
    var log, serve := LogEvents(d, requestId, frames), Serve(encode, requestId, replay);
    PublishedIsLog(d, requestId, frames);
    TranscriptAnswers(d, encode, requestId, frames, 0, replay(0), mayExpire);
    forall cursor | ResumeAfter(requestId, cursor).Some? && ResumeAfter(requestId, cursor).value <= |log|
      ensures Answers(d, log, ResumeAfter(requestId, cursor).value, serve(Get(requestId, cursor)), mayExpire)
    {
      var n := ResumeAfter(requestId, cursor).value;
      TranscriptAnswers(d, encode, requestId, frames, n, replay(n), mayExpire);
    }
  }

  /** Exactly-once delivery from the server's frames to the client's events. */
  lemma DeliveredFromReplay(d: Decoder, encode: string -> seq<byte>, body: Option<string>, requestId: string,
                            frames: seq<LogFrame>, replay: nat -> seq<Piece>, fates: nat -> Fate, mayExpire: bool)
    requires d.resplit && Sound(d.utf8) && Encodes(d, encode) && Published(d, encode, requestId, frames)
    requires Replays(d, encode, requestId, frames, replay, mayExpire)
    requires requestId != "" && (body.None? || body == Some(requestId))
    ensures var log := LogEvents(d, requestId, frames);
      var (last, ending) := Session(d, NewClient(body), Serve(encode, requestId, replay), fates);
      && Numbered(last.yielded) <= log && OnePost(last.requests) && FewNotices(last, mayExpire)
      && (!mayExpire ==> last.yielded <= log)
      && (ending == Completed ==> Numbered(last.yielded) == log)
      && (ending == Completed && !mayExpire ==> last.yielded == log)
      && (ending.Failed? ==> Outside(ending.error))
  {
    ReplayIsHonest(d, encode, requestId, frames, replay, mayExpire);
    DeliveredExactlyOnce(d, body, requestId, LogEvents(d, requestId, frames), Serve(encode, requestId, replay), fates,
      mayExpire);
  }

  lemma LogEventsCarry(d: Decoder, requestId: string, frames: seq<LogFrame>, k: nat)
    requires Framed(d, requestId, frames) && k < |frames|
    ensures Carrying(LogEvents(d, requestId, frames)[k], d.json(frames[k].data).fields, frames[k].name,
                     CursorOf(requestId, k + 1))
  {
    var e, fields := LogEvents(d, requestId, frames)[k], d.json(frames[k].data).fields;
    assert e.Keys == fields.Keys + {"event", "eventId", "type"};
  }

  /** What the client yields as its k-th numbered event is the k-th frame's data object, field by field. */
  lemma DeliveredPayload(d: Decoder, encode: string -> seq<byte>, body: Option<string>, requestId: string,
                         frames: seq<LogFrame>, replay: nat -> seq<Piece>, fates: nat -> Fate, mayExpire: bool, k: nat)
    requires d.resplit && Sound(d.utf8) && Encodes(d, encode) && Published(d, encode, requestId, frames)
    requires Replays(d, encode, requestId, frames, replay, mayExpire)
    requires requestId != "" && (body.None? || body == Some(requestId))
    requires k < |Numbered(Session(d, NewClient(body), Serve(encode, requestId, replay), fates).0.yielded)|
    ensures k < |frames|
    ensures Carrying(Numbered(Session(d, NewClient(body), Serve(encode, requestId, replay), fates).0.yielded)[k],
                     d.json(frames[k].data).fields, frames[k].name, CursorOf(requestId, k + 1))
  {
    DeliveredFromReplay(d, encode, body, requestId, frames, replay, fates, mayExpire);
    LogEventsCarry(d, requestId, frames, k);
  }
}
