/**
 What becomes of a session when the client cannot read one of the server's frames: serde leaves
 U+0085, U+2028 and U+2029 in the data, the client (python-service/cli/client.py) cuts the value
 there, and what is left of it is no JSON object.
 */
module BrokenStream {
  import opened Wrappers
  import opened Segments
  import opened SseGrammar
  import opened SseFramer
  import opened ServerStream
  import opened StreamClient
  import opened ReplayServer

  // ---------- a stream that breaks ----------

  /** The stream decodes to these events and then fails. */
  ghost predicate Breaks(d: Decoder, bytes: seq<byte>, events: seq<Event>, e: StreamError) {
    var f := Feed(d, Fresh(START), bytes);
    f.failure == Some(e) && f.yielded == events
  }

  /** Short of the break a cut yields a prefix and no failure, and from the break on the whole of it. */
  lemma CutBeforeBreak(d: Decoder, bytes: seq<byte>, events: seq<Event>, e: StreamError, cut: nat)
    requires Sound(d.utf8) && Breaks(d, bytes, events, e) && cut <= |bytes|
    ensures var f := Feed(d, Fresh(START), bytes[..cut]);
      f.yielded <= events && (f.failure.Some? ==> f.failure == Some(e) && f.yielded == events)
  {
    var f := Feed(d, Fresh(START), bytes[..cut]);
    assert bytes == bytes[..cut] + bytes[cut..];
    FeedConcat(d, Fresh(START), bytes[..cut], bytes[cut..]);
    FeedKeeps(d, Fresh(START), bytes[..cut]);
    FeedKeeps(d, f, bytes[cut..]);
    if f.failure.Some? { FailureStays(d, f, bytes[cut..]); }
  }

  /** The log from n up to its m-th event and the break there, or, where cursors may expire, something shorter. */
  ghost predicate AnswersUpTo(d: Decoder, log: seq<Event>, n: nat, m: nat, bytes: seq<byte>, e: StreamError,
                              mayExpire: bool) {
    && n <= m <= |log|
    && (|| Breaks(d, bytes, log[n..m], e)
        || (mayExpire && exists events, k: nat, notice ::
              Carries(d, bytes, events) && Brings(log, n, events, k, notice, true) && k <= m))
  }

  ghost predicate HonestUpTo(d: Decoder, requestId: string, log: seq<Event>, m: nat, serve: Request -> seq<byte>,
                             e: StreamError, mayExpire: bool) {
    && AnswersUpTo(d, log, 0, m, serve(Post), e, mayExpire)
    && forall cursor :: match ResumeAfter(requestId, cursor)
         case None => true
         case Some(n) => n <= m ==> AnswersUpTo(d, log, n, m, serve(Get(requestId, cursor)), e, mayExpire)
  }

  lemma PrefixOfStretch(log: seq<Event>, n: nat, whole: seq<Event>, k: nat, notice: Option<Event>, events: seq<Event>,
                        mayExpire: bool) returns (j: nat, y: Option<Event>)
    requires Brings(log, n, whole, k, notice, mayExpire) && events <= whole
    ensures Brings(log, n, events, j, y, mayExpire) && j <= k
  {
    if |events| <= k - n {
      j, y := n + |events|, None;
      assert log[n..j] + [] == events;
    } else {
      j, y := k, notice;
      assert events == whole;
    }
  }

  /** What any cut of such an answer decodes to: short of the break, or the break itself. */
  lemma CutFollowsUpTo(d: Decoder, requestId: string, log: seq<Event>, n: nat, m: nat, response: seq<byte>, fate: Fate,
                       e: StreamError, mayExpire: bool) returns (k: nat, notice: Option<Event>)
    requires Sound(d.utf8) && LogOf(requestId, log) && m < |log|
    requires AnswersUpTo(d, log, n, m, response, e, mayExpire)
    ensures var f := Feed(d, Fresh(START), Received(response, fate));
      && Brings(log, n, f.yielded, k, notice, mayExpire) && k <= m
      && (f.failure.None? ==> End(f).failure == Some(Interrupted))
      && (f.failure.Some? ==> f.failure == Some(e) && k == m && notice.None?)
  {
    var cut := if fate.cut <= |response| then fate.cut else |response|;
    assert Received(response, fate) == response[..cut];
    FeedKeeps(d, Fresh(START), response[..cut]);
    var f := Feed(d, Fresh(START), response[..cut]);
    if Breaks(d, response, log[n..m], e) {
      CutBeforeBreak(d, response, log[n..m], e, cut);
      assert log[n..m] + [] == log[n..m];
      k, notice := PrefixOfStretch(log, n, log[n..m], m, None, f.yielded, mayExpire);
    } else {
      var whole, last: nat, x :| Carries(d, response, whole) && Brings(log, n, whole, last, x, true) && last <= m;
      CutYieldsPrefix(d, response, whole, cut);
      k, notice := PrefixOfStretch(log, n, whole, last, x, f.yielded, mayExpire);
    }
    if f.terminal { TerminalEndsTheLog(requestId, log, n, f.yielded, k, notice, mayExpire); }
  }

  /** One exchange keeps the client in step, short of the break or up to it. */
  lemma ExchangeUpTo(d: Decoder, c: Client, body: Option<string>, requestId: string, log: seq<Event>, n: nat, m: nat,
                     response: seq<byte>, fate: Fate, e: StreamError, mayExpire: bool) returns (k: nat)
    requires Sound(d.utf8) && LogOf(requestId, log) && InStep(c, body, requestId, log, n) && m < |log|
    requires body.None? || body == Some(requestId)
    requires AnswersUpTo(d, log, n, m, response, e, mayExpire)
    ensures var (next, verdict) := AfterResponse(d, c, response, fate);
      && n <= k <= m && InStep(next, body, requestId, log, k) && c.yielded <= next.yielded
      && next.retries == c.retries && next.requests == c.requests
      && Notices(next) <= Notices(c) + (if mayExpire then 1 else 0)
      && (verdict.Raised? <==> Feed(d, Fresh(START), Received(response, fate)).failure.Some?)
      && (verdict in {Retryable(TransportLost), Retryable(Protocol(Interrupted))}
          || (verdict == Raised(Protocol(e)) && k == m))
      && (!mayExpire ==> Feed(d, Fresh(START), Received(response, fate)).yielded == log[n..k])
  {
    var f := Feed(d, Fresh(START), Received(response, fate));
    var notice;
    k, notice := CutFollowsUpTo(d, requestId, log, n, m, response, fate, e, mayExpire);
    BroughtIsAccepted(c, body, requestId, log, n, f.yielded, k, notice, mayExpire);
    AcceptAllKeepsRetries(c, f.yielded);
  }

  // ---------- the session ----------

  /** How a session may end that cannot get past the m-th event. */
  ghost predicate EndsUpTo(last: Client, ending: Ending, log: seq<Event>, m: nat, e: StreamError, mayExpire: bool)
    requires m <= |log|
  {
    && Numbered(last.yielded) <= log[..m] && OnePost(last.requests) && FewNotices(last, mayExpire)
    && ending.Failed?
    && (Outside(ending.error) || (ending.error == Protocol(e) && Numbered(last.yielded) == log[..m]))
  }

  ghost predicate StandingUpTo(c: Client, body: Option<string>, requestId: string, log: seq<Event>, m: nat,
                               mayExpire: bool) {
    Standing(c, body, requestId, log, mayExpire) && |Numbered(c.yielded)| <= m
  }

  ghost function StandsUpTo(body: Option<string>, requestId: string, log: seq<Event>, m: nat, mayExpire: bool):
    Client -> bool
  {
    (c: Client) => StandingUpTo(c, body, requestId, log, m, mayExpire)
  }

  ghost function EndingUpTo(log: seq<Event>, m: nat, e: StreamError, mayExpire: bool): (Client, Ending) -> bool
    requires m <= |log|
  {
    (last: Client, ending: Ending) => EndsUpTo(last, ending, log, m, e, mayExpire)
  }

  /** Short of the break only an outside failure is an end; at the break its own error is one too. */
  lemma InStepEnds(next: Client, body: Option<string>, requestId: string, log: seq<Event>, k: nat, m: nat,
                   e: StreamError, mayExpire: bool)
    requires InStep(next, body, requestId, log, k) && k <= m <= |log|
    requires OnePost(next.requests) && FewNotices(next, mayExpire)
    ensures forall x :: Outside(x) ==> EndsUpTo(next, Failed(x), log, m, e, mayExpire)
    ensures k == m ==> EndsUpTo(next, Failed(Protocol(e)), log, m, e, mayExpire)
  {
    assert log[..k] == log[..m][..k];
  }

  /** The request of a turn is answered up to the break. */
  lemma RequestIsAnsweredUpTo(d: Decoder, c: Client, body: Option<string>, requestId: string, log: seq<Event>, m: nat,
                              serve: Request -> seq<byte>, e: StreamError, mayExpire: bool)
    requires HonestUpTo(d, requestId, log, m, serve, e, mayExpire) && requestId != ""
    requires (body.None? || body == Some(requestId)) && StandingUpTo(c, body, requestId, log, m, mayExpire)
    ensures AnswersUpTo(d, log, |Numbered(c.yielded)|, m, serve(NextRequest(c)), e, mayExpire)
  {
    var n := |Numbered(c.yielded)|;
    NextRequestIs(c, body, requestId, log, n);
    ResumeAfterCursor(requestId, n);
  }

  /** From where a turn leaves the client, what may end it ends well, and the next turn may begin. */
  lemma TurnEndsUpTo(c: Client, sent: Client, next: Client, body: Option<string>, requestId: string, log: seq<Event>,
                     k: nat, m: nat, e: StreamError, mayExpire: bool)
    requires StandingUpTo(c, body, requestId, log, m, mayExpire) && InStep(next, body, requestId, log, k)
    requires sent == c.(requests := c.requests + [NextRequest(c)]) && k <= m <= |log|
    requires next.retries == sent.retries && next.requests == sent.requests
    requires Notices(next) <= Notices(sent) + (if mayExpire then 1 else 0)
    ensures forall x :: Outside(x) ==>
              && EndsUpTo(c, Failed(x), log, m, e, mayExpire) && EndsUpTo(sent, Failed(x), log, m, e, mayExpire)
              && EndsUpTo(next, Failed(x), log, m, e, mayExpire)
    ensures k == m ==> EndsUpTo(next, Failed(Protocol(e)), log, m, e, mayExpire)
    ensures Resumable(next) && next.retries < MAX_RETRIES ==>
              StandingUpTo(next.(retries := next.retries + 1), body, requestId, log, m, mayExpire)
  {
    var n := |Numbered(c.yielded)|;
    TurnEnds(c, sent, next, body, requestId, log, k, mayExpire);
    assert EndsWell(sent, Failed(Refused), log, mayExpire) && EndsWell(next, Failed(Refused), log, mayExpire);
    InStepEnds(c, body, requestId, log, n, m, e, mayExpire);
    InStepEnds(sent, body, requestId, log, n, m, e, mayExpire);
    InStepEnds(next, body, requestId, log, k, m, e, mayExpire);
    assert |Numbered(next.yielded)| == k;
  }

  lemma TurnIsOk(d: Decoder, c: Client, body: Option<string>, requestId: string, log: seq<Event>, k: nat, m: nat,
                 serve: Request -> seq<byte>, fate: Fate, e: StreamError, mayExpire: bool)
    requires StandingUpTo(c, body, requestId, log, m, mayExpire) && k <= m <= |log|
    requires var sent := c.(requests := c.requests + [NextRequest(c)]);
      var (next, verdict) := AfterResponse(d, sent, serve(NextRequest(c)), fate);
      && InStep(next, body, requestId, log, k) && next.retries == sent.retries && next.requests == sent.requests
      && Notices(next) <= Notices(sent) + (if mayExpire then 1 else 0)
      && (verdict in {Retryable(TransportLost), Retryable(Protocol(Interrupted))}
          || (verdict == Raised(Protocol(e)) && k == m))
    ensures TurnOk(d, c, serve, fate, StandsUpTo(body, requestId, log, m, mayExpire), EndingUpTo(log, m, e, mayExpire))
  {
    var sent := c.(requests := c.requests + [NextRequest(c)]);
    var next := AfterResponse(d, sent, serve(NextRequest(c)), fate).0;
    TurnEndsUpTo(c, sent, next, body, requestId, log, k, m, e, mayExpire);
  }

  lemma TurnUpTo(d: Decoder, c: Client, body: Option<string>, requestId: string, log: seq<Event>, m: nat,
                 serve: Request -> seq<byte>, fate: Fate, e: StreamError, mayExpire: bool)
    requires Sound(d.utf8) && LogOf(requestId, log) && HonestUpTo(d, requestId, log, m, serve, e, mayExpire)
    requires requestId != "" && (body.None? || body == Some(requestId)) && m < |log|
    requires StandingUpTo(c, body, requestId, log, m, mayExpire)
    ensures TurnOk(d, c, serve, fate, StandsUpTo(body, requestId, log, m, mayExpire), EndingUpTo(log, m, e, mayExpire))
  {
    var n := |Numbered(c.yielded)|;
    var sent := c.(requests := c.requests + [NextRequest(c)]);
    RequestIsAnsweredUpTo(d, c, body, requestId, log, m, serve, e, mayExpire);
    var k := ExchangeUpTo(d, sent, body, requestId, log, n, m, serve(NextRequest(c)), fate, e, mayExpire);
    TurnIsOk(d, c, body, requestId, log, k, m, serve, fate, e, mayExpire);
  }

  /**
   Against a server whose m-th event cannot be read: whatever is cut wherever, only events before it
   are yielded, gap-free and once each, the session never completes, and where it fails for the
   event's own error, all of them were yielded.
   */
  lemma DeliveredUpToBreak(d: Decoder, body: Option<string>, requestId: string, log: seq<Event>, m: nat,
                           serve: Request -> seq<byte>, fates: nat -> Fate, e: StreamError, mayExpire: bool)
    requires Sound(d.utf8) && LogOf(requestId, log) && HonestUpTo(d, requestId, log, m, serve, e, mayExpire)
    requires requestId != "" && (body.None? || body == Some(requestId)) && m < |log|
    ensures var (last, ending) := Session(d, NewClient(body), serve, fates);
      EndsUpTo(last, ending, log, m, e, mayExpire)
  {
    var stands, good := StandsUpTo(body, requestId, log, m, mayExpire), EndingUpTo(log, m, e, mayExpire);
    forall c, fate | stands(c) ensures TurnOk(d, c, serve, fate, stands, good) {
      TurnUpTo(d, c, body, requestId, log, m, serve, fate, e, mayExpire);
    }
    assert log[..0] == [];
    SessionInduction(d, NewClient(body), serve, fates, stands, good);
  }

  // ---------- the break is reached ----------

  /** In time, not refused, and nothing of it is lost. */
  ghost predicate Reaches(serve: Request -> seq<byte>, fate: Fate) {
    !fate.late && !fate.refused && forall r :: |serve(r)| <= fate.cut
  }

  /** In time, not refused, and lost ahead of the break. */
  ghost predicate LostBefore(d: Decoder, serve: Request -> seq<byte>, fate: Fate) {
    && !fate.late && !fate.refused && !fate.lateAfter
    && forall r :: Feed(d, Fresh(START), Received(serve(r), fate)).failure.None?
  }

  /** A request and what comes of its response. */
  function AfterTurn(d: Decoder, c: Client, serve: Request -> seq<byte>, fate: Fate): (Client, Verdict) {
    AfterResponse(d, c.(requests := c.requests + [NextRequest(c)]), serve(NextRequest(c)), fate)
  }

  lemma SessionGoesOn(d: Decoder, c: Client, serve: Request -> seq<byte>, fates: nat -> Fate)
    requires var fate := fates(c.retries); !fate.late && !fate.refused && !fate.lateAfter
    requires var (next, verdict) := AfterTurn(d, c, serve, fates(c.retries));
      verdict.Retryable? && Resumable(next) && next.retries == c.retries < MAX_RETRIES
    ensures var next := AfterTurn(d, c, serve, fates(c.retries)).0;
      Session(d, c, serve, fates) == Session(d, next.(retries := next.retries + 1), serve, fates)
  {
  }

  /** A client with a name, or with something brought, can resume. */
  lemma NamedOrBrought(c: Client, body: Option<string>, requestId: string, log: seq<Event>, n: nat, k: nat)
    requires InStep(c, body, requestId, log, n) && n <= k <= |log|
    requires c.requestId.Some? || log[n..k] != []
    ensures body.Some? || k > 0
  {
  }

  /** One turn from where the client stands: how far it gets, and how it leaves the client. */
  lemma TurnBrings(d: Decoder, c: Client, body: Option<string>, requestId: string, log: seq<Event>, m: nat,
                   serve: Request -> seq<byte>, fate: Fate, e: StreamError) returns (k: nat)
    requires Sound(d.utf8) && LogOf(requestId, log) && HonestUpTo(d, requestId, log, m, serve, e, false)
    requires requestId != "" && (body.None? || body == Some(requestId)) && m < |log|
    requires StandingUpTo(c, body, requestId, log, m, false)
    ensures var (next, verdict) := AfterTurn(d, c, serve, fate);
      var f := Feed(d, Fresh(START), Received(serve(NextRequest(c)), fate));
      && |Numbered(c.yielded)| <= k <= m && InStep(next, body, requestId, log, k)
      && c.yielded <= next.yielded && Notices(next) <= 0
      && next.retries == c.retries && next.requests == c.requests + [NextRequest(c)]
      && f.yielded == log[|Numbered(c.yielded)|..k]
      && (f.failure.None? ==> verdict.Retryable?)
      && (f.failure.Some? ==> verdict == Raised(Protocol(e)))
  {
    var n := |Numbered(c.yielded)|;
    var sent := c.(requests := c.requests + [NextRequest(c)]);
    RequestIsAnsweredUpTo(d, c, body, requestId, log, m, serve, e, false);
    k := ExchangeUpTo(d, sent, body, requestId, log, n, m, serve(NextRequest(c)), fate, e, false);
  }

  lemma LostTurnStands(d: Decoder, c: Client, body: Option<string>, requestId: string, log: seq<Event>, m: nat,
                       serve: Request -> seq<byte>, fate: Fate, e: StreamError)
    requires Sound(d.utf8) && LogOf(requestId, log) && HonestUpTo(d, requestId, log, m, serve, e, false)
    requires requestId != "" && (body.None? || body == Some(requestId)) && m < |log|
    requires StandingUpTo(c, body, requestId, log, m, false) && LostBefore(d, serve, fate) && c.retries < MAX_RETRIES
    requires c.requestId.Some? || Feed(d, Fresh(START), Received(serve(NextRequest(c)), fate)).yielded != []
    ensures var (next, verdict) := AfterTurn(d, c, serve, fate);
      && verdict.Retryable? && Resumable(next) && next.retries == c.retries
      && StandingUpTo(next.(retries := next.retries + 1), body, requestId, log, m, false)
  {
    var k := TurnBrings(d, c, body, requestId, log, m, serve, fate, e);
    var next := AfterTurn(d, c, serve, fate).0;
    NamedOrBrought(c, body, requestId, log, |Numbered(c.yielded)|, k);
    MissingStaysMissing(c, next, body, requestId, log, k);
    StandsAt(next, body, requestId, log, k);
  }

  lemma StandsAt(next: Client, body: Option<string>, requestId: string, log: seq<Event>, k: nat)
    requires InStep(next, body, requestId, log, k)
    ensures |Numbered(next.yielded)| == k
  {
  }

  lemma ReachedTurnFails(d: Decoder, c: Client, body: Option<string>, requestId: string, log: seq<Event>, m: nat,
                         serve: Request -> seq<byte>, fate: Fate, e: StreamError)
    requires Sound(d.utf8) && LogOf(requestId, log) && HonestUpTo(d, requestId, log, m, serve, e, false)
    requires requestId != "" && (body.None? || body == Some(requestId)) && m < |log|
    requires StandingUpTo(c, body, requestId, log, m, false) && Reaches(serve, fate)
    ensures AfterTurn(d, c, serve, fate).1 == Raised(Protocol(e))
  {
    var response := serve(NextRequest(c));
    RequestIsAnsweredUpTo(d, c, body, requestId, log, m, serve, e, false);
    assert Received(response, fate) == response;
    var k := TurnBrings(d, c, body, requestId, log, m, serve, fate, e);
  }

  lemma SessionRaises(d: Decoder, c: Client, serve: Request -> seq<byte>, fates: nat -> Fate)
    requires var fate := fates(c.retries); !fate.late && !fate.refused
    requires AfterTurn(d, c, serve, fates(c.retries)).1.Raised?
    ensures Session(d, c, serve, fates).1 == Failed(AfterTurn(d, c, serve, fates(c.retries)).1.error)
  {
  }

  /** The client as it makes its next try. */
  function NextTry(d: Decoder, c: Client, serve: Request -> seq<byte>, fate: Fate): Client {
    var next := AfterTurn(d, c, serve, fate).0;
    next.(retries := next.retries + 1)
  }

  lemma LostTurnGoesOn(d: Decoder, c: Client, body: Option<string>, requestId: string, log: seq<Event>, m: nat,
                       serve: Request -> seq<byte>, fates: nat -> Fate, e: StreamError)
    requires Sound(d.utf8) && LogOf(requestId, log) && HonestUpTo(d, requestId, log, m, serve, e, false)
    requires requestId != "" && (body.None? || body == Some(requestId)) && m < |log|
    requires StandingUpTo(c, body, requestId, log, m, false) && c.retries < MAX_RETRIES
    requires LostBefore(d, serve, fates(c.retries)) && NamedAfter(d, c, serve, fates)
    ensures var next := NextTry(d, c, serve, fates(c.retries));
      && StandingUpTo(next, body, requestId, log, m, false) && next.retries == c.retries + 1
      && next.requestId.Some? && Session(d, c, serve, fates) == Session(d, next, serve, fates)
  {
    LostTurnStands(d, c, body, requestId, log, m, serve, fates(c.retries), e);
    SessionGoesOn(d, c, serve, fates);
  }

  /** The request has a name, or what its first response brings will give it one. */
  ghost predicate NamedAfter(d: Decoder, c: Client, serve: Request -> seq<byte>, fates: nat -> Fate) {
    c.requestId.Some? || Feed(d, Fresh(START), Received(serve(NextRequest(c)), fates(c.retries))).yielded != []
  }

  /** The k-th response arrives, and those from the given one to it are lost ahead of the break. */
  ghost predicate ReachedAt(d: Decoder, serve: Request -> seq<byte>, fates: nat -> Fate, from: nat, k: nat) {
    Reaches(serve, fates(k)) && forall i :: from <= i < k ==> LostBefore(d, serve, fates(i))
  }

  lemma {:induction false} BreakIsReached(d: Decoder, c: Client, body: Option<string>, requestId: string,
                                          log: seq<Event>, m: nat, serve: Request -> seq<byte>, fates: nat -> Fate,
                                          e: StreamError, k: nat)
    requires Sound(d.utf8) && LogOf(requestId, log) && HonestUpTo(d, requestId, log, m, serve, e, false)
    requires requestId != "" && (body.None? || body == Some(requestId)) && m < |log|
    requires StandingUpTo(c, body, requestId, log, m, false) && c.retries <= k <= MAX_RETRIES
    requires ReachedAt(d, serve, fates, c.retries, k) && (c.retries < k ==> NamedAfter(d, c, serve, fates))
    ensures Session(d, c, serve, fates).1 == Failed(Protocol(e))
    decreases k - c.retries
  {
    if c.retries == k {
      ReachedTurnFails(d, c, body, requestId, log, m, serve, fates(k), e);
      SessionRaises(d, c, serve, fates);
    } else {
      LostTurnGoesOn(d, c, body, requestId, log, m, serve, fates, e);
      BreakIsReached(d, NextTry(d, c, serve, fates(c.retries)), body, requestId, log, m, serve, fates, e, k);
    }
  }

  // ---------- the server's frames ----------

  /** The first m frames can be read, the one behind them is cut into something that cannot; the rest is any. */
  ghost predicate PublishedUpTo(d: Decoder, encode: string -> seq<byte>, requestId: string, frames: seq<LogFrame>,
                                m: nat) {
    && m < |frames| && Framed(d, requestId, frames) && Legible(d, encode, requestId, frames[..m])
    && Within(encode, requestId, frames, m) && Unreadable(d, frames[m].data)
  }

  function BreakError(d: Decoder, data: string): StreamError { ReadError(d.json(JoinLines(Survivors(data)))) }

  /** A response: pieces up to the unreadable frame and whatever follows it, or, expired, only pieces. */
  datatype Reply = Reply(pieces: seq<Piece>, expired: bool, more: seq<byte>)

  function FrameBytes(encode: string -> seq<byte>, requestId: string, frames: seq<LogFrame>, m: nat): seq<byte>
    requires m < |frames|
  {
    BlockBytes(Encoded(encode, FrameLines(frames[m].name, CursorOf(requestId, m + 1), frames[m].data)))
  }

  function ReplyBytes(encode: string -> seq<byte>, requestId: string, frames: seq<LogFrame>, m: nat, r: Reply):
      seq<byte>
    requires m < |frames|
  {
    StreamBytes(encode, r.pieces) + if r.expired then [] else FrameBytes(encode, requestId, frames, m) + r.more
  }

  function ServeUpTo(encode: string -> seq<byte>, requestId: string, frames: seq<LogFrame>, m: nat,
                     replay: nat -> Reply): Request -> seq<byte>
    requires m < |frames|
  {
    (request: Request) =>
      match request
      case Post => ReplyBytes(encode, requestId, frames, m, replay(0))
      case Get(id, cursor) =>
        if id == requestId && ResumeAfter(requestId, cursor).Some?
        then ReplyBytes(encode, requestId, frames, m, replay(ResumeAfter(requestId, cursor).value)) else []
  }

  ghost predicate RepliesUpTo(d: Decoder, encode: string -> seq<byte>, requestId: string, frames: seq<LogFrame>,
                              m: nat, replay: nat -> Reply, mayExpire: bool)
    requires m <= |frames| && forall i :: 0 <= i < |frames| ==> d.json(frames[i].data).Object?
  {
    forall n: nat :: n <= m ==>
      && (replay(n).expired ==> mayExpire)
      && Transcript(d, encode, requestId, frames[..m], n, replay(n).pieces, replay(n).expired)
  }

  lemma UnreadableBlock(d: Decoder, encode: string -> seq<byte>, requestId: string, frames: seq<LogFrame>, m: nat,
                        o: Outcome, more: seq<byte>)
    requires d.resplit && Sound(d.utf8) && Encodes(d, encode) && PublishedUpTo(d, encode, requestId, frames, m)
    requires o.failure.None?
    ensures Feed(d, Fresh(o), FrameBytes(encode, requestId, frames, m) + more) ==
            Fresh(o.(failure := Some(BreakError(d, frames[m].data))))
  {
    var name, id, data := frames[m].name, CursorOf(requestId, m + 1), frames[m].data;
    CursorIsPlain(requestId, m + 1);
    UnreadableFrame(d, name, id, data);
    FrameLinesAreOneLine(name, id, data);
    UnreadableBlockStops(d, encode, FrameLines(name, id, data), o, BreakError(d, data), more);
  }

  lemma FrontOfLog(d: Decoder, requestId: string, frames: seq<LogFrame>, m: nat)
    requires Framed(d, requestId, frames) && m < |frames|
    ensures LogEvents(d, requestId, frames[..m]) == LogEvents(d, requestId, frames)[..m]
    ensures NoneTerminal(LogEvents(d, requestId, frames)[..m])
  {
    PublishedIsLog(d, requestId, frames);
    var log := LogEvents(d, requestId, frames);
    assert forall i :: 0 <= i < m ==> log[..m][i] == log[i];
  }

  /** A reply that does not expire brings the log up to the unreadable frame, and breaks there. */
  lemma LiveReplyAnswers(d: Decoder, encode: string -> seq<byte>, requestId: string, frames: seq<LogFrame>, m: nat,
                         n: nat, r: Reply)
    requires d.resplit && Sound(d.utf8) && Encodes(d, encode) && PublishedUpTo(d, encode, requestId, frames, m)
    requires !r.expired && n <= m && Transcript(d, encode, requestId, frames[..m], n, r.pieces, false)
    ensures Breaks(d, ReplyBytes(encode, requestId, frames, m, r), LogEvents(d, requestId, frames)[n..m],
                   BreakError(d, frames[m].data))
  {
    var log := LogEvents(d, requestId, frames);
    FrontOfLog(d, requestId, frames, m);
    TranscriptContinues(d, encode, requestId, frames[..m], n, r.pieces, false);
    assert EventsOf(r.pieces) == log[..m][n..] && log[..m][n..] == log[n..m];
    assert forall i :: 0 <= i < |log[n..m]| ==> log[n..m][i] == log[..m][n + i];
    ReplyBreaks(d, encode, requestId, frames, m, r);
  }

  lemma ExpiredReplyAnswers(d: Decoder, encode: string -> seq<byte>, requestId: string, frames: seq<LogFrame>, m: nat,
                            n: nat, r: Reply)
    requires d.resplit && Sound(d.utf8) && Encodes(d, encode) && PublishedUpTo(d, encode, requestId, frames, m)
    requires r.expired && n <= m && Transcript(d, encode, requestId, frames[..m], n, r.pieces, true)
    ensures AnswersUpTo(d, LogEvents(d, requestId, frames), n, m, ReplyBytes(encode, requestId, frames, m, r),
                        BreakError(d, frames[m].data), true)
  {
    FrontOfLog(d, requestId, frames, m);
    PublishedIsLog(d, requestId, frames);
    TranscriptContinues(d, encode, requestId, frames[..m], n, r.pieces, true);
    ExpiredReplyBrings(d, encode, requestId, LogEvents(d, requestId, frames), n, m, r.pieces);
    assert ReplyBytes(encode, requestId, frames, m, r) == StreamBytes(encode, r.pieces);
  }

  /** Each reply continues the log up to the unreadable frame. */
  lemma ReplyAnswersUpTo(d: Decoder, encode: string -> seq<byte>, requestId: string, frames: seq<LogFrame>, m: nat,
                         n: nat, r: Reply, mayExpire: bool)
    requires d.resplit && Sound(d.utf8) && Encodes(d, encode) && PublishedUpTo(d, encode, requestId, frames, m)
    requires (r.expired ==> mayExpire) && n <= m
    requires Transcript(d, encode, requestId, frames[..m], n, r.pieces, r.expired)
    ensures AnswersUpTo(d, LogEvents(d, requestId, frames), n, m, ReplyBytes(encode, requestId, frames, m, r),
                        BreakError(d, frames[m].data), mayExpire)
  {
    if r.expired {
      ExpiredReplyAnswers(d, encode, requestId, frames, m, n, r);
    } else {
      LiveReplyAnswers(d, encode, requestId, frames, m, n, r);
    }
  }

  lemma ReplyBreaks(d: Decoder, encode: string -> seq<byte>, requestId: string, frames: seq<LogFrame>, m: nat, r: Reply)
    requires d.resplit && Sound(d.utf8) && Encodes(d, encode) && PublishedUpTo(d, encode, requestId, frames, m)
    requires !r.expired && AllSendable(d, encode, r.pieces) && NoneTerminal(EventsOf(r.pieces))
    ensures Breaks(d, ReplyBytes(encode, requestId, frames, m, r), EventsOf(r.pieces), BreakError(d, frames[m].data))
  {
    var more := FrameBytes(encode, requestId, frames, m) + r.more;
    PiecesThen(d, encode, r.pieces, START, more);
    AfterPiecesIs(START, r.pieces);
    assert START.events + EventsOf(r.pieces) == EventsOf(r.pieces);
    UnreadableBlock(d, encode, requestId, frames, m, AfterPieces(START, r.pieces), r.more);
  }

  /** A reply that expired is carried whole and stays short of the unreadable frame. */
  lemma ExpiredReplyBrings(d: Decoder, encode: string -> seq<byte>, requestId: string, log: seq<Event>, n: nat, m: nat,
                           pieces: seq<Piece>)
    requires Sound(d.utf8) && Encodes(d, encode) && AllSendable(d, encode, pieces)
    requires LogOf(requestId, log) && n <= m < |log| && Continues(log[..m], n, EventsOf(pieces), true)
    ensures exists events, k: nat, notice ::
              Carries(d, StreamBytes(encode, pieces), events) && Brings(log, n, events, k, notice, true) && k <= m
  {
    var front, events := log[..m], EventsOf(pieces);
    var k: nat, notice := m, None;
    if events == front[n..] {
      assert events == log[n..m] + [];
    } else {
      var j, x :| n <= j < m && Notice(x) && events == front[n..j] + [x];
      assert front[n..j] == log[n..j];
      k, notice := j, Some(x);
    }
    assert Brings(log, n, events, k, notice, true);
    forall i | 0 <= i < |events| - 1 ensures !IsTerminal(events[i]) { assert events[i] == log[n + i]; }
    StreamCarries(d, encode, pieces);
  }

  lemma RepliesAreHonestUpTo(d: Decoder, encode: string -> seq<byte>, requestId: string, frames: seq<LogFrame>, m: nat,
                             replay: nat -> Reply, mayExpire: bool)
    requires d.resplit && Sound(d.utf8) && Encodes(d, encode) && PublishedUpTo(d, encode, requestId, frames, m)
    requires RepliesUpTo(d, encode, requestId, frames, m, replay, mayExpire)
    ensures HonestUpTo(d, requestId, LogEvents(d, requestId, frames), m,
                       ServeUpTo(encode, requestId, frames, m, replay), BreakError(d, frames[m].data), mayExpire)
  {
    var log, serve := LogEvents(d, requestId, frames), ServeUpTo(encode, requestId, frames, m, replay);
    var e := BreakError(d, frames[m].data);
    ReplyAnswersUpTo(d, encode, requestId, frames, m, 0, replay(0), mayExpire);
    forall cursor | ResumeAfter(requestId, cursor).Some? && ResumeAfter(requestId, cursor).value <= m
      ensures AnswersUpTo(d, log, ResumeAfter(requestId, cursor).value, m, serve(Get(requestId, cursor)), e, mayExpire)
    {
      var n := ResumeAfter(requestId, cursor).value;
      ReplyAnswersUpTo(d, encode, requestId, frames, m, n, replay(n), mayExpire);
    }
  }

  /**
   The server publishes a frame whose data the client cuts into something unreadable: the client
   never yields it nor anything behind it and never completes.
   */
  lemma DeliveredUpToUnreadableFrame(d: Decoder, encode: string -> seq<byte>, body: Option<string>, requestId: string,
                                     frames: seq<LogFrame>, m: nat, replay: nat -> Reply, fates: nat -> Fate,
                                     mayExpire: bool)
    requires d.resplit && Sound(d.utf8) && Encodes(d, encode) && PublishedUpTo(d, encode, requestId, frames, m)
    requires RepliesUpTo(d, encode, requestId, frames, m, replay, mayExpire)
    requires requestId != "" && (body.None? || body == Some(requestId))
    ensures var log := LogEvents(d, requestId, frames);
      var (last, ending) := Session(d, NewClient(body), ServeUpTo(encode, requestId, frames, m, replay), fates);
      EndsUpTo(last, ending, log, m, BreakError(d, frames[m].data), mayExpire)
  {
    PublishedIsLog(d, requestId, frames);
    RepliesAreHonestUpTo(d, encode, requestId, frames, m, replay, mayExpire);
    DeliveredUpToBreak(d, body, requestId, LogEvents(d, requestId, frames), m,
      ServeUpTo(encode, requestId, frames, m, replay), fates, BreakError(d, frames[m].data), mayExpire);
  }

  /**
   And it fails exactly there, with every event before the frame yielded, if one of its three
   responses arrives as far as the frame and those before it were only lost once the request was named.
   */
  lemma FailsAtUnreadableFrame(d: Decoder, encode: string -> seq<byte>, body: Option<string>, requestId: string,
                               frames: seq<LogFrame>, m: nat, replay: nat -> Reply, fates: nat -> Fate, k: nat)
    requires d.resplit && Sound(d.utf8) && Encodes(d, encode) && PublishedUpTo(d, encode, requestId, frames, m)
    requires RepliesUpTo(d, encode, requestId, frames, m, replay, false)
    requires requestId != "" && (body.None? || body == Some(requestId)) && k <= MAX_RETRIES
    requires var serve := ServeUpTo(encode, requestId, frames, m, replay);
      ReachedAt(d, serve, fates, 0, k) && (k > 0 ==> NamedAfter(d, NewClient(body), serve, fates))
    ensures var (last, ending) := Session(d, NewClient(body), ServeUpTo(encode, requestId, frames, m, replay), fates);
      ending == Failed(Protocol(BreakError(d, frames[m].data))) && last.yielded == LogEvents(d, requestId, frames)[..m]
  {
    var log, serve := LogEvents(d, requestId, frames), ServeUpTo(encode, requestId, frames, m, replay);
    var c, e := NewClient(body), BreakError(d, frames[m].data);
    PublishedIsLog(d, requestId, frames);
    RepliesAreHonestUpTo(d, encode, requestId, frames, m, replay, false);
    assert log[..0] == [];
    BreakIsReached(d, c, body, requestId, log, m, serve, fates, e, k);
    DeliveredUpToBreak(d, body, requestId, log, m, serve, fates, e, false);
    NumberedFits(Session(d, c, serve, fates).0.yielded);
  }
}
