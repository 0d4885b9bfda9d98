/**
 The reconnecting stream client (python-service/cli/client.py, stream_query): one POST, at most
 two GET resumes behind a Last-Event-ID cursor (section 9.2.4 of the HTML Living Standard).
 */
module StreamClient {
  import opened Wrappers
  import opened Segments
  import opened SseGrammar
  import opened SseFramer
  import opened ServerStream

  const MAX_RETRIES: nat := 2

  // ---------- cursors ----------

  predicate IsDigit(c: char) { '0' <= c <= '9' }

  predicate AllDigits(s: string) { s != "" && forall i :: 0 <= i < |s| ==> IsDigit(s[i]) }

  /** The decimal form the server prints. */
  function Digits(n: nat): string {
    var last := [('0' as int + n % 10) as char];
    if n < 10 then last else Digits(n / 10) + last
  }

  function ParseDigits(s: string): nat
    requires AllDigits(s)
  {
    var value := s[|s| - 1] as int - '0' as int;
    if |s| == 1 then value else ParseDigits(s[..|s| - 1]) * 10 + value
  }

  lemma {:induction false} DigitsRoundTrip(n: nat)
    ensures AllDigits(Digits(n)) && ParseDigits(Digits(n)) == n
  {
    if n >= 10 {
      DigitsRoundTrip(n / 10);
      var s := Digits(n);
      assert s[..|s| - 1] == Digits(n / 10);
    }
  }

  /** Text cut at its last colon, when it has one. */
  function LastColon(s: string, n: nat): (i: Option<nat>)
    requires n <= |s|
    ensures i.Some? ==> i.value < n && s[i.value] == ':'
    ensures forall k :: (if i.Some? then i.value else -1) < k < n ==> s[k] != ':'
  {
    if n == 0 then None else if s[n - 1] == ':' then Some(n - 1) else LastColon(s, n - 1)
  }

  function CursorOf(requestId: string, n: nat): string { requestId + ":" + Digits(n) }

  lemma CursorSplits(requestId: string, n: nat)
    ensures var s := CursorOf(requestId, n);
      && LastColon(s, |s|) == Some(|requestId|)
      && s[..|requestId|] == requestId && s[|requestId| + 1..] == Digits(n)
  {
    DigitsRoundTrip(n);
    var s := CursorOf(requestId, n);
    assert s[|requestId|] == ':';
    assert forall k :: |requestId| < k < |s| ==> s[k] == Digits(n)[k - |requestId| - 1];
  }

  /** The server's reading of a cursor: its own request, a colon and a decimal number. */
  function ResumeAfter(requestId: string, cursor: string): Option<nat> {
    if requestId + ":" <= cursor && AllDigits(cursor[|requestId| + 1..])
    then Some(ParseDigits(cursor[|requestId| + 1..])) else None
  }

  lemma ResumeAfterCursor(requestId: string, n: nat)
    ensures ResumeAfter(requestId, CursorOf(requestId, n)) == Some(n)
  {
    CursorSplits(requestId, n);
    DigitsRoundTrip(n);
  }

  // ---------- one event ----------

  datatype ClientError =
    | DeadlineExceeded | Refused | IdentityChanged | CursorInvalid | EventIdNotText
    | Protocol(error: StreamError) | TransportLost

  datatype Request = Post | Get(requestId: string, lastEventId: string)

  datatype Client = Client(
    requestId: Option<Value>, cursor: Option<string>, retries: nat,
    requests: seq<Request>, yielded: seq<Event>)

  /** dict.get: an absent key and a null look alike. */
  function Lookup(e: Event, key: string): Option<Value> {
    if key in e && e[key] != Null then Some(e[key]) else None
  }

  function Identify(c: Client, e: Event): Result<Client, ClientError> {
    if Lookup(e, "event") != Some(Text("query_started")) then Ok(c)
    else if c.requestId.Some? && Lookup(e, "requestId") != c.requestId then Err(IdentityChanged)
    else Ok(c.(requestId := Lookup(e, "requestId")))
  }

  function Advance(c: Client, e: Event): Result<Client, ClientError> {
    match Lookup(e, "eventId")
    case None => Ok(c)
    case Some(Text(id)) =>
      var colon := LastColon(id, |id|);
      if colon.None? || c.requestId != Some(Text(id[..colon.value])) || !AllDigits(id[colon.value + 1..])
      then Err(CursorInvalid) else Ok(c.(cursor := Some(id)))
    case Some(_) => Err(EventIdNotText)
  }

  /** An event is yielded only after it identified itself and moved the cursor. */
  function Accept(c: Client, e: Event): Result<Client, ClientError> {
    match Identify(c, e)
    case Err(error) => Err(error)
    case Ok(c1) =>
      match Advance(c1, e)
      case Err(error) => Err(error)
      case Ok(c2) => Ok(c2.(yielded := c2.yielded + [e]))
  }

  /** An identifier of the request: its name, a colon, digits. */
  predicate IsCursorOf(id: string, requestId: string) {
    |requestId| < |id| && requestId <= id && id[|requestId|] == ':' && AllDigits(id[|requestId| + 1..])
  }

  lemma LastColonAt(id: string, at: nat)
    requires at < |id| && id[at] == ':' && forall k :: at < k < |id| ==> id[k] != ':'
    ensures LastColon(id, |id|) == Some(at)
  {
  }

  lemma CursorBelongsExactly(id: string, requestId: string)
    ensures IsCursorOf(id, requestId) <==>
              var colon := LastColon(id, |id|);
              colon.Some? && id[..colon.value] == requestId && AllDigits(id[colon.value + 1..])
  {
    if IsCursorOf(id, requestId) {
      forall k | |requestId| < k < |id| ensures id[k] != ':' {
        assert IsDigit(id[|requestId| + 1..][k - |requestId| - 1]);
      }
      LastColonAt(id, |requestId|);
    }
  }

  /**
   A named client takes exactly the events of its own request: a start must name it, an id must be one
   of its cursors. What is taken is yielded as it is, moves the cursor to its id, and nothing else.
   */
  lemma TakesOwnEventsExactly(c: Client, requestId: string, e: Event)
    requires c.requestId == Some(Text(requestId))
    ensures Accept(c, e).Ok? <==>
              && (Lookup(e, "event") == Some(Text("query_started")) ==> Lookup(e, "requestId") == Some(Text(requestId)))
              && (Lookup(e, "eventId").Some? ==>
                    Lookup(e, "eventId").value.Text? && IsCursorOf(Lookup(e, "eventId").value.text, requestId))
    ensures Accept(c, e).Ok? ==>
              Accept(c, e).value ==
                c.(yielded := c.yielded + [e],
                   cursor := if Lookup(e, "eventId").Some? then Some(Lookup(e, "eventId").value.text) else c.cursor)
    ensures Accept(c, e).Err? ==>
              Accept(c, e).error ==
                if Lookup(e, "event") == Some(Text("query_started"))
                   && Lookup(e, "requestId") != Some(Text(requestId)) then IdentityChanged
                else if Lookup(e, "eventId").value.Text? then CursorInvalid else EventIdNotText
  {
    match Lookup(e, "eventId")
    case Some(Text(id)) => CursorBelongsExactly(id, requestId);
    case _ =>
  }

  /** A client without a name takes it from the first start event, whatever it is. */
  lemma FirstStartNames(c: Client, e: Event)
    requires c.requestId.None? && Lookup(e, "eventId").None? && Lookup(e, "event") == Some(Text("query_started"))
    ensures Accept(c, e) == Ok(c.(requestId := Lookup(e, "requestId"), yielded := c.yielded + [e]))
  {
  }

  datatype Progress = Progress(client: Client, error: Option<ClientError>)

  function AcceptAll(c: Client, events: seq<Event>): Progress
    decreases |events|
  {
    if events == [] then Progress(c, None)
    else match Accept(c, events[0])
      case Err(error) => Progress(c, Some(error))
      case Ok(next) => AcceptAll(next, events[1..])
  }

  // ---------- one exchange ----------

  /**
   What happens to one request: the deadline may pass first, the server may refuse it, and the
   response is cut after any number of bytes, by a clean end or by a lost connection.
   */
  datatype Fate = Fate(late: bool, refused: bool, cut: nat, cleanEnd: bool, lateAfter: bool)

  function Received(response: seq<byte>, fate: Fate): seq<byte> {
    if fate.cut <= |response| then response[..fate.cut] else response
  }

  datatype Verdict = Returned | Retryable(error: ClientError) | Raised(error: ClientError)

  function AfterResponse(d: Decoder, c: Client, response: seq<byte>, fate: Fate): (Client, Verdict) {
    var f := Feed(d, Fresh(START), Received(response, fate));
    var progress := AcceptAll(c, f.yielded);
    (progress.client,
     if progress.error.Some? then Raised(progress.error.value)
     else if f.failure.Some? then Raised(Protocol(f.failure.value))
     else if !fate.cleanEnd then Retryable(TransportLost)
     else match End(f).failure
       case None => Returned
       case Some(Interrupted) => Retryable(Protocol(Interrupted))
       case Some(e) => Raised(Protocol(e)))
  }

  /** Only a named request can be resumed. */
  predicate Resumable(c: Client) { c.requestId.Some? && c.requestId.value.Text? && c.requestId.value.text != "" }

  function NextRequest(c: Client): Request {
    if c.retries == 0 || !Resumable(c) then Post
    else
      var id := c.requestId.value.text;
      Get(id, if c.cursor.Some? && c.cursor.value != "" then c.cursor.value else id + ":0")
  }

  datatype Ending = Completed | Failed(error: ClientError)

  /** The reconnect loop: a retry is taken only twice, only for a named request, only in time. */
  function Session(d: Decoder, c: Client, serve: Request -> seq<byte>, fates: nat -> Fate): (Client, Ending)
    decreases if c.retries < MAX_RETRIES then MAX_RETRIES - c.retries else 0
  {
    var fate := fates(c.retries);
    if fate.late then (c, Failed(DeadlineExceeded))
    else
      var request := NextRequest(c);
      var sent := c.(requests := c.requests + [request]);
      if fate.refused then (sent, Failed(Refused))
      else
        var (next, verdict) := AfterResponse(d, sent, serve(request), fate);
        match verdict
        case Returned => (next, Completed)
        case Raised(error) => (next, Failed(error))
        case Retryable(error) =>
          if next.retries >= MAX_RETRIES || !Resumable(next) || fate.lateAfter then (next, Failed(error))
          else
            AcceptAllKeepsRetries(sent, Feed(d, Fresh(START), Received(serve(request), fate)).yielded);
            Session(d, next.(retries := next.retries + 1), serve, fates)
  }

  /** Past its deadline the loop sends nothing more, and a refusal ends it with the request that met it. */
  lemma SessionStopsAtOnce(d: Decoder, c: Client, serve: Request -> seq<byte>, fates: nat -> Fate)
    ensures fates(c.retries).late ==> Session(d, c, serve, fates) == (c, Failed(DeadlineExceeded))
    ensures !fates(c.retries).late && fates(c.retries).refused ==>
              Session(d, c, serve, fates) == (c.(requests := c.requests + [NextRequest(c)]), Failed(Refused))
  {
  }

  lemma {:induction false} AcceptAllKeepsRetries(c: Client, events: seq<Event>)
    ensures AcceptAll(c, events).client.retries == c.retries
    ensures AcceptAll(c, events).client.requests == c.requests
    decreases |events|
  {
    if events != [] && Accept(c, events[0]).Ok? { AcceptAllKeepsRetries(Accept(c, events[0]).value, events[1..]); }
  }

  function NewClient(requestId: Option<string>): Client {
    Client(if requestId.Some? then Some(Text(requestId.value)) else None, None, 0, [], [])
  }

  // ---------- the honest server ----------

  /** The log of one execution: numbered from one, named by its request, terminal exactly at its end. */
  ghost predicate LogOf(requestId: string, log: seq<Event>) {
    && log != [] && Lookup(log[0], "event") == Some(Text("query_started"))
    && (forall i :: 0 <= i < |log| ==> Lookup(log[i], "eventId") == Some(Text(CursorOf(requestId, i + 1))))
    && (forall i :: 0 <= i < |log| ==>
          Lookup(log[i], "event") == Some(Text("query_started")) ==>
            Lookup(log[i], "requestId") == Some(Text(requestId)))
    && (forall i :: 0 <= i < |log| ==> (IsTerminal(log[i]) <==> i == |log| - 1))
  }

  /** An event of the connection, not of the log: the server sends it without an id when its replay buffer moved on. */
  ghost predicate Notice(e: Event) {
    Lookup(e, "eventId") == None && Lookup(e, "event") != Some(Text("query_started")) && !IsTerminal(e)
  }

  /** The log from n on, or, where cursors may expire in mid-response, a stretch of it and a notice. */
  ghost predicate Continues(log: seq<Event>, n: nat, events: seq<Event>, mayExpire: bool) {
    && n <= |log|
    && (|| events == log[n..]
        || (mayExpire && exists m, x :: n <= m < |log| && Notice(x) && events == log[n..m] + [x]))
  }

  ghost predicate Answers(d: Decoder, log: seq<Event>, n: nat, bytes: seq<byte>, mayExpire: bool) {
    exists events :: Carries(d, bytes, events) && Continues(log, n, events, mayExpire)
  }

  /** A POST is answered from the start of the log, a resume from what follows its cursor. */
  ghost predicate Honest(d: Decoder, requestId: string, log: seq<Event>, serve: Request -> seq<byte>, mayExpire: bool) {
    && Answers(d, log, 0, serve(Post), mayExpire)
    && forall cursor :: match ResumeAfter(requestId, cursor)
         case None => true
         case Some(n) => n <= |log| ==> Answers(d, log, n, serve(Get(requestId, cursor)), mayExpire)
  }

  /** The events of the log among those yielded. */
  function Numbered(events: seq<Event>): seq<Event> {
    if events == [] then []
    else
      var rest, last := Numbered(events[..|events| - 1]), events[|events| - 1];
      if Lookup(last, "eventId").Some? then rest + [last] else rest
  }

  lemma NumberedSnoc(events: seq<Event>, e: Event)
    ensures Numbered(events + [e]) == if Lookup(e, "eventId").Some? then Numbered(events) + [e] else Numbered(events)
  {
    assert (events + [e])[..|events|] == events;
  }

  /** Between requests: n events of the log were yielded, and the cursor stands right behind them. */
  ghost predicate InStep(c: Client, body: Option<string>, requestId: string, log: seq<Event>, n: nat) {
    && n <= |log| && Numbered(c.yielded) == log[..n]
    && c.cursor == (if n == 0 then None else Some(CursorOf(requestId, n)))
    && (n > 0 ==> c.requestId == Some(Text(requestId)))
    && (n == 0 ==> c.requestId == if body.Some? then Some(Text(body.value)) else None)
  }

  lemma LogEntry(requestId: string, log: seq<Event>, n: nat)
    requires LogOf(requestId, log) && n < |log|
    ensures Lookup(log[n], "eventId") == Some(Text(CursorOf(requestId, n + 1)))
    ensures Names(requestId, log[n]) && (n == 0 ==> Lookup(log[n], "event") == Some(Text("query_started")))
  {
  }

  /** A start event names its own request. */
  predicate Names(requestId: string, e: Event) {
    Lookup(e, "event") == Some(Text("query_started")) ==> Lookup(e, "requestId") == Some(Text(requestId))
  }

  /** A numbered event of the request is accepted, names it and moves the cursor to itself. */
  lemma OneIsAccepted(c: Client, requestId: string, e: Event, n: nat)
    requires Lookup(e, "eventId") == Some(Text(CursorOf(requestId, n))) && Names(requestId, e)
    requires c.requestId == Some(Text(requestId))
        || (c.requestId.None? && Lookup(e, "event") == Some(Text("query_started")))
    ensures Accept(c, e) == Ok(c.(requestId := Some(Text(requestId)), cursor := Some(CursorOf(requestId, n)),
                                  yielded := c.yielded + [e]))
  {
    CursorSplits(requestId, n);
    DigitsRoundTrip(n);
    var named := Identify(c, e).value;
    assert named == c.(requestId := Some(Text(requestId)));
    assert Advance(named, e) == Ok(named.(cursor := Some(CursorOf(requestId, n))));
  }

  /** The next event of the log is always accepted and keeps the client in step. */
  lemma NextIsAccepted(c: Client, body: Option<string>, requestId: string, log: seq<Event>, n: nat)
    requires LogOf(requestId, log) && InStep(c, body, requestId, log, n) && n < |log|
    requires body.None? || body == Some(requestId)
    ensures Accept(c, log[n]).Ok? && Accept(c, log[n]).value.yielded == c.yielded + [log[n]]
    ensures InStep(Accept(c, log[n]).value, body, requestId, log, n + 1)
  {
    LogEntry(requestId, log, n);
    OneIsAccepted(c, requestId, log[n], n + 1);
    NumberedSnoc(c.yielded, log[n]);
    assert log[..n] + [log[n]] == log[..n + 1];
  }

  /** A notice is yielded and moves nothing. */
  lemma NoticeIsAccepted(c: Client, body: Option<string>, requestId: string, log: seq<Event>, n: nat, x: Event)
    requires InStep(c, body, requestId, log, n) && Notice(x)
    ensures Accept(c, x) == Ok(c.(yielded := c.yielded + [x]))
    ensures InStep(Accept(c, x).value, body, requestId, log, n)
  {
    NumberedSnoc(c.yielded, x);
  }

  lemma {:induction false} AcceptAllSnoc(c: Client, events: seq<Event>, x: Event)
    requires AcceptAll(c, events).error.None? && Accept(AcceptAll(c, events).client, x).Ok?
    ensures AcceptAll(c, events + [x]) == Progress(Accept(AcceptAll(c, events).client, x).value, None)
    decreases |events|
  {
    if events == [] {
      assert [] + [x] == [x] && [x][1..] == [];
    } else {
      assert (events + [x])[1..] == events[1..] + [x];
      AcceptAllSnoc(Accept(c, events[0]).value, events[1..], x);
    }
  }

  /** The client after a stretch of events, all accepted. */
  ghost predicate Took(c: Client, events: seq<Event>, body: Option<string>, requestId: string, log: seq<Event>,
      k: nat) {
    var p := AcceptAll(c, events);
    p.error.None? && InStep(p.client, body, requestId, log, k) && p.client.yielded == c.yielded + events
  }

  lemma TakesNothing(c: Client, body: Option<string>, requestId: string, log: seq<Event>, n: nat)
    requires InStep(c, body, requestId, log, n)
    ensures Took(c, [], body, requestId, log, n)
  {
    assert c.yielded + [] == c.yielded;
  }

  lemma TakesOneMore(c: Client, events: seq<Event>, body: Option<string>, requestId: string, log: seq<Event>, k: nat)
    requires LogOf(requestId, log) && Took(c, events, body, requestId, log, k) && k < |log|
    requires body.None? || body == Some(requestId)
    ensures Took(c, events + [log[k]], body, requestId, log, k + 1)
  {
    NextIsAccepted(AcceptAll(c, events).client, body, requestId, log, k);
    AcceptAllSnoc(c, events, log[k]);
    assert (c.yielded + events) + [log[k]] == c.yielded + (events + [log[k]]);
  }

  lemma StretchSnoc(log: seq<Event>, n: nat, k: nat)
    requires n < k <= |log|
    ensures log[n..k] == log[n..k - 1] + [log[k - 1]]
  {
  }

  lemma {:induction false} StretchIsAccepted(c: Client, body: Option<string>, requestId: string, log: seq<Event>,
                                             n: nat, k: nat)
    requires LogOf(requestId, log) && InStep(c, body, requestId, log, n) && (body.None? || body == Some(requestId))
    requires n <= k <= |log|
    ensures Took(c, log[n..k], body, requestId, log, k)
    decreases k - n
  {
    if n == k {
      assert log[n..k] == [];
      TakesNothing(c, body, requestId, log, n);
    } else {
      StretchSnoc(log, n, k);
      StretchIsAccepted(c, body, requestId, log, n, k - 1);
      TakesOneMore(c, log[n..k - 1], body, requestId, log, k - 1);
    }
  }

  /** What one response brings: a stretch of the log from where the client stands, and at most a notice after it. */
  ghost predicate Brings(log: seq<Event>, done: nat, events: seq<Event>, k: nat, notice: Option<Event>,
      mayExpire: bool) {
    && done <= k <= |log| && (notice.Some? ==> mayExpire && Notice(notice.value))
    && events == log[done..k] + if notice.Some? then [notice.value] else []
  }

  /** Taking in what a response brings keeps the client in step. */
  lemma BroughtIsAccepted(c: Client, body: Option<string>, requestId: string, log: seq<Event>, n: nat,
                          events: seq<Event>, k: nat, notice: Option<Event>, mayExpire: bool)
    requires LogOf(requestId, log) && InStep(c, body, requestId, log, n) && (body.None? || body == Some(requestId))
    requires Brings(log, n, events, k, notice, mayExpire)
    ensures Took(c, events, body, requestId, log, k)
  {
    var stretch := log[n..k];
    StretchIsAccepted(c, body, requestId, log, n, k);
    if notice.Some? {
      NoticeIsAccepted(AcceptAll(c, stretch).client, body, requestId, log, k, notice.value);
      AcceptAllSnoc(c, stretch, notice.value);
      assert (c.yielded + stretch) + [notice.value] == c.yielded + events;
    } else {
      assert stretch == events;
    }
  }

  function Notices(c: Client): int { |c.yielded| - |Numbered(c.yielded)| }

  /** The request made in step: a POST at first, and then the cursor behind what was yielded. */
  lemma NextRequestIs(c: Client, body: Option<string>, requestId: string, log: seq<Event>, n: nat)
    requires InStep(c, body, requestId, log, n) && requestId != "" && (body.None? || body == Some(requestId))
    requires c.retries == 0 ==> n == 0
    requires c.retries > 0 ==> Resumable(c)
    ensures NextRequest(c) == if c.retries == 0 then Post else Get(requestId, CursorOf(requestId, n))
  {
    assert Digits(0) == "0";
    assert requestId + ":0" == CursorOf(requestId, 0);
  }

  /** The request made in step asks for exactly what is missing. */
  lemma RequestAsksForTheRest(d: Decoder, c: Client, body: Option<string>, requestId: string, log: seq<Event>, n: nat,
                              serve: Request -> seq<byte>, mayExpire: bool)
    requires LogOf(requestId, log) && Honest(d, requestId, log, serve, mayExpire)
    requires InStep(c, body, requestId, log, n)
    requires requestId != "" && (body.None? || body == Some(requestId))
    requires c.retries == 0 ==> n == 0
    requires c.retries > 0 ==> Resumable(c)
    ensures Answers(d, log, n, serve(NextRequest(c)), mayExpire)
    ensures c.retries > 0 ==> NextRequest(c) == Get(requestId, CursorOf(requestId, n))
  {
    NextRequestIs(c, body, requestId, log, n);
    ResumeAfterCursor(requestId, n);
  }

  /** Whatever is cut off an answer, what is left of it still continues the log. */
  lemma PrefixBrings(log: seq<Event>, done: nat, whole: seq<Event>, events: seq<Event>, mayExpire: bool)
    returns (k: nat, notice: Option<Event>)
    requires Continues(log, done, whole, mayExpire) && events <= whole
    ensures Brings(log, done, events, k, notice, mayExpire)
    ensures events == log[done..] ==> k == |log| && notice.None?
  {
    notice := None;
    if events == log[done..] {
      k := |log|;
      assert log[done..k] + [] == events;
    } else if whole == log[done..] {
      k := done + |events|;
      assert log[done..k] + [] == events;
    } else {
      var m, x :| done <= m < |log| && Notice(x) && whole == log[done..m] + [x];
      if |events| <= m - done {
        k := done + |events|;
        assert log[done..k] + [] == events;
      } else {
        k, notice := m, Some(x);
        assert events == whole;
      }
    }
  }

  /** What any cut of an answer decodes to: no failure, what it brings, and a clean end only at the log's end. */
  lemma CutFollowsLog(d: Decoder, requestId: string, log: seq<Event>, done: nat, response: seq<byte>, fate: Fate,
                      mayExpire: bool) returns (k: nat, notice: Option<Event>)
    requires Sound(d.utf8) && LogOf(requestId, log) && Answers(d, log, done, response, mayExpire)
    ensures var f := Feed(d, Fresh(START), Received(response, fate));
      && f.failure.None? && Brings(log, done, f.yielded, k, notice, mayExpire)
      && End(f).failure in {None, Some(Interrupted)}
      && (End(f).failure.None? ==> k == |log| && notice.None?)
  {
    var whole :| Carries(d, response, whole) && Continues(log, done, whole, mayExpire);
    var cut := if fate.cut <= |response| then fate.cut else |response|;
    assert Received(response, fate) == response[..cut];
    CutYieldsPrefix(d, response, whole, cut);
    FeedKeeps(d, Fresh(START), response[..cut]);
    var f := Feed(d, Fresh(START), response[..cut]);
    k, notice := PrefixBrings(log, done, whole, f.yielded, mayExpire);
    if End(f).failure.None? { TerminalEndsTheLog(requestId, log, done, f.yielded, k, notice, mayExpire); }
  }

  /** Only the last event of the log is terminal, and a notice never is. */
  lemma TerminalEndsTheLog(requestId: string, log: seq<Event>, done: nat, events: seq<Event>, k: nat,
                           notice: Option<Event>, mayExpire: bool)
    requires LogOf(requestId, log) && Brings(log, done, events, k, notice, mayExpire)
    requires events != [] && IsTerminal(events[|events| - 1])
    ensures k == |log| && notice.None?
  {
    if notice.None? {
      assert events[|events| - 1] == log[k - 1];
    }
  }

  /** Any cut of that response keeps the client in step; a return means the log is complete. */
  lemma ExchangeKeepsStep(d: Decoder, c: Client, body: Option<string>, requestId: string, log: seq<Event>, n: nat,
                          response: seq<byte>, fate: Fate, mayExpire: bool) returns (k: nat)
    requires Sound(d.utf8) && LogOf(requestId, log) && InStep(c, body, requestId, log, n)
    requires body.None? || body == Some(requestId)
    requires Answers(d, log, n, response, mayExpire)
    ensures var (next, verdict) := AfterResponse(d, c, response, fate);
      && n <= k && InStep(next, body, requestId, log, k) && c.yielded <= next.yielded
      && next.retries == c.retries && next.requests == c.requests
      && Notices(next) <= Notices(c) + (if mayExpire then 1 else 0)
      && (verdict == Returned ==> k == |log|)
      && verdict in {Returned, Retryable(TransportLost), Retryable(Protocol(Interrupted))}
  {
    var f := Feed(d, Fresh(START), Received(response, fate));
    var notice;
    k, notice := CutFollowsLog(d, requestId, log, n, response, fate, mayExpire);
    BroughtIsAccepted(c, body, requestId, log, n, f.yielded, k, notice, mayExpire);
    AcceptAllKeepsRetries(c, f.yielded);
  }

  // ---------- exactly once ----------

  /** One POST at first, and only resumes after it. */
  predicate OnePost(requests: seq<Request>) {
    |requests| <= 1 + MAX_RETRIES && forall i :: 0 <= i < |requests| ==> (requests[i].Post? <==> i == 0)
  }

  /** The failures a client of an honest server can see. */
  predicate Outside(e: ClientError) { e in {DeadlineExceeded, Refused, TransportLost, Protocol(Interrupted)} }

  /** At most one notice for each request, and none where cursors do not expire. */
  predicate FewNotices(c: Client, mayExpire: bool) { Notices(c) <= if mayExpire then |c.requests| else 0 }

  /** Where the loop stands before each request. */
  ghost predicate Standing(c: Client, body: Option<string>, requestId: string, log: seq<Event>, mayExpire: bool) {
    && InStep(c, body, requestId, log, |Numbered(c.yielded)|)
    && OnePost(c.requests) && |c.requests| == c.retries <= MAX_RETRIES && FewNotices(c, mayExpire)
    && (c.retries == 0 ==> c.yielded == []) && (c.retries > 0 ==> Resumable(c))
  }

  /** How a session against an honest server may end. */
  ghost predicate EndsWell(last: Client, ending: Ending, log: seq<Event>, mayExpire: bool) {
    && Numbered(last.yielded) <= log && OnePost(last.requests) && FewNotices(last, mayExpire)
    && (ending == Completed ==> Numbered(last.yielded) == log)
    && (ending.Failed? ==> Outside(ending.error))
  }

  ghost function StandingIn(body: Option<string>, requestId: string, log: seq<Event>, mayExpire: bool): Client -> bool {
    (c: Client) => Standing(c, body, requestId, log, mayExpire)
  }

  ghost function EndingWell(log: seq<Event>, mayExpire: bool): (Client, Ending) -> bool {
    (last: Client, ending: Ending) => EndsWell(last, ending, log, mayExpire)
  }

  /** One turn ends well, or stands again. */
  ghost predicate TurnOk(d: Decoder, c: Client, serve: Request -> seq<byte>, fate: Fate,
                         stands: Client -> bool, good: (Client, Ending) -> bool)
  {
    var sent := c.(requests := c.requests + [NextRequest(c)]);
    var (next, verdict) := AfterResponse(d, sent, serve(NextRequest(c)), fate);
    && good(c, Failed(DeadlineExceeded)) && good(sent, Failed(Refused)) && next.retries == c.retries
    && (verdict == Returned ==> good(next, Completed))
    && (!verdict.Returned? ==> good(next, Failed(verdict.error)))
    && (verdict.Retryable? && Resumable(next) && next.retries < MAX_RETRIES ==>
         stands(next.(retries := next.retries + 1)))
  }

  /** What every turn keeps, the loop keeps. */
  lemma {:induction false} SessionInduction(d: Decoder, c: Client, serve: Request -> seq<byte>, fates: nat -> Fate,
                                            stands: Client -> bool, good: (Client, Ending) -> bool)
    requires stands(c) && c.retries <= MAX_RETRIES
    requires forall c, fate :: stands(c) ==> TurnOk(d, c, serve, fate, stands, good)
    ensures good(Session(d, c, serve, fates).0, Session(d, c, serve, fates).1)
    decreases MAX_RETRIES - c.retries
  {
    var fate := fates(c.retries);
    assert TurnOk(d, c, serve, fate, stands, good);
    if !fate.late && !fate.refused {
      var sent := c.(requests := c.requests + [NextRequest(c)]);
      var (next, verdict) := AfterResponse(d, sent, serve(NextRequest(c)), fate);
      if verdict.Retryable? && next.retries < MAX_RETRIES && Resumable(next) && !fate.lateAfter {
        SessionInduction(d, next.(retries := next.retries + 1), serve, fates, stands, good);
      }
    }
  }

  /** One turn of the loop, from request to verdict. */
  lemma TurnKeepsStep(d: Decoder, c: Client, body: Option<string>, requestId: string, log: seq<Event>,
                      serve: Request -> seq<byte>, fate: Fate, mayExpire: bool)
    requires Sound(d.utf8) && LogOf(requestId, log) && Honest(d, requestId, log, serve, mayExpire)
    requires requestId != "" && (body.None? || body == Some(requestId))
    requires Standing(c, body, requestId, log, mayExpire)
    ensures TurnOk(d, c, serve, fate, StandingIn(body, requestId, log, mayExpire), EndingWell(log, mayExpire))
  {
    var n := |Numbered(c.yielded)|;
    var sent := c.(requests := c.requests + [NextRequest(c)]);
    RequestAsksForTheRest(d, c, body, requestId, log, n, serve, mayExpire);
    var k := ExchangeKeepsStep(d, sent, body, requestId, log, n, serve(NextRequest(c)), fate, mayExpire);
    TurnEnds(c, sent, AfterResponse(d, sent, serve(NextRequest(c)), fate).0, body, requestId, log, k, mayExpire);
  }

  /** From where a turn leaves the client, every ending is well and the next turn may begin. */
  lemma TurnEnds(c: Client, sent: Client, next: Client, body: Option<string>, requestId: string, log: seq<Event>,
                 k: nat, mayExpire: bool)
    requires Standing(c, body, requestId, log, mayExpire) && InStep(next, body, requestId, log, k)
    requires sent == c.(requests := c.requests + [NextRequest(c)])
    requires next.retries == sent.retries && next.requests == sent.requests
    requires Notices(next) <= Notices(sent) + (if mayExpire then 1 else 0)
    ensures forall e :: Outside(e) ==>
              && EndsWell(c, Failed(e), log, mayExpire) && EndsWell(sent, Failed(e), log, mayExpire)
              && EndsWell(next, Failed(e), log, mayExpire)
    ensures k == |log| ==> EndsWell(next, Completed, log, mayExpire)
    ensures Resumable(next) && next.retries < MAX_RETRIES ==>
              Standing(next.(retries := next.retries + 1), body, requestId, log, mayExpire)
  {
    assert |Numbered(next.yielded)| == k && log[..|log|] == log;
    assert OnePost(sent.requests);
  }

  lemma SessionKeepsStep(d: Decoder, c: Client, body: Option<string>, requestId: string, log: seq<Event>,
                         serve: Request -> seq<byte>, fates: nat -> Fate, mayExpire: bool)
    requires Sound(d.utf8) && LogOf(requestId, log) && Honest(d, requestId, log, serve, mayExpire)
    requires requestId != "" && (body.None? || body == Some(requestId))
    requires Standing(c, body, requestId, log, mayExpire)
    ensures EndsWell(Session(d, c, serve, fates).0, Session(d, c, serve, fates).1, log, mayExpire)
  {
    var stands, good := StandingIn(body, requestId, log, mayExpire), EndingWell(log, mayExpire);
    forall c, fate | stands(c) ensures TurnOk(d, c, serve, fate, stands, good) {
      TurnKeepsStep(d, c, body, requestId, log, serve, fate, mayExpire);
    }
    SessionInduction(d, c, serve, fates, stands, good);
  }

  lemma {:induction false} NumberedFits(events: seq<Event>)
    ensures |Numbered(events)| <= |events|
    ensures |Numbered(events)| == |events| ==> Numbered(events) == events
  {
    if events != [] {
      NumberedFits(events[..|events| - 1]);
      assert events == events[..|events| - 1] + [events[|events| - 1]];
    }
  }

  /**
   Against a server that replays its log after the cursor, with every response cut anywhere: the
   log's events among those yielded are a gap-free, duplicate-free prefix of the log, with at most
   one expiry notice for each request; a normal return means the whole log through its terminal
   event; at most one POST and two resumes are sent; and no failure other than a deadline, a
   refusal or a lost connection is reported. Where no cursor expires, nothing else is yielded.
   */
  lemma DeliveredExactlyOnce(d: Decoder, body: Option<string>, requestId: string, log: seq<Event>,
                             serve: Request -> seq<byte>, fates: nat -> Fate, mayExpire: bool)
    requires Sound(d.utf8) && LogOf(requestId, log) && Honest(d, requestId, log, serve, mayExpire)
    requires requestId != "" && (body.None? || body == Some(requestId))
    ensures var (last, ending) := Session(d, NewClient(body), serve, fates);
      && Numbered(last.yielded) <= log && OnePost(last.requests) && FewNotices(last, mayExpire)
      && (!mayExpire ==> last.yielded <= log)
      && (ending == Completed ==> Numbered(last.yielded) == log && IsTerminal(log[|log| - 1]))
      && (ending == Completed && !mayExpire ==> last.yielded == log)
      && (ending.Failed? ==> Outside(ending.error))
  {
    SessionKeepsStep(d, NewClient(body), body, requestId, log, serve, fates, mayExpire);
    NumberedFits(Session(d, NewClient(body), serve, fates).0.yielded);
  }

  // ---------- progress ----------

  /** In time, not refused, and cleanly ended behind everything the server sends. */
  ghost predicate Whole(serve: Request -> seq<byte>, fate: Fate) {
    && !fate.late && !fate.refused && fate.cleanEnd
    && forall r :: |serve(r)| <= fate.cut
  }

  /** In time, not refused, and lost before the terminal event. */
  ghost predicate LostEarly(d: Decoder, serve: Request -> seq<byte>, fate: Fate) {
    && !fate.late && !fate.refused && !fate.lateAfter
    && forall r :: !Feed(d, Fresh(START), Received(serve(r), fate)).terminal
  }

  /** Some of the log is still missing. */
  ghost predicate Missing(c: Client, body: Option<string>, requestId: string, log: seq<Event>) {
    Standing(c, body, requestId, log, false) && |Numbered(c.yielded)| < |log|
  }

  /** A whole answer completes what is missing. */
  lemma WholeAnswerReturns(d: Decoder, c: Client, body: Option<string>, requestId: string, log: seq<Event>,
                           serve: Request -> seq<byte>, fate: Fate)
    requires Sound(d.utf8) && LogOf(requestId, log) && Honest(d, requestId, log, serve, false)
    requires requestId != "" && (body.None? || body == Some(requestId))
    requires Missing(c, body, requestId, log) && Whole(serve, fate)
    ensures var sent := c.(requests := c.requests + [NextRequest(c)]);
      AfterResponse(d, sent, serve(NextRequest(c)), fate).1 == Returned
  {
    var n := |Numbered(c.yielded)|;
    var sent := c.(requests := c.requests + [NextRequest(c)]);
    var response := serve(NextRequest(c));
    RequestAsksForTheRest(d, c, body, requestId, log, n, serve, false);
    assert Received(response, fate) == response;
    WholeAnswerEnds(d, requestId, log, n, response);
    StretchIsAccepted(sent, body, requestId, log, n, |log|);
  }

  lemma WholeAnswerEnds(d: Decoder, requestId: string, log: seq<Event>, n: nat, response: seq<byte>)
    requires Sound(d.utf8) && LogOf(requestId, log) && Answers(d, log, n, response, false) && n < |log|
    ensures var f := Feed(d, Fresh(START), response);
      f.failure.None? && f.yielded == log[n..|log|] && End(f).failure.None?
  {
    var f := Feed(d, Fresh(START), response);
    assert Carries(d, response, log[n..]) && log[n..] == log[n..|log|];
    EndOfLogIsTerminal(requestId, log, n, |log|);
    FeedKeeps(d, Fresh(START), response);
  }

  lemma EndOfLogIsTerminal(requestId: string, log: seq<Event>, n: nat, k: nat)
    requires LogOf(requestId, log) && n < |log| && n <= k <= |log|
    ensures k == |log| <==> log[n..k] != [] && IsTerminal(log[n..k][k - n - 1])
  {
    if n < k { assert log[n..k][k - n - 1] == log[k - 1]; }
  }

  /** What is lost before its terminal event ends short of the log's end. */
  lemma EarlyLossBrings(d: Decoder, requestId: string, log: seq<Event>, n: nat, response: seq<byte>, fate: Fate)
    returns (k: nat)
    requires Sound(d.utf8) && LogOf(requestId, log) && Answers(d, log, n, response, false) && n < |log|
    requires !Feed(d, Fresh(START), Received(response, fate)).terminal
    ensures var f := Feed(d, Fresh(START), Received(response, fate));
      n <= k < |log| && f.failure.None? && f.yielded == log[n..k]
  {
    var f := Feed(d, Fresh(START), Received(response, fate));
    var notice;
    k, notice := CutFollowsLog(d, requestId, log, n, response, fate, false);
    assert f.yielded == log[n..k];
    FeedKeeps(d, Fresh(START), Received(response, fate));
    EndOfLogIsTerminal(requestId, log, n, k);
  }

  /** A response lost early leaves something missing, and a client that can ask for it once the request is named. */
  lemma EarlyLossRetries(d: Decoder, c: Client, body: Option<string>, requestId: string, log: seq<Event>,
                         serve: Request -> seq<byte>, fate: Fate)
    requires Sound(d.utf8) && LogOf(requestId, log) && Honest(d, requestId, log, serve, false)
    requires requestId != "" && (body.None? || body == Some(requestId))
    requires Missing(c, body, requestId, log) && LostEarly(d, serve, fate) && c.retries < MAX_RETRIES
    requires c.requestId.Some? || Feed(d, Fresh(START), Received(serve(NextRequest(c)), fate)).yielded != []
    ensures var sent := c.(requests := c.requests + [NextRequest(c)]);
      var (next, verdict) := AfterResponse(d, sent, serve(NextRequest(c)), fate);
      && verdict.Retryable? && Resumable(next) && next.retries == c.retries
      && Missing(next.(retries := next.retries + 1), body, requestId, log)
  {
    var n := |Numbered(c.yielded)|;
    var sent := c.(requests := c.requests + [NextRequest(c)]);
    var response := serve(NextRequest(c));
    RequestAsksForTheRest(d, c, body, requestId, log, n, serve, false);
    var f := Feed(d, Fresh(START), Received(response, fate));
    var k := EarlyLossBrings(d, requestId, log, n, response, fate);
    StretchIsAccepted(sent, body, requestId, log, n, k);
    AcceptAllKeepsRetries(sent, f.yielded);
    var next := AfterResponse(d, sent, response, fate).0;
    MissingStaysMissing(c, next, body, requestId, log, k);
  }

  /** The client after a turn that brought something short of the end. */
  lemma MissingStaysMissing(c: Client, next: Client, body: Option<string>, requestId: string, log: seq<Event>, k: nat)
    requires Missing(c, body, requestId, log) && InStep(next, body, requestId, log, k) && k < |log|
    requires next.retries == c.retries < MAX_RETRIES && next.requests == c.requests + [NextRequest(c)]
    requires c.yielded <= next.yielded && Notices(next) <= 0
    requires requestId != "" && (body.None? || body == Some(requestId)) && (body.Some? || k > 0)
    ensures Resumable(next) && Missing(next.(retries := next.retries + 1), body, requestId, log)
  {
    assert |Numbered(next.yielded)| == k;
  }

  lemma {:induction false} ArrivesFrom(d: Decoder, c: Client, body: Option<string>, requestId: string, log: seq<Event>,
                                       serve: Request -> seq<byte>, fates: nat -> Fate, k: nat)
    requires Sound(d.utf8) && LogOf(requestId, log) && Honest(d, requestId, log, serve, false)
    requires requestId != "" && (body.None? || body == Some(requestId))
    requires Missing(c, body, requestId, log) && c.retries <= k <= MAX_RETRIES && Whole(serve, fates(k))
    requires forall i :: c.retries <= i < k ==> LostEarly(d, serve, fates(i))
    requires c.retries < k ==>
               c.requestId.Some?
               || Feed(d, Fresh(START), Received(serve(NextRequest(c)), fates(c.retries))).yielded != []
    ensures Session(d, c, serve, fates).1 == Completed
    decreases k - c.retries
  {
    var sent := c.(requests := c.requests + [NextRequest(c)]);
    if c.retries == k {
      WholeAnswerReturns(d, c, body, requestId, log, serve, fates(k));
    } else {
      EarlyLossRetries(d, c, body, requestId, log, serve, fates(c.retries));
      var next := AfterResponse(d, sent, serve(NextRequest(c)), fates(c.retries)).0;
      ArrivesFrom(d, next.(retries := next.retries + 1), body, requestId, log, serve, fates, k);
    }
  }

  /**
   If one of the three responses arrives whole and in time, and those before it were only lost,
   ahead of the terminal event and once the request was named, the session completes with the log.
   */
  lemma OneWholeResponseCompletes(d: Decoder, body: Option<string>, requestId: string, log: seq<Event>,
                                  serve: Request -> seq<byte>, fates: nat -> Fate, k: nat)
    requires Sound(d.utf8) && LogOf(requestId, log) && Honest(d, requestId, log, serve, false)
    requires requestId != "" && (body.None? || body == Some(requestId))
    requires k <= MAX_RETRIES && Whole(serve, fates(k)) && forall i :: 0 <= i < k ==> LostEarly(d, serve, fates(i))
    requires k > 0 ==> body.Some? || Feed(d, Fresh(START), Received(serve(Post), fates(0))).yielded != []
    ensures var (last, ending) := Session(d, NewClient(body), serve, fates);
      ending == Completed && last.yielded == log
  {
    var c := NewClient(body);
    assert Numbered(c.yielded) == log[..0];
    assert Missing(c, body, requestId, log);
    ArrivesFrom(d, c, body, requestId, log, serve, fates, k);
    DeliveredExactlyOnce(d, body, requestId, log, serve, fates, false);
  }

  // ---------- the code ----------

  /** The generator's own variables; serve and fates stand for the server and the network. */
  class StreamQuery {
    const decoder: Decoder
    var requestId: Option<Value>
    var cursor: Option<string>
    var retries: nat
    var requests: seq<Request>
    var yielded: seq<Event>

    ghost function State(): Client reads this { Client(requestId, cursor, retries, requests, yielded) }

    constructor (decoder: Decoder, body: Option<string>)
      ensures this.decoder == decoder && State() == NewClient(body)
    {
      this.decoder := decoder;
      requestId := if body.Some? then Some(Text(body.value)) else None;
      cursor, retries, requests, yielded := None, 0, [], [];
    }

    /** The body of the inner loop. */
    method HandleEvent(e: Event) returns (error: Option<ClientError>)
      modifies this
      ensures match Accept(old(State()), e)
        case Err(x) => error == Some(x) && yielded == old(yielded) && retries == old(retries)
          && requests == old(requests)
        case Ok(next) => error == None && State() == next
    {
      if Lookup(e, "event") == Some(Text("query_started")) {
        var received := Lookup(e, "requestId");
        if requestId.Some? && received != requestId { return Some(IdentityChanged); }
        requestId := received;
      }
      var eventId := Lookup(e, "eventId");
      if eventId.Some? {
        if !eventId.value.Text? { return Some(EventIdNotText); }
        var id := eventId.value.text;
        var colon := LastColon(id, |id|);
        if colon.None? || requestId != Some(Text(id[..colon.value])) || !AllDigits(id[colon.value + 1..]) {
          return Some(CursorInvalid);
        }
        cursor := Some(id);
      }
      yielded := yielded + [e];
      return None;
    }

    method HandleEvents(events: seq<Event>) returns (error: Option<ClientError>)
      modifies this
      ensures error == AcceptAll(old(State()), events).error
      ensures yielded == AcceptAll(old(State()), events).client.yielded
      ensures retries == old(retries) && requests == old(requests)
      ensures error.None? ==> State() == AcceptAll(old(State()), events).client
    {
      ghost var goal := AcceptAll(State(), events);
      assert events[0..] == events;
      for i := 0 to |events|
        invariant AcceptAll(State(), events[i..]) == goal
        invariant retries == old(retries) && requests == old(requests)
      {
        assert events[i..][1..] == events[i + 1..];
        error := HandleEvent(events[i]);
        if error.Some? { return; }
      }
      assert events[|events|..] == [];
      return None;
    }

    method Run(serve: Request -> seq<byte>, fates: nat -> Fate) returns (ending: Ending)
      requires retries == 0
      modifies this
      ensures var (last, e) := Session(decoder, old(State()), serve, fates);
        ending == e && yielded == last.yielded && requests == last.requests
    {
      ghost var goal := Session(decoder, State(), serve, fates);
      while true
        invariant retries <= MAX_RETRIES && Session(decoder, State(), serve, fates) == goal
        decreases MAX_RETRIES - retries
      {
        var fate := fates(retries);
        if fate.late { return Failed(DeadlineExceeded); }
        var request := NextRequest(Client(requestId, cursor, retries, requests, yielded));
        requests := requests + [request];
        if fate.refused { return Failed(Refused); }
        var f := Feed(decoder, Fresh(START), Received(serve(request), fate));
        ghost var turn := AfterResponse(decoder, State(), serve(request), fate);
        AcceptAllKeepsRetries(State(), f.yielded);
        var error := HandleEvents(f.yielded);
        if error.Some? { return Failed(error.value); }
        if f.failure.Some? { return Failed(Protocol(f.failure.value)); }
        assert turn.0 == State();
        var lost := TransportLost;
        if fate.cleanEnd {
          if End(f).failure.None? { return Completed; }
          lost := Protocol(End(f).failure.value);
        }
        if retries >= MAX_RETRIES || fate.lateAfter
           || !Resumable(Client(requestId, cursor, retries, requests, yielded)) { return Failed(lost); }
        retries := retries + 1;
      }
    }
  }
}
