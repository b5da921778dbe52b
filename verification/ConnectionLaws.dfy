/** What a connection does at each decision, in literal words: which requests keep it
    open, when it is cut or closed, how much it reads, which heads it refuses and how
    it finds the length of a body. */
module ConnectionLaws {
  import opened Text
  import opened TextLaws
  import opened Http
  import opened ParserLaws
  import opened HttpLaws
  import opened Exchange
  import opened Refinement
  import opened Guards
  import opened RoundTrip
  import opened Patience

  // ------------------------------------------------------------- keep-alive

  /** The first Connection header of the request, however it is spelled, says exactly
      Keep-Alive. */
  ghost predicate SaysKeep(r: Request) {
    FirstIs(r.headers, "connection", "Keep-Alive")
  }

  lemma AnyCase(headers: seq<Header>, a: string, b: string)
    requires SameButCase(a, b)
    ensures forall value :: FirstIs(headers, a, value) <==> FirstIs(headers, b, value)
    ensures NoneNamed(headers, a) <==> NoneNamed(headers, b)
  {
    hide SameButCase;
    forall s ensures SameButCase(s, a) <==> SameButCase(s, b) {
      OtherSpelling(s, a, b);
    }
    forall i ensures IsFirstNamed(headers, a, i) <==> IsFirstNamed(headers, b, i) {
    }
  }

  lemma Spellings()
    ensures SameButCase("Connection", "connection") && SameButCase("Content-Length", "content-length")
  {
  }

  lemma SaysKeepExact(r: Request)
    ensures AsksKeepAlive(r) <==> SaysKeep(r)
  {
    hide FirstIs, HeaderValue, SameButCase;
    Spellings();
    AnyCase(r.headers, "Connection", "connection");
    HeaderValueExact(r.headers, "Connection", "Keep-Alive");
  }

  /** A head keeps the connection open exactly if it was to be kept already or the head
      says so. */
  lemma KeepExact(c: Conn, r: Request, body: string, f: Callback)
    ensures AfterHead(c, Ok(r), body, f).client.keepAlive <==> c.client.keepAlive || SaysKeep(r)
  {
    hide HeaderValue, Stoull, ToString, AsksKeepAlive, SaysKeep, SizeT;
    SaysKeepExact(r);
  }

  ghost predicate SomeKeeps(rs: seq<Request>) {
    exists i :: 0 <= i < |rs| && SaysKeep(rs[i])
  }

  /** The flag is set exactly if one of the requests so far said so, and the coroutine
      goes on behind a response, or ends, accordingly. */
  ghost predicate KeepsAsSaid(c: Conn) {
    && (!c.wire.closed && !c.point.Threw? ==>
          (c.client.keepAlive <==> SomeKeeps(c.wire.asked) || (c.point.AtBody? && SaysKeep(c.point.request))))
    && (c.point.AtHead? && c.wire.asked != [] ==> c.client.keepAlive)
    && (c.point.Done? && !c.wire.cut && !c.wire.closed && !c.wire.rejected ==> !c.client.keepAlive)
  }

  lemma OneMoreKeeps(rs: seq<Request>, r: Request)
    ensures SomeKeeps(rs + [r]) <==> SomeKeeps(rs) || SaysKeep(r)
  {
    hide SaysKeep;
    var all := rs + [r];
    assert all[|rs|] == r;
    forall i | 0 <= i < |rs| ensures all[i] == rs[i] {
    }
  }

  lemma BodySaysSame(r: Request, body: Option<string>)
    ensures SaysKeep(r.(body := body)) <==> SaysKeep(r)
  {
    hide FirstIs;
  }

  lemma AnswerKeeps(c: Conn, r: Request, f: Callback)
    requires !c.wire.closed && (c.client.keepAlive <==> SomeKeeps(c.wire.asked) || SaysKeep(r))
    ensures KeepsAsSaid(Answer(c, r, f))
  {
    hide ToString, SaysKeep, SomeKeeps;
    OneMoreKeeps(c.wire.asked, r);
  }

  lemma BodyFromKeeps(c: Conn, r: Request, body: string, toRead: nat, f: Callback)
    requires toRead < TWO_64 && !c.wire.closed
    requires c.client.keepAlive <==> SomeKeeps(c.wire.asked) || SaysKeep(r)
    ensures KeepsAsSaid(BodyFrom(c, r, body, toRead, f))
  {
    hide Answer, SaysKeep, SomeKeeps;
    BodySaysSame(r, Some(body));
    if toRead == 0 {
      AnswerKeeps(c, r.(body := Some(body)), f);
    }
  }

  lemma AfterHeadKeeps(c: Conn, head: Result<Request>, body: string, f: Callback)
    requires c.point.AtHead? && !c.wire.closed && KeepsAsSaid(c)
    ensures KeepsAsSaid(AfterHead(c, head, body, f))
  {
    hide ToString, HeaderValue, Stoull, AsksKeepAlive, SaysKeep, SomeKeeps, SizeT, Answer, BodyFrom;
    if head.Ok? {
      var r := head.value;
      SaysKeepExact(r);
      var keep := c.client.keepAlive || AsksKeepAlive(r);
      var e := c.(client := c.client.(keepAlive := keep));
      match HeaderValue(r.headers, "Content-Length")
      case None => AnswerKeeps(Cross(e, body != "" && keep), r, f);
      case Some(v) =>
        if Stoull(v).Some? {
          BodyFromKeeps(Cross(e, |body| > Stoull(v).value), r, body, SizeT(Stoull(v).value - |body|), f);
        }
    }
  }

  lemma ChunkKeeps(c: Conn, k: nat, f: Callback)
    requires (c.point.AtHead? || c.point.AtBody?) && Placed(c.point) && 0 < k <= |c.wire.inbound|
    requires !c.wire.closed && KeepsAsSaid(c)
    ensures KeepsAsSaid(OnChunk(c, k, f))
  {
    hide RequestOf, AfterHead, BodyFrom, SizeT, EndAt, SaysKeep, SomeKeeps;
    var chunk := c.wire.inbound[..k];
    match c.point
    case AtHead(data) =>
      WindowExact(data, chunk);
      var full := data + chunk;
      var h := FirstEnd(full);
      if h < |full| {
        AfterHeadKeeps(Take(c, k), RequestOf(full[..h + 2]), full[h + 4..], f);
      }
    case AtBody(r, body, toRead) =>
      BodyFromKeeps(Cross(Take(c, k), k > toRead), r, body + chunk, SizeT(toRead - k), f);
  }

  lemma ReadKeeps(c: Conn, io: Io, f: Callback)
    requires (c.point.AtHead? || c.point.AtBody?) && Placed(c.point) && !c.wire.closed && KeepsAsSaid(c)
    ensures KeepsAsSaid(OnRead(c, io, f))
  {
    hide OnChunk, ToString, SaysKeep, SomeKeeps;
    if io.Ready? && io.count > 0 && c.wire.inbound != "" {
      ChunkKeeps(c, Min(Min(io.count, BUFFER), |c.wire.inbound|), f);
    }
  }

  lemma WriteKeeps(c: Conn, io: Io)
    requires c.point.AtSend? && Placed(c.point) && KeepsAsSaid(c)
    ensures KeepsAsSaid(OnWrite(c, io))
  {
    hide SaysKeep, SomeKeeps;
  }

  lemma LateKeeps(c: Conn, f: Callback)
    requires Live(c) && KeepsAsSaid(c) && (c.point.AtBody? ==> !c.wire.closed)
    ensures KeepsAsSaid(OnLate(c, f))
  {
    hide Answer, SaysKeep, SomeKeeps;
    if c.point.AtBody? {
      AnswerKeeps(c.(wire := c.wire.(cut := true)), c.point.request, f);
    }
  }

  lemma TurnKeeps(c: Conn, f: Callback)
    requires Live(c) && Control(c) && KeepsAsSaid(c)
    ensures KeepsAsSaid(Turn(c, f))
  {
    hide OnRead, OnWrite, OnLate, KeepsAsSaid, FirstEnd;
    var env := AfterClock(c.client, c.env);
    var e := c.(env := PopEnv(env));
    KeepsOverTime(c, env, PopEnv(env));
    if Late(c.client, env.now) {
      LateKeeps(c.(env := env), f);
    } else if c.point.AtSend? {
      WriteKeeps(e, PopAnswer(env));
    } else {
      ReadKeeps(e, PopAnswer(env), f);
    }
  }

  lemma KeepsOverTime(c: Conn, env: Env, later: Env)
    requires KeepsAsSaid(c)
    ensures KeepsAsSaid(c.(env := env)) && KeepsAsSaid(c.(env := later))
  {
    hide SaysKeep, SomeKeeps;
  }

  lemma {:induction false} DriveKeeps(c: Conn, f: Callback)
    requires Placed(c.point) && Control(c) && KeepsAsSaid(c)
    ensures KeepsAsSaid(Drive(c, f))
    decreases |c.env.answers|, Rank(c.point), Live(c)
  {
    hide Turn, Control, KeepsAsSaid;
    if Live(c) {
      TurnKeeps(c, f);
      ControlTurn(c, f);
      DriveKeeps(Turn(c, f), f);
    }
  }

  lemma ThenKeeps(c: Conn, m: Moment, f: Callback)
    requires Placed(c.point) && Lawful(c, f) && KeepsAsSaid(c)
    ensures KeepsAsSaid(Then(c, m, f))
  {
    hide Drive, Lawful, SaysKeep, SomeKeeps, Control;
    if m.Wakes? {
      WokenPlaced(c, m.slice);
      LawfulWoken(c, m.slice, f);
      LawfulControl(Woken(c, m.slice), f);
      DriveKeeps(Woken(c, m.slice), f);
    }
  }

  lemma {:induction false} RunKeepsAsSaid(c: Conn, moments: seq<Moment>, f: Callback)
    requires Placed(c.point) && Lawful(c, f) && KeepsAsSaid(c)
    ensures KeepsAsSaid(Run(c, moments, f))
    decreases |moments|
  {
    hide Then, Lawful, KeepsAsSaid;
    if moments != [] {
      ThenKeeps(c, moments[0], f);
      LawfulThen(c, moments[0], f);
      RunKeepsAsSaid(Then(c, moments[0], f), moments[1..], f);
    }
  }

  /** Over any run of any connection, keep-alive is on exactly if one of the requests so
      far said so; a coroutine waits for a request behind a response only then, and ends
      by itself only else. */
  lemma KeepOverRuns(id: nat, input: string, now: int, moments: seq<Moment>, f: Callback)
    ensures KeepsAsSaid(Run(Fresh(id, input, now), moments, f))
  {
    hide Run, Lawful, SaysKeep;
    LawfulFresh(id, input, now, f);
    RunKeepsAsSaid(Fresh(id, input, now), moments, f);
  }

  /** Which requests a sequential server reads behind the first. */
  lemma RequestsGoOn(r: Request, ext: string, eof: bool)
    requires Writable(r)
    ensures Requests(RequestText(r) + ext, false, eof) == if SaysKeep(r) then [r] + Requests(ext, true, eof) else [r]
  {
    hide MessageOf, RequestText, Writable, AsksKeepAlive, SaysKeep;
    MessageOfWritten(r, ext);
    SaysKeepExact(r);
    Units([r]);
  }

  /** One written request, from a connection of its own: when its response is out,
      uncut, the connection waits for another request if the request said Keep-Alive, and
      has ended if not. */
  lemma OneRequestEnds(r: Request, id: nat, now: int, moments: seq<Moment>, f: Callback)
    requires Writable(r)
    ensures var c := Run(Fresh(id, RequestText(r), now), moments, f);
            !c.wire.cut && !c.wire.closed && c.wire.outbound == ToString(f(r)) ==>
              if SaysKeep(r) then c.client.keepAlive && c.point.AtHead? && c.client.state == ReadingRequest
              else !c.client.keepAlive && c.point.Done?
  {
    hide Run, Lawful, Writable, RequestText, ToString, SaysKeep, KeepsAsSaid, Control, Paced, PatientRun, Requests;
    var c := Run(Fresh(id, RequestText(r), now), moments, f);
    RequestRoundTrip(r, id, now, moments, f);
    OneRequest(r);
    Units(RequestText(r));
    LawfulFresh(id, RequestText(r), now, f);
    LawfulRun(Fresh(id, RequestText(r), now), moments, f);
    LawfulControl(c, f);
    SingleRunIsPatient(Fresh(id, RequestText(r), now), r, moments, f);
    PacedFresh(id, [r], now);
    PacedRun(Fresh(id, RequestText(r), now), [r], moments, f);
    KeepOverRuns(id, RequestText(r), now, moments, f);
    if !c.wire.cut && !c.wire.closed && c.wire.outbound == ToString(f(r)) {
      NotNothing(c, r, f);
      EndIs(c, r, f);
    }
  }

  lemma NotNothing(c: Conn, r: Request, f: Callback)
    requires c.wire.outbound == ToString(f(r)) && Lawful(c, f)
    ensures c.wire.asked != []
  {
    hide ToString, Control, Law, Bound;
    NoResponses(f);
  }

  lemma EndIs(c: Conn, r: Request, f: Callback)
    requires Lawful(c, f) && Control(c) && Paced(c, [r]) && KeepsAsSaid(c) && c.wire.asked != []
    requires c.wire.inbound == "" ==> c.wire.asked == [r] && c.wire.outbound + Unsent(c.point) == ToString(f(r))
    requires c.wire.inbound != "" ==> c.wire.asked == []
    requires !c.wire.cut && !c.wire.closed && c.wire.outbound == ToString(f(r))
    ensures if SaysKeep(r) then c.client.keepAlive && c.point.AtHead? && c.client.state == ReadingRequest
            else !c.client.keepAlive && c.point.Done?
  {
    hide Lawful, ToString, SaysKeep, StreamText, FirstEnd;
    assert c.wire.asked == [r];
    assert |Unsent(c.point)| == 0;
    assert SomeKeeps([r]) <==> SaysKeep(r) by {
      OneMoreKeeps([], r);
      assert [] + [r] == [r];
    }
  }

  // ------------------------------------------------- late, cut, closed, read

  /** What the clock shows when an iteration asks whether the client is late. */
  function Reading(c: Conn): int {
    if c.client.marked || c.env.ticks == [] then c.env.now else c.env.now + c.env.ticks[0]
  }

  /** Its next answer from the kernel, EAGAIN when there is none. */
  function Reply(c: Conn): Io {
    if c.env.answers == [] then Again else c.env.answers[0]
  }

  /** A client is late exactly if it is marked or more than ten seconds old. */
  predicate OutOfTime(c: Conn) {
    c.client.marked || Reading(c) - c.client.start > 10_000_000_000
  }

  lemma OutOfTimeExact(c: Conn)
    ensures OutOfTime(c) <==> Late(c.client, AfterClock(c.client, c.env).now)
    ensures AfterClock(c.client, c.env).now == Reading(c) && PopAnswer(AfterClock(c.client, c.env)) == Reply(c)
  {
  }

  /** The read or write of this iteration fails: any failure, and for a write also a
      closed connection and a count of 0. */
  predicate Fails(c: Conn) {
    || Reply(c) == Failed
    || (c.point.AtSend? && (Reply(c) == Closed || Reply(c) == Ready(0)))
  }

  /** The read of this iteration finds the end of the stream. */
  predicate Ends(c: Conn) {
    (c.point.AtHead? || c.point.AtBody?) && (Reply(c) == Closed || Reply(c) == Ready(0))
  }

  predicate Cuts(c: Conn, d: Conn, cut: bool, closed: bool) {
    && (d.wire.cut <==> c.wire.cut || cut)
    && (d.wire.closed <==> c.wire.closed || closed)
  }

  lemma LateCuts(c: Conn, f: Callback)
    ensures Cuts(c, OnLate(c, f), true, false)
    ensures if c.point.AtBody? then OnLate(c, f).point == AtSend(ToString(f(c.point.request)), 0)
            else OnLate(c, f).point == Done
  {
    hide ToString;
  }

  lemma WriteCuts(c: Conn, io: Io)
    requires c.point.AtSend? && Placed(c.point)
    ensures var failed := io == Failed || io == Closed || io == Ready(0);
            Cuts(c, OnWrite(c, io), failed, false) && (failed <==> OnWrite(c, io).point.Threw?)
  {
  }

  lemma ReadCuts(c: Conn, io: Io, f: Callback)
    requires (c.point.AtHead? || c.point.AtBody?) && Placed(c.point)
    ensures Cuts(c, OnRead(c, io, f), io == Failed, io == Closed || io == Ready(0))
    ensures io == Failed ==> OnRead(c, io, f).point.Threw?
  {
    hide ToString, OnChunk;
    if io.Ready? && io.count > 0 && c.wire.inbound != "" {
      ChunkWire(c, Min(Min(io.count, BUFFER), |c.wire.inbound|), f);
    }
  }

  /** When an exchange is cut, exactly: a client that is marked or more than ten seconds
      old, or in time a read or write that fails. So an unmarked client within ten seconds
      is never cut by the clock. */
  lemma TurnCuts(c: Conn, f: Callback)
    requires Live(c) && Placed(c.point)
    ensures Turn(c, f).wire.cut <==> c.wire.cut || OutOfTime(c) || Fails(c)
    ensures Turn(c, f).wire.closed <==> c.wire.closed || (!OutOfTime(c) && Ends(c))
    ensures OutOfTime(c) && !c.point.AtBody? ==> Turn(c, f).point == Done
    ensures OutOfTime(c) && c.point.AtBody? ==> Turn(c, f).point == AtSend(ToString(f(c.point.request)), 0)
    ensures !OutOfTime(c) && Fails(c) ==> Turn(c, f).point.Threw?
  {
    hide OnLate, OnRead, OnWrite, Late, ToString, OutOfTime, Reply;
    OutOfTimeExact(c);
    var env := AfterClock(c.client, c.env);
    var e := c.(env := PopEnv(env));
    if OutOfTime(c) {
      LateCuts(c.(env := env), f);
    } else if c.point.AtSend? {
      WriteCuts(e, PopAnswer(env));
    } else {
      ReadCuts(e, PopAnswer(env), f);
    }
  }

  /** How much a read takes: no more than 400 bytes, than are ready, and than come. */
  lemma ReadOfExact(c: Conn)
    requires c.point.AtHead? || c.point.AtBody?
    ensures ReadOf(c).Some? <==> !OutOfTime(c) && Reply(c).Ready? && Reply(c).count > 0 && c.wire.inbound != ""
    ensures ReadOf(c).Some? ==>
      && ReadOf(c).value <= c.wire.inbound && |ReadOf(c).value| <= 400
      && |ReadOf(c).value| <= Reply(c).count
      && |ReadOf(c).value| in {400, Reply(c).count, |c.wire.inbound|}
  {
    OutOfTimeExact(c);
  }

  // ------------------------------------------------------------ refused heads

  /** The text up to its first blank line is no request: another method, version or
      start line, or a header line without a colon. */
  ghost predicate NoRequest(head: string) {
    (forall s, last :: !StartIs(LineOf(head), s, last)) || BlockFails(AfterLine(head))
  }

  lemma NoRequestExact(input: string)
    requires FirstEnd(input) < |input|
    ensures MessageOf(input) == Rejected <==> NoRequest(input[..FirstEnd(input) + 2])
  {
    hide RequestOf, HeaderValue, Stoull, StartIs, BlockFails, FirstEnd;
    RequestRefused(input[..FirstEnd(input) + 2]);
  }

  /** A connection whose peer starts with such a head. */
  predicate Doomed(c: Conn, input: string) {
    && c.wire.taken + c.wire.inbound == input && c.wire.asked == [] && c.wire.outbound == ""
    && (c.point.AtHead? || Finished(c.point))
    && (c.point.AtHead? ==> c.point.data == c.wire.taken)
    && (c.point.Threw? ==> c.wire.cut)
  }

  lemma DoomedChunk(c: Conn, k: nat, input: string, f: Callback)
    requires c.point.AtHead? && Placed(c.point) && Doomed(c, input) && 0 < k <= |c.wire.inbound|
    requires FirstEnd(input) < |input| && MessageOf(input) == Rejected
    ensures Doomed(OnChunk(c, k, f), input)
  {
    hide RequestOf, EndAt, HeaderValue, Stoull, AsksKeepAlive, ToString;
    var full := c.point.data + c.wire.inbound[..k];
    SameStream(c.wire, k);
    WindowExact(c.point.data, c.wire.inbound[..k]);
    var h := FirstEnd(full);
    if h < |full| {
      HeadFound(full, c.wire.inbound[k..]);
      assert full + c.wire.inbound[k..] == input;
    }
  }

  lemma DoomedTurn(c: Conn, input: string, f: Callback)
    requires Live(c) && Placed(c.point) && Doomed(c, input)
    requires FirstEnd(input) < |input| && MessageOf(input) == Rejected
    ensures Doomed(Turn(c, f), input)
  {
    hide OnChunk, MessageOf, FirstEnd;
    if ReadOf(c).Some? {
      ReadIsChunk(c, f);
      DoomedChunk(c.(env := PopEnv(AfterClock(c.client, c.env))), |ReadOf(c).value|, input, f);
    }
  }

  lemma {:induction false} DoomedDrive(c: Conn, input: string, f: Callback)
    requires Placed(c.point) && Doomed(c, input)
    requires FirstEnd(input) < |input| && MessageOf(input) == Rejected
    ensures Doomed(Drive(c, f), input)
    decreases |c.env.answers|, Rank(c.point), Live(c)
  {
    hide Turn, Doomed, MessageOf, FirstEnd;
    if Live(c) {
      DoomedTurn(c, input, f);
      DoomedDrive(Turn(c, f), input, f);
    }
  }

  lemma {:induction false} DoomedRun(c: Conn, input: string, moments: seq<Moment>, f: Callback)
    requires Placed(c.point) && Doomed(c, input)
    requires FirstEnd(input) < |input| && MessageOf(input) == Rejected
    ensures Doomed(Run(c, moments, f), input)
    decreases |moments|
  {
    hide Drive, MessageOf, FirstEnd;
    if moments != [] {
      if moments[0].Wakes? {
        WokenPlaced(c, moments[0].slice);
        DoomedDrive(Woken(c, moments[0].slice), input, f);
      }
      DoomedRun(Then(c, moments[0], f), input, moments[1..], f);
    }
  }

  /** A peer whose first head is no request, in any chunks with any pauses: nothing is
      asked of the callback, not a byte is sent, and once the head has been read the
      coroutine has ended. */
  lemma RefusedHead(id: nat, input: string, now: int, moments: seq<Moment>, f: Callback)
    requires FirstEnd(input) < |input| && NoRequest(input[..FirstEnd(input) + 2])
    ensures var c := Run(Fresh(id, input, now), moments, f);
            && c.wire.asked == [] && c.wire.outbound == ""
            && (|c.wire.taken| >= FirstEnd(input) + 4 ==> Finished(c.point))
            && (Finished(c.point) && !c.wire.cut ==> c.point.Done?)
  {
    hide Run, MessageOf, FirstEnd, NoRequest;
    NoRequestExact(input);
    FreshDoomed(id, input, now);
    DoomedRun(Fresh(id, input, now), input, moments, f);
    var c := Run(Fresh(id, input, now), moments, f);
    if |c.wire.taken| >= FirstEnd(input) + 4 && c.point.AtHead? {
      HeadInside(c.wire.taken, c.wire.inbound);
    }
  }

  lemma FreshDoomed(id: nat, input: string, now: int)
    ensures Doomed(Fresh(id, input, now), input)
  {
    Units(input);
  }

  lemma HeadInside(taken: string, rest: string)
    requires FirstEnd(taken + rest) < |taken + rest| && |taken| >= FirstEnd(taken + rest) + 4
    ensures FirstEnd(taken) < |taken|
  {
    var h := FirstEnd(taken + rest);
    assert EndAt(taken + rest, h);
    assert EndAt(taken, h);
  }

  /** In particular any other method than GET and POST. */
  lemma OtherMethodRefused(head: string)
    requires !("GET " <= head) && !("POST " <= head)
    ensures NoRequest(head)
  {
    FirstCut(head);
    forall s, last ensures !StartIs(LineOf(head), s, last) {
      if StartIs(LineOf(head), s, last) {
        StartsWith(LineOf(head), s, last);
      }
    }
  }

  lemma StartsWith(line: string, s: StartLine, last: char)
    requires StartIs(line, s, last)
    ensures (if s.method_ == GET then "GET " else "POST ") <= line
  {
  }

  // --------------------------------------------------------- length of a body

  /** How the length of a body is found: by the first Content-Length header, however it
      is spelled; without one there is no body. */
  lemma BodyExact(r: Request, rest: string)
    ensures NoneNamed(r.headers, "content-length") ==> MessageBehind(Ok(r), rest) == Whole(r, rest)
    ensures forall v | FirstIs(r.headers, "content-length", v) ::
      match Stoull(v)
      case None => MessageBehind(Ok(r), rest) == Crashing
      case Some(n) =>
        if |rest| < n then MessageBehind(Ok(r), rest) == Short(r)
        else MessageBehind(Ok(r), rest) == Whole(r.(body := Some(rest[..n])), rest[n..])
  {
    hide FirstIs, HeaderValue, SameButCase, Stoull;
    Spellings();
    AnyCase(r.headers, "Content-Length", "content-length");
    forall v ensures FirstIs(r.headers, "Content-Length", v) <==> HeaderValue(r.headers, "Content-Length") == Some(v) {
      HeaderValueExact(r.headers, "Content-Length", v);
    }
    HeaderValueExact(r.headers, "Content-Length", "");
  }

  /** The same for the connection: it asks at once, or waits for what is missing, in the
      count of a size_t when too much has been read. */
  lemma AfterHeadExactly(c: Conn, r: Request, body: string, f: Callback)
    requires |body| < 18446744073709551616
    ensures var d := AfterHead(c, Ok(r), body, f);
            && (NoneNamed(r.headers, "content-length") ==> d.point.AtSend? && d.wire.asked == c.wire.asked + [r])
            && forall v | FirstIs(r.headers, "content-length", v) ::
                 match Stoull(v)
                 case None => d.point.Threw? && d.wire.asked == c.wire.asked
                 case Some(n) =>
                   if n == |body| then d.point.AtSend? && d.wire.asked == c.wire.asked + [r.(body := Some(body))]
                   else d.wire.asked == c.wire.asked &&
                        d.point == AtBody(r, body, if |body| < n then n - |body| else 18446744073709551616 + n - |body|)
  {
    hide FirstIs, HeaderValue, SameButCase, Stoull, ToString, AsksKeepAlive;
    Spellings();
    AnyCase(r.headers, "Content-Length", "content-length");
    forall v ensures FirstIs(r.headers, "Content-Length", v) <==> HeaderValue(r.headers, "Content-Length") == Some(v) {
      HeaderValueExact(r.headers, "Content-Length", v);
    }
    HeaderValueExact(r.headers, "Content-Length", "");
    if HeaderValue(r.headers, "Content-Length").Some? {
      var v := HeaderValue(r.headers, "Content-Length").value;
      if Stoull(v).Some? {
        SizeTExact(Stoull(v).value, |body|);
      }
    }
  }
}
