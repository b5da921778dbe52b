/** The chunked, non-blocking connection refines the sequential server: whatever the
    chunk sizes, short writes, EAGAINs, resumptions and timeouts are, the peer sees a
    prefix of what that server writes, and all of it when nothing cuts the exchange. */
module Refinement {
  import opened Text
  import opened Http
  import opened Exchange

  // ------------------------------------------------- what is still to be asked

  /** A request whose body is the first bytes of rest, then the requests behind. */
  function BodyRequests(r: Request, rest: string, length: nat, keep: bool, eof: bool): seq<Request> {
    if |rest| < length then if eof then [r] else []
    else [r.(body := Some(rest[..length]))] + Next(rest[length..], keep, eof)
  }

  /** The requests a coroutine at p will still ask when ext is all that is to come. */
  function Future(p: Point, keep: bool, ext: string, eof: bool): seq<Request> {
    match p
    case AtHead(data) => Requests(data + ext, keep, eof)
    case AtBody(r, body, toRead) => BodyRequests(r, body + ext, |body| + toRead, keep, eof)
    case AtSend(_, _) => Next(ext, keep, eof)
    case _ => []
  }

  /** Requests asked plus requests to come are those of the sequential server. */
  ghost predicate Balanced(w: Wire, keep: bool, p: Point) {
    forall ext, eof | w.closed ==> ext == "" && eof ::
      w.asked + Future(p, keep, ext, eof) == Requests(w.taken + ext, false, eof)
  }

  // ------------------------------------------------------------ one head

  /** No byte moves; one more request is asked exactly when its response is about to
      be sent. */
  predicate Silent(c: Conn, d: Conn, f: Callback) {
    && d.wire.inbound == c.wire.inbound && d.wire.taken == c.wire.taken && d.wire.outbound == c.wire.outbound
    && d.wire.closed == c.wire.closed && d.wire.cut == c.wire.cut
    && if d.point.AtSend? then
         && d.wire.asked != [] && d.wire.asked[..|d.wire.asked| - 1] == c.wire.asked
         && d.point == AtSend(ToString(f(d.wire.asked[|d.wire.asked| - 1])), 0)
       else d.wire.asked == c.wire.asked
  }

  lemma AnswerSilent(c: Conn, r: Request, f: Callback)
    ensures var d := Answer(c, r, f); Silent(c, d, f) && d.point.AtSend? && d.wire.rejected == c.wire.rejected
  {
    hide ToString;
    assert (c.wire.asked + [r])[..|c.wire.asked|] == c.wire.asked;
  }

  lemma BodyFromSilent(c: Conn, r: Request, body: string, toRead: nat, f: Callback)
    requires toRead < TWO_64 && !c.point.AtSend?
    ensures var d := BodyFrom(c, r, body, toRead, f);
            Silent(c, d, f) && (d.point.AtSend? || d.point.AtBody?) && d.wire.rejected == c.wire.rejected
  {
    hide ToString, Answer, Silent;
    if toRead == 0 {
      AnswerSilent(c, r.(body := Some(body)), f);
    } else {
      StillSilent(c, c.(point := AtBody(r, body, toRead)), f);
    }
  }

  lemma StillSilent(c: Conn, d: Conn, f: Callback)
    requires !d.point.AtSend?
    requires d.wire.(crossed := false, rejected := false) == c.wire.(crossed := false, rejected := false)
    ensures Silent(c, d, f)
  {
  }

  lemma CrossSilent(c: Conn, e: Conn, d: Conn, f: Callback)
    requires e.wire.(crossed := false) == c.wire.(crossed := false) && Silent(e, d, f)
    ensures Silent(c, d, f)
  {
  }

  /** Behind a head nothing is read or written. The coroutine ends after a head that is
      malformed, and then only; it throws after one that is too short; else it waits
      for a body, sends an answer, or throws at a Content-Length that is no number. */
  lemma AfterHeadSilent(c: Conn, head: Result<Request>, body: string, f: Callback)
    requires !c.point.AtSend?
    ensures var d := AfterHead(c, head, body, f);
            && Silent(c, d, f)
            && (head == Err(Malformed) <==> d.point.Done?)
            && (head == Err(OutOfRange) ==> d.point.Threw?)
            && (!d.point.Done? ==> d.point.AtBody? || d.point.AtSend? || d.point.Threw?)
            && d.wire.rejected == (c.wire.rejected || head == Err(Malformed))
  {
    hide ToString, HeaderValue, Stoull, AsksKeepAlive, Silent, SizeT, Answer, BodyFrom, Placed;
    match head
    case Err(_) => StillSilent(c, AfterHead(c, head, body, f), f);
    case Ok(r) =>
      match HeaderValue(r.headers, "Content-Length")
      case None => PlainSilent(c, r, body, f);
      case Some(v) =>
        if Stoull(v).Some? {
          LengthSilent(c, r, body, Stoull(v).value, f);
        } else {
          StillSilent(c, AfterHead(c, head, body, f), f);
        }
  }

  lemma PlainSilent(c: Conn, r: Request, body: string, f: Callback)
    requires HeaderValue(r.headers, "Content-Length") == None
    ensures var d := AfterHead(c, Ok(r), body, f);
            Silent(c, d, f) && d.point.AtSend? && d.wire.rejected == c.wire.rejected
  {
    hide ToString, HeaderValue, AsksKeepAlive, Silent, Answer, Placed;
    var keep := c.client.keepAlive || AsksKeepAlive(r);
    var g := Cross(c.(client := c.client.(keepAlive := keep)), body != "" && keep);
    AnswerSilent(g, r, f);
    CrossSilent(c, g, Answer(g, r, f), f);
  }

  lemma LengthSilent(c: Conn, r: Request, body: string, length: nat, f: Callback)
    requires !c.point.AtSend?
    requires var v := HeaderValue(r.headers, "Content-Length"); v.Some? && Stoull(v.value) == Some(length)
    ensures var d := AfterHead(c, Ok(r), body, f);
            Silent(c, d, f) && (d.point.AtSend? || d.point.AtBody?) && d.wire.rejected == c.wire.rejected
  {
    hide ToString, HeaderValue, Stoull, AsksKeepAlive, Silent, SizeT, BodyFrom, Placed;
    var keep := c.client.keepAlive || AsksKeepAlive(r);
    var g := Cross(c.(client := c.client.(keepAlive := keep)), |body| > length);
    BodyFromSilent(g, r, body, SizeT(length - |body|), f);
    CrossSilent(c, g, BodyFrom(g, r, body, SizeT(length - |body|), f), f);
  }

  /** What the sequential server leaves of its input behind a request is a proper
      suffix of it. */
  lemma RestIsSuffix(input: string)
    requires MessageOf(input).Whole?
    ensures var rest := MessageOf(input).rest; |rest| < |input| && rest == input[|input| - |rest|..]
  {
    hide RequestOf, Stoull, HeaderValue;
    var h := FirstEnd(input);
    var behind := input[h + 4..];
    BehindIsSuffix(RequestOf(input[..h + 2]), behind);
    var rest := MessageOf(input).rest;
    assert behind[|behind| - |rest|..] == input[|input| - |rest|..];
  }

  lemma BehindIsSuffix(head: Result<Request>, rest: string)
    requires MessageBehind(head, rest).Whole?
    ensures var m := MessageBehind(head, rest); m.rest == rest[|rest| - |m.rest|..]
  {
    hide Stoull, HeaderValue;
  }

  lemma HeadFound(full: string, ext: string)
    requires FirstEnd(full) < |full|
    ensures var h := FirstEnd(full);
            && FirstEnd(full + ext) == h
            && (full + ext)[..h + 2] == full[..h + 2]
            && (full + ext)[h + 4..] == full[h + 4..] + ext
  {
    FirstEndStable(full, ext);
  }

  /** What the sequential server does with a stream whose first head is known. */
  function HeadRequests(head: Result<Request>, rest: string, keep: bool, eof: bool): seq<Request> {
    match head
    case Err(_) => []
    case Ok(r) =>
      var kept := keep || AsksKeepAlive(r);
      match HeaderValue(r.headers, "Content-Length")
      case None => [r] + Next(rest, kept, eof)
      case Some(v) =>
        match Stoull(v)
        case None => []
        case Some(length) => BodyRequests(r, rest, length, kept, eof)
  }

  function MessageRequests(m: Message, keep: bool, eof: bool): seq<Request> {
    match m
    case Whole(r, rest) => [r] + Next(rest, keep || AsksKeepAlive(r), eof)
    case Short(r) => if eof then [r] else []
    case _ => []
  }

  lemma MessageByHead(head: Result<Request>, rest: string, keep: bool, eof: bool)
    ensures MessageRequests(MessageBehind(head, rest), keep, eof) == HeadRequests(head, rest, keep, eof)
  {
  }

  lemma RequestsByMessage(input: string, m: Message, keep: bool, eof: bool)
    requires MessageOf(input) == m
    ensures Requests(input, keep, eof) == MessageRequests(m, keep, eof)
  {
  }

  lemma RequestsByHead(input: string, head: Result<Request>, rest: string, keep: bool, eof: bool)
    requires MessageOf(input) == MessageBehind(head, rest)
    ensures Requests(input, keep, eof) == HeadRequests(head, rest, keep, eof)
  {
    RequestsByMessage(input, MessageBehind(head, rest), keep, eof);
    MessageByHead(head, rest, keep, eof);
  }

  lemma NoHeadNoRequests(data: string, keep: bool, eof: bool)
    requires FirstEnd(data) == |data|
    ensures Requests(data, keep, eof) == []
  {
  }

  lemma BodyComplete(r: Request, body: string, ext: string, keep: bool, eof: bool)
    ensures BodyRequests(r, body + ext, |body|, keep, eof) == [r.(body := Some(body))] + Next(ext, keep, eof)
  {
    assert (body + ext)[..|body|] == body;
    assert (body + ext)[|body|..] == ext;
  }

  /** The answer to r is sent, and what follows is read on if the connection stays. */
  lemma AnswerBalanced(c: Conn, r: Request, f: Callback)
    requires forall ext, eof | c.wire.closed ==> ext == "" && eof ::
      c.wire.asked + ([r] + Next(ext, c.client.keepAlive, eof)) == Requests(c.wire.taken + ext, false, eof)
    ensures var d := Answer(c, r, f); Balanced(d.wire, d.client.keepAlive, d.point)
  {
    hide Requests;
    var d := Answer(c, r, f);
    var keep, asked := c.client.keepAlive, c.wire.asked;
    forall ext, eof | d.wire.closed ==> ext == "" && eof
      ensures d.wire.asked + Future(d.point, keep, ext, eof) == Requests(d.wire.taken + ext, false, eof)
    {
      Associate(asked, [r], Next(ext, keep, eof));
    }
  }

  lemma BodyFromBalanced(c: Conn, r: Request, body: string, toRead: nat, f: Callback)
    requires toRead < TWO_64
    requires Balanced(c.wire, c.client.keepAlive, AtBody(r, body, toRead))
    ensures var d := BodyFrom(c, r, body, toRead, f); Balanced(d.wire, d.client.keepAlive, d.point)
  {
    hide Requests;
    if toRead == 0 {
      var keep := c.client.keepAlive;
      forall ext, eof | c.wire.closed ==> ext == "" && eof
        ensures c.wire.asked + ([r.(body := Some(body))] + Next(ext, keep, eof))
             == Requests(c.wire.taken + ext, false, eof)
      {
        BodyComplete(r, body, ext, keep, eof);
        assert c.wire.asked + Future(AtBody(r, body, 0), keep, ext, eof) == Requests(c.wire.taken + ext, false, eof);
      }
      AnswerBalanced(c, r.(body := Some(body)), f);
    }
  }

  /** Like Balanced, in the middle of a turn: the head is parsed, body was read
      behind it. */
  ghost predicate HeadBalanced(w: Wire, keep: bool, head: Result<Request>, body: string) {
    forall ext, eof | w.closed ==> ext == "" && eof ::
      w.asked + HeadRequests(head, body + ext, keep, eof) == Requests(w.taken + ext, false, eof)
  }

  lemma PlainHeadBalanced(c: Conn, r: Request, body: string, keep: bool, f: Callback)
    requires HeadBalanced(c.wire, keep, Ok(r), body) && HeaderValue(r.headers, "Content-Length") == None
    requires c.client.keepAlive == (keep || AsksKeepAlive(r))
    requires body == "" || !c.client.keepAlive
    ensures var d := Answer(c, r, f); Balanced(d.wire, d.client.keepAlive, d.point)
  {
    hide Requests;
    forall ext, eof | c.wire.closed ==> ext == "" && eof
      ensures c.wire.asked + ([r] + Next(ext, c.client.keepAlive, eof)) == Requests(c.wire.taken + ext, false, eof)
    {
      Units(ext);
      assert c.wire.asked + HeadRequests(Ok(r), body + ext, keep, eof) == Requests(c.wire.taken + ext, false, eof);
    }
    AnswerBalanced(c, r, f);
  }

  lemma LengthHeadBalanced(c: Conn, r: Request, body: string, length: nat, keep: bool, f: Callback)
    requires HeadBalanced(c.wire, keep, Ok(r), body)
    requires var v := HeaderValue(r.headers, "Content-Length"); v.Some? && Stoull(v.value) == Some(length)
    requires c.client.keepAlive == (keep || AsksKeepAlive(r))
    requires |body| <= length
    ensures var d := BodyFrom(c, r, body, SizeT(length - |body|), f); Balanced(d.wire, d.client.keepAlive, d.point)
  {
    hide Requests, ToString, HeaderValue, Stoull, BodyRequests, BodyFrom;
    var p := AtBody(r, body, length - |body|);
    forall ext, eof | c.wire.closed ==> ext == "" && eof
      ensures c.wire.asked + Future(p, c.client.keepAlive, ext, eof) == Requests(c.wire.taken + ext, false, eof)
    {
      assert c.wire.asked + HeadRequests(Ok(r), body + ext, keep, eof) == Requests(c.wire.taken + ext, false, eof);
    }
    BodyFromBalanced(c, r, body, length - |body|, f);
  }

  /** The parsed head is acted on as the sequential server does, unless bytes of a
      later request came with it. */
  lemma AfterHeadBalanced(c: Conn, head: Result<Request>, body: string, f: Callback)
    requires HeadBalanced(c.wire, c.client.keepAlive, head, body)
    ensures var d := AfterHead(c, head, body, f);
            !d.wire.crossed ==> Balanced(d.wire, d.client.keepAlive, d.point)
  {
    hide Requests, HeaderValue, Stoull, ToString, HeadRequests, AsksKeepAlive, RequestOf;
    var d := AfterHead(c, head, body, f);
    if head.Err? {
      FailedHeadBalanced(c.wire, c.client.keepAlive, head, body, d);
    } else {
      var r := head.value;
      var keep := c.client.keepAlive || AsksKeepAlive(r);
      var e := c.(client := c.client.(keepAlive := keep));
      match HeaderValue(r.headers, "Content-Length")
      case None =>
        if body == "" || !keep {
          PlainHeadBalanced(Cross(e, false), r, body, c.client.keepAlive, f);
        }
      case Some(v) =>
        match Stoull(v)
        case None => FailedHeadBalanced(c.wire, c.client.keepAlive, head, body, d);
        case Some(length) =>
          if |body| <= length {
            LengthHeadBalanced(Cross(e, false), r, body, length, c.client.keepAlive, f);
          }
    }
  }

  lemma FailedHeadBalanced(w: Wire, keep: bool, head: Result<Request>, body: string, d: Conn)
    requires HeadBalanced(w, keep, head, body)
    requires head.Ok? ==>
      var v := HeaderValue(head.value.headers, "Content-Length"); v.Some? && Stoull(v.value) == None
    requires Finished(d.point) && d.wire.asked == w.asked && d.wire.taken == w.taken && d.wire.closed == w.closed
    ensures Balanced(d.wire, d.client.keepAlive, d.point)
  {
    hide Requests;
    forall ext, eof | w.closed ==> ext == "" && eof
      ensures d.wire.asked + Future(d.point, d.client.keepAlive, ext, eof) == Requests(w.taken + ext, false, eof)
    {
      assert w.asked + HeadRequests(head, body + ext, keep, eof) == Requests(w.taken + ext, false, eof);
    }
  }

  /** Future requests do not change when a chunk moves from the socket to the locals. */
  lemma TakeBalanced(c: Conn, k: nat, p: Point)
    requires !c.wire.closed && k <= |c.wire.inbound|
    requires Balanced(c.wire, c.client.keepAlive, c.point)
    requires forall ext, eof ::
      Future(p, c.client.keepAlive, ext, eof) == Future(c.point, c.client.keepAlive, c.wire.inbound[..k] + ext, eof)
    ensures Balanced(Take(c, k).wire, c.client.keepAlive, p)
  {
    hide Requests;
    var chunk := c.wire.inbound[..k];
    forall ext, eof
      ensures c.wire.asked + Future(p, c.client.keepAlive, ext, eof)
           == Requests((c.wire.taken + chunk) + ext, false, eof)
    {
      Associate(c.wire.taken, chunk, ext);
      assert c.wire.asked + Future(c.point, c.client.keepAlive, chunk + ext, eof)
          == Requests(c.wire.taken + (chunk + ext), false, eof);
    }
  }

  lemma HeadEndBalanced(w: Wire, keep: bool, full: string)
    requires FirstEnd(full) < |full| && Balanced(w, keep, AtHead(full))
    ensures var h := FirstEnd(full); HeadBalanced(w, keep, RequestOf(full[..h + 2]), full[h + 4..])
  {
    hide Requests, RequestOf, HeadRequests;
    var h := FirstEnd(full);
    var head, body := RequestOf(full[..h + 2]), full[h + 4..];
    forall ext, eof | w.closed ==> ext == "" && eof
      ensures w.asked + HeadRequests(head, body + ext, keep, eof) == Requests(w.taken + ext, false, eof)
    {
      HeadFound(full, ext);
      RequestsByHead(full + ext, head, body + ext, keep, eof);
      assert w.asked + Future(AtHead(full), keep, ext, eof) == Requests(w.taken + ext, false, eof);
    }
  }

  lemma HeadChunkBalanced(c: Conn, k: nat, f: Callback)
    requires c.point.AtHead? && Placed(c.point) && 0 < k <= |c.wire.inbound| && !c.wire.closed
    requires Balanced(c.wire, c.client.keepAlive, c.point)
    ensures var d := OnChunk(c, k, f); !d.wire.crossed ==> Balanced(d.wire, d.client.keepAlive, d.point)
  {
    hide Requests, RequestOf, AfterHead, HeadRequests, EndAt;
    var data, chunk, keep := c.point.data, c.wire.inbound[..k], c.client.keepAlive;
    var full := data + chunk;
    forall ext, eof ensures Future(AtHead(full), keep, ext, eof) == Future(c.point, keep, chunk + ext, eof) {
      Associate(data, chunk, ext);
    }
    TakeBalanced(c, k, AtHead(full));
    WindowExact(data, chunk);
    var h := FirstEnd(full);
    if h < |full| {
      HeadEndBalanced(Take(c, k).wire, keep, full);
      AfterHeadBalanced(Take(c, k), RequestOf(full[..h + 2]), full[h + 4..], f);
    }
  }

  lemma BodyChunkBalanced(c: Conn, k: nat, f: Callback)
    requires c.point.AtBody? && Placed(c.point) && 0 < k <= |c.wire.inbound| && !c.wire.closed
    requires Balanced(c.wire, c.client.keepAlive, c.point)
    ensures var d := OnChunk(c, k, f); !d.wire.crossed ==> Balanced(d.wire, d.client.keepAlive, d.point)
  {
    hide Requests, ToString, BodyRequests;
    if k <= c.point.toRead {
      var r, body, left := c.point.request, c.point.body + c.wire.inbound[..k], c.point.toRead - k;
      forall ext, eof
        ensures Future(AtBody(r, body, left), c.client.keepAlive, ext, eof) ==
          Future(c.point, c.client.keepAlive, c.wire.inbound[..k] + ext, eof)
      {
        Associate(c.point.body, c.wire.inbound[..k], ext);
      }
      TakeBalanced(c, k, AtBody(r, body, left));
      BodyFromBalanced(Cross(Take(c, k), false), r, body, left, f);
    }
  }

  /** At the end of the stream a head in progress is dropped and a body in progress
      answered without. */
  lemma ClosedBalanced(c: Conn, f: Callback)
    requires (c.point.AtHead? || c.point.AtBody?) && Placed(c.point) && !c.wire.closed
    requires Balanced(c.wire, c.client.keepAlive, c.point)
    ensures var d := OnClosed(c, f); Balanced(d.wire, d.client.keepAlive, d.point)
  {
    hide Requests;
    var keep := c.client.keepAlive;
    var e := c.(client := c.client.(keepAlive := false), wire := c.wire.(closed := true));
    assert c.wire.asked + Future(c.point, keep, "", true) == Requests(c.wire.taken + "", false, true);
    if c.point.AtHead? {
      Units(c.point.data);
      NoHeadNoRequests(c.point.data, keep, true);
    } else {
      Units(c.point.body);
      assert Future(c.point, keep, "", true) == [c.point.request];
      Units([c.point.request]);
      AnswerBalanced(e, c.point.request, f);
    }
  }

  lemma WrittenBalanced(c: Conn, k: nat)
    requires c.point.AtSend? && 0 < k && c.point.written + k <= |c.point.text|
    requires c.client.keepAlive ==> !c.wire.closed
    requires Balanced(c.wire, c.client.keepAlive, c.point)
    ensures var d := OnWritten(c, k); Balanced(d.wire, d.client.keepAlive, d.point)
  {
    hide Requests;
    var d, keep := OnWritten(c, k), c.client.keepAlive;
    forall ext, eof | d.wire.closed ==> ext == "" && eof
      ensures d.wire.asked + Future(d.point, keep, ext, eof) == Requests(d.wire.taken + ext, false, eof)
    {
      Units(ext);
      assert c.wire.asked + Future(c.point, keep, ext, eof) == Requests(c.wire.taken + ext, false, eof);
    }
  }

  // --------------------------------------------------- what every turn keeps

  /** Control: flags and state agree with where the coroutine stands. */
  predicate Control(c: Conn) {
    && Placed(c.point)
    && (c.point.AtHead? || c.point.AtBody? ==> c.client.state == ReadingRequest)
    && (c.point.AtSend? ==> c.client.state == WritingResponse)
    && (c.wire.closed ==> !c.client.keepAlive && !c.point.AtHead? && !c.point.AtBody?)
    && (c.wire.rejected ==> c.point.Done?)
    && (c.point.Done? ==> !c.client.keepAlive || c.wire.rejected || Late(c.client, c.env.now))
    && (c.wire.cut ==> c.point.Threw? || ((c.point.Done? || c.point.AtSend?) && Late(c.client, c.env.now)))
  }

  lemma ControlAfterHead(c: Conn, head: Result<Request>, body: string, f: Callback)
    requires !c.wire.closed && !c.wire.rejected && !c.wire.cut && c.client.state == ReadingRequest
    ensures Control(AfterHead(c, head, body, f))
  {
    hide ToString, HeaderValue, Stoull, AsksKeepAlive, FirstEnd, SizeT;
  }

  lemma ControlRead(c: Conn, io: Io, f: Callback)
    requires Control(c) && (c.point.AtHead? || c.point.AtBody?)
    ensures Control(OnRead(c, io, f))
  {
    hide AfterHead, ToString, RequestOf, EndAt, SizeT;
    if c.point.AtHead? && io.Ready? && io.count > 0 && c.wire.inbound != "" {
      var k := Min(Min(io.count, BUFFER), |c.wire.inbound|);
      var full := c.point.data + c.wire.inbound[..k];
      WindowExact(c.point.data, c.wire.inbound[..k]);
      var h := FirstEnd(full);
      if h < |full| {
        ControlAfterHead(Take(c, k), RequestOf(full[..h + 2]), full[h + 4..], f);
      }
    }
  }

  lemma ControlTurn(c: Conn, f: Callback)
    requires Control(c) && Live(c)
    ensures Control(Turn(c, f))
  {
    hide OnRead, ToString, FirstEnd;
    var env := AfterClock(c.client, c.env);
    if !Late(c.client, env.now) && !c.point.AtSend? {
      ControlRead(c.(env := PopEnv(env)), PopAnswer(env), f);
    }
  }

  function Unsent(p: Point): string {
    if p.AtSend? && p.written <= |p.text| then p.text[p.written..] else ""
  }

  /** Output: every request handed over has one response, in order. */
  predicate Output(c: Conn, f: Callback) {
    && c.wire.outbound <= Responses(f, c.wire.asked)
    && (!c.wire.cut ==> c.wire.outbound + Unsent(c.point) == Responses(f, c.wire.asked))
  }

  lemma ResponsesSnoc(f: Callback, rs: seq<Request>, r: Request)
    ensures Responses(f, rs + [r]) == Responses(f, rs) + ToString(f(r))
  {
    assert (rs + [r])[..|rs|] == rs;
  }

  lemma {:induction false} ResponsesAppend(f: Callback, a: seq<Request>, b: seq<Request>)
    ensures Responses(f, a + b) == Responses(f, a) + Responses(f, b)
    decreases |b|
  {
    hide ToString, Responses;
    if b == [] {
      Units(a);
      Units(Responses(f, a));
      NoResponses(f);
    } else {
      var n := |b| - 1;
      ResponsesAppend(f, a, b[..n]);
      Associate(a, b[..n], [b[n]]);
      ResponsesSnoc(f, a + b[..n], b[n]);
      assert b == b[..n] + [b[n]];
      ResponsesSnoc(f, b[..n], b[n]);
      Associate(Responses(f, a), Responses(f, b[..n]), ToString(f(b[n])));
    }
  }

  lemma NoResponses(f: Callback)
    ensures Responses(f, []) == ""
  {
  }

  lemma AnswerOutput(c: Conn, r: Request, f: Callback)
    requires Output(c, f) && !c.point.AtSend?
    ensures Output(Answer(c, r, f), f)
  {
    hide ToString;
    ResponsesSnoc(f, c.wire.asked, r);
    Units(c.wire.outbound);
  }

  lemma BodyFromOutput(c: Conn, r: Request, body: string, toRead: nat, f: Callback)
    requires Output(c, f) && !c.point.AtSend? && toRead < TWO_64
    ensures Output(BodyFrom(c, r, body, toRead, f), f)
  {
    hide ToString, Responses;
    if toRead == 0 {
      AnswerOutput(c, r.(body := Some(body)), f);
    }
  }

  lemma AfterHeadOutput(c: Conn, head: Result<Request>, body: string, f: Callback)
    requires Output(c, f) && !c.point.AtSend?
    ensures Output(AfterHead(c, head, body, f), f)
  {
    hide ToString, Responses, BodyFrom, Answer, SizeT, Stoull, HeaderValue, AsksKeepAlive;
    if head.Ok? {
      var r := head.value;
      var keep := c.client.keepAlive || AsksKeepAlive(r);
      var e := c.(client := c.client.(keepAlive := keep));
      match HeaderValue(r.headers, "Content-Length")
      case None => AnswerOutput(Cross(e, body != "" && keep), r, f);
      case Some(v) =>
        if Stoull(v).Some? {
          var length := Stoull(v).value;
          BodyFromOutput(Cross(e, |body| > length), r, body, SizeT(length - |body|), f);
        }
    }
  }

  lemma ReadOutput(c: Conn, io: Io, f: Callback)
    requires Output(c, f) && (c.point.AtHead? || c.point.AtBody?) && Placed(c.point)
    ensures Output(OnRead(c, io, f), f)
  {
    hide ToString, Responses, BodyFrom, AfterHead, Answer, RequestOf, SizeT, EndAt;
    if io.Ready? && io.count > 0 && c.wire.inbound != "" {
      var k := Min(Min(io.count, BUFFER), |c.wire.inbound|);
      var chunk := c.wire.inbound[..k];
      match c.point
      case AtHead(data) =>
        WindowExact(data, chunk);
        var full := data + chunk;
        var h := FirstEnd(full);
        if h < |full| {
          AfterHeadOutput(Take(c, k), RequestOf(full[..h + 2]), full[h + 4..], f);
        }
      case AtBody(r, body, toRead) =>
        BodyFromOutput(Cross(Take(c, k), k > toRead), r, body + chunk, SizeT(toRead - k), f);
    } else if c.point.AtBody? && !io.Again? && !io.Failed? && !(io.Ready? && io.count > 0) {
      AnswerOutput(c.(client := c.client.(keepAlive := false), wire := c.wire.(closed := true)), c.point.request, f);
    }
  }

  lemma WrittenOutput(c: Conn, k: nat, f: Callback)
    requires Output(c, f) && !c.wire.cut
    requires c.point.AtSend? && 0 < k && c.point.written + k <= |c.point.text|
    ensures Output(OnWritten(c, k), f)
  {
    hide Responses, OnWritten, Unsent;
    var piece, rest := c.point.text[c.point.written..c.point.written + k], c.point.text[c.point.written + k..];
    WrittenParts(c, k);
    Moved(c.wire.outbound, piece, rest, Responses(f, c.wire.asked));
  }

  lemma WrittenParts(c: Conn, k: nat)
    requires c.point.AtSend? && 0 < k && c.point.written + k <= |c.point.text|
    ensures var d := OnWritten(c, k);
            var piece, rest := c.point.text[c.point.written..c.point.written + k], c.point.text[c.point.written + k..];
            && d.wire.asked == c.wire.asked && d.wire.cut == c.wire.cut && d.wire.outbound == c.wire.outbound + piece
            && Unsent(c.point) == piece + rest && Unsent(d.point) == rest
  {
    Halves(c.point.text, c.point.written, k);
  }

  lemma Moved(outbound: string, piece: string, rest: string, all: string)
    requires outbound + (piece + rest) == all
    ensures outbound + piece <= all && (outbound + piece) + rest == all
    ensures rest == "" ==> (outbound + piece) + "" == all
  {
  }

  lemma Halves(text: string, w: nat, k: nat)
    requires w + k <= |text|
    ensures text[w..] == text[w..w + k] + text[w + k..]
    ensures w + k == |text| ==> text[w + k..] == ""
  {
  }

  lemma WriteOutput(c: Conn, io: Io, f: Callback)
    requires Output(c, f) && !c.wire.cut && c.point.AtSend? && Placed(c.point)
    ensures Output(OnWrite(c, io), f)
  {
    hide Responses, OnWritten;
    if io.Ready? && io.count > 0 {
      WrittenOutput(c, Min(io.count, |c.point.text| - c.point.written), f);
    }
  }

  lemma OutputTurn(c: Conn, f: Callback)
    requires Control(c) && Output(c, f) && Live(c)
    ensures Output(Turn(c, f), f)
  {
    hide ToString, Responses, OnRead, OnWrite, Answer;
    var env := AfterClock(c.client, c.env);
    var e := c.(env := PopEnv(env));
    if Late(c.client, env.now) {
      if c.point.AtBody? {
        AnswerOutput(c.(env := env, wire := c.wire.(cut := true)), c.point.request, f);
      }
    } else if c.point.AtSend? {
      WriteOutput(e, PopAnswer(env), f);
    } else {
      ReadOutput(e, PopAnswer(env), f);
    }
  }

  /** Law: as long as nothing crossed or was cut, the exchange is balanced. */
  ghost predicate Law(c: Conn) {
    !c.wire.crossed && !c.wire.cut ==> Balanced(c.wire, c.client.keepAlive, c.point)
  }

  lemma LawRead(c: Conn, io: Io, f: Callback)
    requires Control(c) && Law(c) && (c.point.AtHead? || c.point.AtBody?)
    ensures Law(OnRead(c, io, f))
  {
    hide Balanced, Requests, BodyFrom, AfterHead, Answer, RequestOf, SizeT, EndAt, ToString;
    if !OnRead(c, io, f).wire.crossed && !OnRead(c, io, f).wire.cut {
      if io.Ready? && io.count > 0 && c.wire.inbound != "" {
        var k := Min(Min(io.count, BUFFER), |c.wire.inbound|);
        if c.point.AtHead? {
          HeadChunkBalanced(c, k, f);
        } else {
          BodyChunkBalanced(c, k, f);
        }
      } else {
        ClosedBalanced(c, f);
      }
    }
  }

  lemma LawTurn(c: Conn, f: Callback)
    requires Control(c) && Law(c) && Live(c)
    ensures Law(Turn(c, f))
  {
    hide Balanced, Requests, OnRead, OnWritten, ToString;
    var env := AfterClock(c.client, c.env);
    var e := c.(env := PopEnv(env));
    if !Late(c.client, env.now) {
      if c.point.AtSend? {
        var io := PopAnswer(env);
        if io.Ready? && io.count > 0 && !c.wire.cut && !c.wire.crossed {
          WrittenBalanced(e, Min(io.count, |c.point.text| - c.point.written));
        }
        WrittenWire(e, io);
      } else {
        LawRead(e, PopAnswer(env), f);
      }
    }
  }

  lemma WrittenWire(c: Conn, io: Io)
    requires c.point.AtSend? && Placed(c.point)
    ensures var d := OnWrite(c, io);
            && d.wire.crossed == c.wire.crossed && d.wire.taken == c.wire.taken && d.wire.closed == c.wire.closed
            && d.wire.inbound == c.wire.inbound && d.wire.asked == c.wire.asked
            && (d.wire.cut <==> c.wire.cut || d.point.Threw?)
  {
  }

  /** Bound: the peer has seen a prefix of what the sequential server would send for
      the bytes read so far. */
  predicate Bound(c: Conn, f: Callback) {
    !c.wire.crossed ==> c.wire.outbound <= Responses(f, Requests(c.wire.taken, false, c.wire.closed))
  }

  lemma BoundByLaw(c: Conn, f: Callback)
    requires Output(c, f) && Law(c) && !c.wire.cut
    ensures Bound(c, f)
  {
    hide Responses, Requests, Future;
    if !c.wire.crossed {
      var future := Future(c.point, c.client.keepAlive, "", c.wire.closed);
      Units(c.wire.taken);
      assert c.wire.asked + future == Requests(c.wire.taken + "", false, c.wire.closed);
      ResponsesAppend(f, c.wire.asked, future);
    }
  }

  /** Nothing was read or written. */
  predicate Still(c: Conn, d: Conn) {
    && d.wire.outbound == c.wire.outbound && d.wire.taken == c.wire.taken
    && d.wire.closed == c.wire.closed && d.wire.crossed == c.wire.crossed && d.wire.inbound == c.wire.inbound
  }

  lemma LateStill(c: Conn, f: Callback)
    ensures Still(c, OnLate(c, f))
  {
    hide ToString;
  }

  lemma CutWrite(c: Conn, io: Io)
    requires c.point.AtSend? && Placed(c.point) && !c.wire.cut && OnWrite(c, io).wire.cut
    ensures Still(c, OnWrite(c, io))
  {
  }

  lemma CutRead(c: Conn, io: Io, f: Callback)
    requires (c.point.AtHead? || c.point.AtBody?) && Placed(c.point) && !c.wire.cut && OnRead(c, io, f).wire.cut
    ensures Still(c, OnRead(c, io, f))
  {
    hide ToString, OnChunk;
    if io.Ready? && io.count > 0 && c.wire.inbound != "" {
      ChunkWire(c, Min(Min(io.count, BUFFER), |c.wire.inbound|), f);
    }
  }

  /** A turn that cuts the exchange, or comes after, neither reads nor writes. */
  lemma CutFreezes(c: Conn, f: Callback)
    requires Control(c) && Live(c) && Turn(c, f).wire.cut
    ensures Still(c, Turn(c, f))
  {
    hide OnLate, OnRead, OnWrite, FirstEnd;
    var env := AfterClock(c.client, c.env);
    var e := c.(env := PopEnv(env));
    if Late(c.client, env.now) {
      LateStill(c.(env := env), f);
    } else if c.point.AtSend? {
      CutWrite(e, PopAnswer(env));
    } else {
      CutRead(e, PopAnswer(env), f);
    }
  }

  ghost predicate Lawful(c: Conn, f: Callback) {
    Control(c) && Output(c, f) && Law(c) && Bound(c, f)
  }

  lemma LawfulTurn(c: Conn, f: Callback)
    requires Placed(c.point) && Lawful(c, f) && Live(c)
    ensures Lawful(Turn(c, f), f)
  {
    hide Turn, Output, Control, Law, Responses, Requests;
    ControlTurn(c, f);
    OutputTurn(c, f);
    LawTurn(c, f);
    if Turn(c, f).wire.cut {
      CutFreezes(c, f);
    } else {
      BoundByLaw(Turn(c, f), f);
    }
  }

  lemma {:induction false} LawfulDrive(c: Conn, f: Callback)
    requires Placed(c.point) && Lawful(c, f)
    ensures Lawful(Drive(c, f), f)
    decreases |c.env.answers|, Rank(c.point), Live(c)
  {
    hide Lawful, Turn;
    if Live(c) {
      LawfulTurn(c, f);
      LawfulDrive(Turn(c, f), f);
    }
  }

  lemma LawfulWoken(c: Conn, s: Slice, f: Callback)
    requires Lawful(c, f)
    ensures Lawful(Woken(c, s), f)
  {
    hide Balanced, Requests, Responses;
  }

  lemma LawfulFresh(id: nat, input: string, now: int, f: Callback)
    ensures Lawful(Fresh(id, input, now), f)
  {
    var c := Fresh(id, input, now);
    forall ext, eof
      ensures c.wire.asked + Future(c.point, false, ext, eof) == Requests(c.wire.taken + ext, false, eof)
    {
      Units(Requests("" + ext, false, eof));
    }
  }

  lemma LawfulAged(c: Conn, now: int, f: Callback)
    requires Lawful(c, f) && now >= c.env.now
    ensures Lawful(Aged(c, now), f)
  {
    hide Balanced, Responses, Requests;
  }

  lemma LawfulMarked(c: Conn, f: Callback)
    requires Lawful(c, f)
    ensures Lawful(Marked(c), f)
  {
    hide Balanced, Responses, Requests;
  }

  lemma WokenPlaced(c: Conn, s: Slice)
    requires Placed(c.point)
    ensures Placed(Woken(c, s).point)
  {
  }

  lemma LawfulThen(c: Conn, m: Moment, f: Callback)
    requires Placed(c.point) && Lawful(c, f)
    ensures Lawful(Then(c, m, f), f)
  {
    hide Lawful, Drive, Woken, Aged, Marked;
    match m
    case Wakes(s) =>
      LawfulWoken(c, s, f);
      WokenPlaced(c, s);
      LawfulDrive(Woken(c, s), f);
    case Ages(t) => LawfulAged(c, c.env.now + t, f);
    case IsMarked => LawfulMarked(c, f);
  }

  lemma {:induction false} LawfulRun(c: Conn, moments: seq<Moment>, f: Callback)
    requires Placed(c.point) && Lawful(c, f)
    ensures Lawful(Run(c, moments, f), f)
    decreases |moments|
  {
    hide Lawful, Then;
    if moments != [] {
      LawfulThen(c, moments[0], f);
      LawfulRun(Then(c, moments[0], f), moments[1..], f);
    }
  }

  // ------------------------------------------------------------ the theorems

  lemma NothingMore(c: Conn)
    requires Control(c)
    ensures Future(c.point, c.client.keepAlive, "", c.wire.closed) == []
  {
    hide RequestOf;
    match c.point
    case AtHead(data) => Units(data);
    case AtBody(_, body, _) => Units(body);
    case _ =>
  }

  /** Without a cut or a crossing, the requests asked so far are exactly those of the
      sequential server on the bytes read so far, and what is written plus what is
      still unsent is exactly its output. */
  lemma ExactSoFar(c: Conn, f: Callback)
    requires Lawful(c, f) && !c.wire.crossed && !c.wire.cut
    ensures c.wire.asked == Requests(c.wire.taken, false, c.wire.closed)
    ensures c.wire.outbound + Unsent(c.point) == Responses(f, Requests(c.wire.taken, false, c.wire.closed))
  {
    hide Future, Responses, Requests;
    NothingMore(c);
    Units(c.wire.taken);
    Units(c.wire.asked);
    assert c.wire.asked + Future(c.point, c.client.keepAlive, "", c.wire.closed)
        == Requests(c.wire.taken + "", false, c.wire.closed);
  }

  lemma MessageMore(a: string, b: string)
    requires MessageOf(a).Whole?
    ensures MessageOf(a + b) == Whole(MessageOf(a).request, MessageOf(a).rest + b)
  {
    hide RequestOf, HeaderValue, Stoull;
    HeadFound(a, b);
    var h := FirstEnd(a);
    MoreBehind(RequestOf(a[..h + 2]), a[h + 4..], b);
  }

  lemma MoreBehind(head: Result<Request>, rest: string, b: string)
    requires MessageBehind(head, rest).Whole?
    ensures var m := MessageBehind(head, rest); MessageBehind(head, rest + b) == Whole(m.request, m.rest + b)
  {
    hide RequestOf, HeaderValue, Stoull;
    match HeaderValue(head.value.headers, "Content-Length")
    case None =>
    case Some(v) =>
      var length := Stoull(v).value;
      assert (rest + b)[..length] == rest[..length];
      assert (rest + b)[length..] == rest[length..] + b;
  }

  /** More input only adds requests at the end. */
  lemma {:induction false} RequestsMonotone(a: string, b: string, keep: bool, eof: bool)
    ensures Requests(a, keep, false) <= Requests(a + b, keep, eof)
    decreases |a|
  {
    hide MessageOf, AsksKeepAlive;
    if MessageOf(a).Whole? {
      var r, rest := MessageOf(a).request, MessageOf(a).rest;
      MessageMore(a, b);
      if keep || AsksKeepAlive(r) {
        RequestsMonotone(rest, b, true, eof);
      }
    }
  }

  lemma {:induction false} StreamDrive(c: Conn, f: Callback)
    requires Placed(c.point)
    ensures Drive(c, f).wire.taken + Drive(c, f).wire.inbound == c.wire.taken + c.wire.inbound
    decreases |c.env.answers|, Rank(c.point), Live(c)
  {
    hide Turn;
    if Live(c) {
      StreamTurn(c, f);
      StreamDrive(Turn(c, f), f);
    }
  }

  lemma StreamTurn(c: Conn, f: Callback)
    requires Live(c) && Placed(c.point)
    ensures Turn(c, f).wire.taken + Turn(c, f).wire.inbound == c.wire.taken + c.wire.inbound
  {
    hide OnRead;
    var env := AfterClock(c.client, c.env);
    if !Late(c.client, env.now) && !c.point.AtSend? {
      StreamRead(c.(env := PopEnv(env)), PopAnswer(env), f);
    }
  }

  lemma SameStream(w: Wire, k: nat)
    requires k <= |w.inbound|
    ensures (w.taken + w.inbound[..k]) + w.inbound[k..] == w.taken + w.inbound
  {
    assert w.inbound == w.inbound[..k] + w.inbound[k..];
  }

  lemma StreamRead(c: Conn, io: Io, f: Callback)
    requires (c.point.AtHead? || c.point.AtBody?) && Placed(c.point)
    ensures OnRead(c, io, f).wire.taken + OnRead(c, io, f).wire.inbound == c.wire.taken + c.wire.inbound
  {
    hide RequestOf, SizeT, EndAt, ToString, HeaderValue, Stoull, AsksKeepAlive, FirstEnd;
    if io.Ready? && io.count > 0 && c.wire.inbound != "" {
      var k := Min(Min(io.count, BUFFER), |c.wire.inbound|);
      SameStream(c.wire, k);
      ChunkWire(c, k, f);
    }
  }

  lemma ChunkWire(c: Conn, k: nat, f: Callback)
    requires (c.point.AtHead? || c.point.AtBody?) && Placed(c.point) && 0 < k <= |c.wire.inbound|
    ensures var d := OnChunk(c, k, f);
            && d.wire.taken == Take(c, k).wire.taken && d.wire.inbound == Take(c, k).wire.inbound
            && d.wire.cut == c.wire.cut && d.wire.closed == c.wire.closed && d.wire.outbound == c.wire.outbound
  {
    hide OnChunk, Take, Silent;
    if c.point.AtHead? {
      HeadChunkWire(c, k, f);
    } else {
      BodyChunkWire(c, k, f);
    }
    TakeWire(c, k, OnChunk(c, k, f), f);
  }

  lemma TakeWire(c: Conn, k: nat, d: Conn, f: Callback)
    requires k <= |c.wire.inbound| && (Silent(Take(c, k), d, f) || d == Take(c, k).(point := d.point))
    ensures d.wire.taken == Take(c, k).wire.taken && d.wire.inbound == Take(c, k).wire.inbound
    ensures d.wire.cut == c.wire.cut && d.wire.closed == c.wire.closed && d.wire.outbound == c.wire.outbound
  {
  }

  lemma HeadChunkWire(c: Conn, k: nat, f: Callback)
    requires c.point.AtHead? && Placed(c.point) && 0 < k <= |c.wire.inbound|
    ensures var d := OnChunk(c, k, f); Silent(Take(c, k), d, f) || d == Take(c, k).(point := d.point)
  {
    hide RequestOf, AfterHead, EndAt, Silent;
    var data, chunk := c.point.data, c.wire.inbound[..k];
    WindowExact(data, chunk);
    var full := data + chunk;
    var h := FirstEnd(full);
    if h < |full| {
      AfterHeadSilent(Take(c, k), RequestOf(full[..h + 2]), full[h + 4..], f);
    }
  }

  lemma BodyChunkWire(c: Conn, k: nat, f: Callback)
    requires c.point.AtBody? && Placed(c.point) && 0 < k <= |c.wire.inbound|
    ensures Silent(Take(c, k), OnChunk(c, k, f), f)
  {
    hide BodyFrom, SizeT, Silent;
    var crossed := Cross(Take(c, k), k > c.point.toRead);
    var body, left := c.point.body + c.wire.inbound[..k], SizeT(c.point.toRead - k);
    BodyFromSilent(crossed, c.point.request, body, left, f);
    CrossSilent(Take(c, k), crossed, BodyFrom(crossed, c.point.request, body, left, f), f);
  }

  lemma {:induction false} StreamRun(c: Conn, moments: seq<Moment>, f: Callback)
    requires Placed(c.point)
    ensures Run(c, moments, f).wire.taken + Run(c, moments, f).wire.inbound == c.wire.taken + c.wire.inbound
    decreases |moments|
  {
    hide Drive;
    if moments != [] {
      if moments[0].Wakes? {
        StreamDrive(Woken(c, moments[0].slice), f);
      }
      StreamRun(Then(c, moments[0], f), moments[1..], f);
    }
  }

  /** Refinement over every run of one connection. Whatever the peer sends and
      whatever the kernel and the clock answer at each resumption: the requests come
      from the bytes read; every request handed to the callback has at most one
      response, in order; and unless a read crossed into the next request, the bytes
      written are a prefix of the sequential server's output on what was read, on the
      whole input while the peer has not closed, and are exactly that output but for
      the unsent rest when no timeout or error cut the exchange. */
  lemma RefinesSequential(id: nat, input: string, now: int, moments: seq<Moment>, f: Callback)
    ensures var c := Run(Fresh(id, input, now), moments, f);
            var w := c.wire;
            && w.taken + w.inbound == input
            && w.outbound <= Responses(f, w.asked)
            && (!w.crossed ==> w.outbound <= Responses(f, Requests(w.taken, false, w.closed)))
            && (!w.crossed && !w.closed ==> w.outbound <= Responses(f, Requests(input, false, false)))
            && (!w.crossed && !w.cut ==>
                  && w.asked == Requests(w.taken, false, w.closed)
                  && w.outbound + Unsent(c.point) == Responses(f, Requests(w.taken, false, w.closed)))
  {
    hide Run, Requests, Responses, Balanced;
    var c := Run(Fresh(id, input, now), moments, f);
    var w := c.wire;
    StreamRun(Fresh(id, input, now), moments, f);
    assert "" + input == input;
    LawfulFresh(id, input, now, f);
    LawfulRun(Fresh(id, input, now), moments, f);
    if !w.crossed && !w.cut {
      ExactSoFar(c, f);
    }
    if !w.crossed && !w.closed {
      var asked, more := Requests(w.taken, false, false), Requests(input, false, false);
      RequestsMonotone(w.taken, w.inbound, false, false);
      assert more == asked + more[|asked|..];
      ResponsesAppend(f, asked, more[|asked|..]);
      Prefixes(w.outbound, Responses(f, asked), Responses(f, more[|asked|..]));
    }
  }

  lemma Prefixes(a: string, b: string, c: string)
    requires a <= b
    ensures a <= b + c
  {
  }
}
