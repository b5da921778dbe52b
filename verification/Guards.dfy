/** The two branches in which a connection leaves the sequential server behind, by what
    can be seen before they are taken: the point, the connection's keep-alive and the
    bytes that the read brings. */
module Guards {
  import opened Text
  import opened Http
  import opened Exchange

  /** Bytes stand behind the request, and something will miss them: a Content-Length
      that they exceed, or a connection that goes on. */
  predicate TailOverruns(m: Message, keep: bool) {
    m.Whole? && m.rest != "" &&
    (HeaderValue(m.request.headers, "Content-Length").Some? || keep || AsksKeepAlive(m.request))
  }

  /** The chunk reaches beyond the end of the current request. */
  predicate Overruns(p: Point, keep: bool, chunk: string) {
    match p
    case AtHead(data) => TailOverruns(MessageOf(data + chunk), keep)
    case AtBody(_, _, toRead) => |chunk| > toRead
    case _ => false
  }

  /** The chunk completes a head that does not parse. */
  predicate Refuses(p: Point, chunk: string) {
    p.AtHead? && MessageOf(p.data + chunk) == Rejected
  }

  lemma AfterHeadGuards(c: Conn, head: Result<Request>, body: string, f: Callback)
    ensures var d, m := AfterHead(c, head, body, f), MessageBehind(head, body);
            && (d.wire.crossed <==> c.wire.crossed || TailOverruns(m, c.client.keepAlive))
            && (d.wire.rejected <==> c.wire.rejected || m == Rejected)
  {
    hide ToString, HeaderValue, Stoull, AsksKeepAlive, SizeT, Placed;
    if head.Ok? {
      OkGuards(c, head.value, body, f);
    }
  }

  lemma OkGuards(c: Conn, r: Request, body: string, f: Callback)
    ensures var d, m := AfterHead(c, Ok(r), body, f), MessageBehind(Ok(r), body);
            && (d.wire.crossed <==> c.wire.crossed || TailOverruns(m, c.client.keepAlive))
            && d.wire.rejected == c.wire.rejected && m != Rejected
  {
    hide ToString, HeaderValue, Stoull, SizeT, Placed;
    match HeaderValue(r.headers, "Content-Length")
    case None =>
    case Some(v) =>
      if Stoull(v).Some? && |body| >= Stoull(v).value {
        assert body[Stoull(v).value..] != "" <==> |body| > Stoull(v).value;
      }
  }

  /** A read crosses into the next request, or rejects a head, exactly under these
      guards. */
  lemma ChunkGuards(c: Conn, k: nat, f: Callback)
    requires (c.point.AtHead? || c.point.AtBody?) && Placed(c.point) && 0 < k <= |c.wire.inbound|
    ensures var d, chunk := OnChunk(c, k, f), c.wire.inbound[..k];
            && (d.wire.crossed <==> c.wire.crossed || Overruns(c.point, c.client.keepAlive, chunk))
            && (d.wire.rejected <==> c.wire.rejected || Refuses(c.point, chunk))
  {
    hide ToString, AfterHead, RequestOf, MessageBehind, EndAt, TailOverruns;
    if c.point.AtHead? {
      var data, chunk := c.point.data, c.wire.inbound[..k];
      var full := data + chunk;
      WindowExact(data, chunk);
      var h := FirstEnd(full);
      if h < |full| {
        AfterHeadGuards(Take(c, k), RequestOf(full[..h + 2]), full[h + 4..], f);
      } else {
        NoTail();
      }
    }
  }

  lemma NoTail()
    ensures forall keep :: !TailOverruns(Partial, keep)
  {
  }

  // --------------------------------------------------------------- one turn

  /** The bytes that the next turn reads, if it reads any. */
  function ReadOf(c: Conn): Option<string> {
    var env := AfterClock(c.client, c.env);
    var io := PopAnswer(env);
    if (c.point.AtHead? || c.point.AtBody?) && !Late(c.client, env.now)
      && io.Ready? && io.count > 0 && c.wire.inbound != ""
    then Some(c.wire.inbound[..Min(Min(io.count, BUFFER), |c.wire.inbound|)])
    else None
  }

  lemma ReadIsChunk(c: Conn, f: Callback)
    requires Live(c) && Placed(c.point) && ReadOf(c).Some?
    ensures var k, e := |ReadOf(c).value|, c.(env := PopEnv(AfterClock(c.client, c.env)));
            && 0 < k <= |c.wire.inbound| && k <= BUFFER && ReadOf(c).value == c.wire.inbound[..k]
            && (c.point.AtHead? || c.point.AtBody?)
            && Turn(c, f) == OnChunk(e, k, f)
  {
    hide OnChunk, OnLate;
  }

  predicate SameReads(c: Conn, d: Conn) {
    && d.wire.crossed == c.wire.crossed && d.wire.rejected == c.wire.rejected
    && d.wire.inbound == c.wire.inbound && d.wire.taken == c.wire.taken
  }

  lemma LateQuiet(c: Conn, f: Callback)
    ensures SameReads(c, OnLate(c, f))
  {
    hide ToString;
  }

  lemma WriteQuiet(c: Conn, io: Io)
    requires c.point.AtSend? && Placed(c.point)
    ensures SameReads(c, OnWrite(c, io))
  {
  }

  lemma EmptyReadQuiet(c: Conn, io: Io, f: Callback)
    requires (c.point.AtHead? || c.point.AtBody?) && Placed(c.point)
    requires !io.Ready? || io.count == 0 || c.wire.inbound == ""
    ensures SameReads(c, OnRead(c, io, f))
  {
    hide ToString, OnChunk;
  }

  /** A turn without a read neither crosses nor rejects and leaves what is read alone. */
  lemma NoReadQuiet(c: Conn, f: Callback)
    requires Live(c) && Placed(c.point) && ReadOf(c).None?
    ensures SameReads(c, Turn(c, f))
  {
    hide OnRead, OnWrite, OnLate;
    var env := AfterClock(c.client, c.env);
    if Late(c.client, env.now) {
      LateQuiet(c.(env := env), f);
    } else if c.point.AtSend? {
      WriteQuiet(c.(env := PopEnv(env)), PopAnswer(env));
    } else {
      EmptyReadQuiet(c.(env := PopEnv(env)), PopAnswer(env), f);
    }
  }

  lemma TurnGuards(c: Conn, f: Callback)
    requires Live(c) && Placed(c.point)
    ensures var d := Turn(c, f);
            && (d.wire.crossed <==>
                  c.wire.crossed || (ReadOf(c).Some? && Overruns(c.point, c.client.keepAlive, ReadOf(c).value)))
            && (d.wire.rejected <==> c.wire.rejected || (ReadOf(c).Some? && Refuses(c.point, ReadOf(c).value)))
  {
    hide Turn, OnChunk, Overruns, Refuses, ReadOf;
    if ReadOf(c).Some? {
      ReadIsChunk(c, f);
      ChunkGuards(c.(env := PopEnv(AfterClock(c.client, c.env))), |ReadOf(c).value|, f);
    } else {
      NoReadQuiet(c, f);
    }
  }
}
