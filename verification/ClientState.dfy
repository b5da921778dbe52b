/** src/http/ClientState.cpp as it stands: the three non-blocking loops over the
    descriptor. A suspended coroutine is its loop's locals, so yield leaves the loop
    with them and a resumption enters it again. */
module ClientStates {
  import opened Text
  import opened Http
  import opened Exchange
  import opened Scheduler

  datatype ReadResult = Bytes(chunk: string) | ReadWouldBlock | EndOfFile | ReadError

  datatype WriteResult = Wrote(count: nat) | WriteWouldBlock | WriteError

  /** What a read of at most size bytes returns when that much is to come. */
  function ReadResultOf(io: Io, inbound: string, size: nat): ReadResult {
    match io
    case Again => ReadWouldBlock
    case Failed => ReadError
    case Closed => EndOfFile
    case Ready(n) =>
      if n == 0 then EndOfFile
      else if inbound == "" then ReadWouldBlock
      else Bytes(inbound[..Min(Min(n, size), |inbound|)])
  }

  function WriteResultOf(io: Io, data: string): WriteResult {
    match io
    case Again => WriteWouldBlock
    case Failed => WriteError
    case Closed => WriteError
    case Ready(n) => Wrote(Min(n, |data|))
  }

  function TookFrom(w: Wire, k: nat): Wire
    requires k <= |w.inbound|
  {
    w.(inbound := w.inbound[k..], taken := w.taken + w.inbound[..k])
  }

  /** The descriptors, the clock and epoll, answering from env. wires mirrors the
      sockets and adds their history. */
  class Kernel {
    var inbound: map<int, string>
    var outbound: map<int, string>
    var armed: map<int, Interest>
    var env: Env
    ghost var wires: map<int, Wire>
    ghost var gone: seq<Gone>

    ghost predicate Valid()
      reads this`inbound, this`outbound, this`wires
    {
      && inbound.Keys == wires.Keys && outbound.Keys == wires.Keys
      && forall fd | fd in wires :: wires[fd].inbound == inbound[fd] && wires[fd].outbound == outbound[fd]
    }

    constructor (now: int)
      ensures Valid() && wires == map[] && armed == map[] && gone == [] && env == Env(now, [], [])
    {
      inbound, outbound, armed, env := map[], map[], map[], Env(now, [], []);
      wires, gone := map[], [];
    }

    /** accept4 and EPOLL_CTL_ADD; input is all that the peer will send. */
    method Open(fd: int, input: string)
      requires Valid() && fd !in wires
      modifies this`inbound, this`outbound, this`wires, this`armed
      ensures Valid() && wires == old(wires)[fd := UNUSED.(inbound := input)] && armed == old(armed)[fd := In]
    {
      inbound, outbound, armed := inbound[fd := input], outbound[fd := ""], armed[fd := In];
      wires := wires[fd := UNUSED.(inbound := input)];
    }

    /** close(2), which also takes the descriptor out of epoll */
    method Close(fd: int)
      requires Valid() && fd in wires
      modifies this`inbound, this`outbound, this`wires, this`armed, this`gone
      ensures Valid() && wires == old(wires) - {fd} && armed == old(armed) - {fd}
      ensures gone == old(gone) + [Gone(fd, old(wires)[fd])]
    {
      inbound, outbound, armed := inbound - {fd}, outbound - {fd}, armed - {fd};
      gone := gone + [Gone(fd, wires[fd])];
      wires := wires - {fd};
    }

    /** Whether a descriptor is open; events are of open ones only. */
    method IsOpen(fd: int) returns (b: bool)
      requires Valid()
      ensures b == (fd in wires)
    {
      return fd in inbound;
    }

    /** EPOLL_CTL_MOD */
    method Arm(fd: int, interest: Interest)
      modifies this`armed
      ensures armed == old(armed)[fd := interest]
    {
      armed := armed[fd := interest];
    }

    /** Time passes before a coroutine is resumed. */
    method Begin(s: Slice)
      modifies this`env
      ensures env == Env(old(env).now + s.elapsed, s.ticks, s.answers)
    {
      env := Env(env.now + s.elapsed, s.ticks, s.answers);
    }

    /** Time passes until the event loop looks at the clock. */
    method Pass(t: nat)
      modifies this`env
      ensures env == Env(old(env).now + t, [], [])
    {
      env := Env(env.now + t, [], []);
    }

    /** Adds a fact to the history of a descriptor. */
    ghost method Note(fd: int, w: Wire)
      requires Valid() && fd in wires && w.inbound == wires[fd].inbound && w.outbound == wires[fd].outbound
      modifies this`wires
      ensures Valid() && fd in wires && wires[fd] == w && wires - {fd} == old(wires) - {fd}
    {
      wires := wires[fd := w];
    }

    method Clock() returns (now: int)
      modifies this`env
      ensures env == ReadClock(old(env)) && now == env.now
    {
      if env.ticks != [] {
        env := env.(now := env.now + env.ticks[0], ticks := env.ticks[1..]);
      }
      return env.now;
    }

    method NextAnswer() returns (io: Io)
      modifies this`env
      ensures io == PopAnswer(old(env)) && env == PopEnv(old(env))
    {
      if env.answers == [] {
        return Again;
      }
      io := env.answers[0];
      env := env.(answers := env.answers[1..]);
    }

    /** read(2) on a non-blocking socket */
    method Read(fd: int, size: nat) returns (r: ReadResult)
      requires Valid() && fd in wires
      modifies this`env, this`inbound, this`wires
      ensures Valid() && env == PopEnv(old(env))
      ensures r == ReadResultOf(PopAnswer(old(env)), old(wires)[fd].inbound, size)
      ensures r.Bytes? ==> |r.chunk| <= |old(wires)[fd].inbound|
      ensures fd in wires && wires - {fd} == old(wires) - {fd}
      ensures wires[fd] == if r.Bytes? then TookFrom(old(wires)[fd], |r.chunk|) else old(wires)[fd]
    {
      var io := NextAnswer();
      match io
      case Again => return ReadWouldBlock;
      case Failed => return ReadError;
      case Closed => return EndOfFile;
      case Ready(n) =>
        if n == 0 {
          return EndOfFile;
        }
        if inbound[fd] == "" {
          return ReadWouldBlock;
        }
        var k := Min(Min(n, size), |inbound[fd]|);
        r := Bytes(inbound[fd][..k]);
        wires := wires[fd := TookFrom(wires[fd], k)];
        inbound := inbound[fd := inbound[fd][k..]];
    }

    /** write(2) on a non-blocking socket */
    method Write(fd: int, data: string) returns (r: WriteResult)
      requires Valid() && fd in wires
      modifies this`env, this`outbound, this`wires
      ensures Valid() && env == PopEnv(old(env))
      ensures r == WriteResultOf(PopAnswer(old(env)), data)
      ensures r.Wrote? ==> r.count <= |data|
      ensures fd in wires && wires - {fd} == old(wires) - {fd}
      ensures wires[fd] == if r.Wrote? && r.count > 0
        then old(wires)[fd].(outbound := old(wires)[fd].outbound + data[..r.count]) else old(wires)[fd]
    {
      var io := NextAnswer();
      match io
      case Again => return WriteWouldBlock;
      case Failed => return WriteError;
      case Closed => return WriteError;
      case Ready(n) =>
        var k := Min(n, |data|);
        r := Wrote(k);
        if k > 0 {
          wires := wires[fd := wires[fd].(outbound := wires[fd].outbound + data[..k])];
          outbound := outbound[fd := outbound[fd] + data[..k]];
        }
    }
  }

  // ------------------------------------------------------ turns, seen from code

  /** Drive, for use in contracts. */
  function Go(c: Conn, f: Callback): Conn {
    if Placed(c.point) then Drive(c, f) else c
  }

  lemma LateTurn(c: Conn, f: Callback)
    requires Live(c) && Placed(c.point) && Late(c.client, AfterClock(c.client, c.env).now)
    ensures Go(c, f) == Go(OnLate(c.(env := AfterClock(c.client, c.env)), f), f)
  {
    hide OnLate, OnRead, OnWrite;
  }

  lemma Stopped(c: Conn, f: Callback)
    requires !Live(c) && Placed(c.point)
    ensures Go(c, f) == c
  {
  }

  lemma ReadTurn(c: Conn, f: Callback)
    requires Live(c) && Placed(c.point) && !c.point.AtSend?
    requires !Late(c.client, AfterClock(c.client, c.env).now)
    ensures var e := AfterClock(c.client, c.env);
            var d := OnRead(c.(env := PopEnv(e)), PopAnswer(e), f);
            Placed(d.point) && Go(c, f) == Go(d, f)
  {
    hide OnLate, OnRead, OnWrite;
  }

  /** One turn of a read loop, by what its read returned. */
  lemma ReceiveTurn(c: Conn, r: ReadResult, f: Callback)
    requires Live(c) && Placed(c.point) && !c.point.AtSend?
    requires !Late(c.client, AfterClock(c.client, c.env).now)
    requires r == ReadResultOf(PopAnswer(AfterClock(c.client, c.env)), c.wire.inbound, BUFFER)
    ensures var d := c.(env := PopEnv(AfterClock(c.client, c.env)));
            match r
            case ReadError => Go(c, f) == OnError(d)
            case ReadWouldBlock => Go(c, f) == d.(parked := true)
            case EndOfFile => Go(c, f) == Go(OnClosed(d, f), f)
            case Bytes(chunk) =>
              && 0 < |chunk| <= |c.wire.inbound| && chunk == c.wire.inbound[..|chunk|]
              && |d.env.answers| < |c.env.answers|
              && Placed(OnChunk(d, |chunk|, f).point) && Go(c, f) == Go(OnChunk(d, |chunk|, f), f)
  {
    hide OnLate, OnChunk, OnClosed;
    ReadTurn(c, f);
    var e := AfterClock(c.client, c.env);
    if PopAnswer(e).Ready? && PopAnswer(e).count > 0 && c.wire.inbound != "" {
      var k := Min(Min(PopAnswer(e).count, BUFFER), |c.wire.inbound|);
      assert r == Bytes(c.wire.inbound[..k]) && |r.chunk| == k;
    }
  }

  /** OnChunk in readHead. */
  lemma ChunkOfHead(c: Conn, k: nat, f: Callback)
    requires c.point.AtHead? && Placed(c.point) && 0 < k <= |c.wire.inbound|
    ensures var data, chunk := c.point.data, c.wire.inbound[..k];
            var full := data + chunk;
            var h := SearchEnd(full, if |data| < 3 then 0 else |data| - 3);
            h <= |full| && (h < |full| ==> h + 4 <= |full|)
            && OnChunk(c, k, f) ==
                 if h == |full| then Take(c, k).(point := AtHead(full))
                 else AfterHead(Take(c, k), RequestOf(full[..h + 2]), full[h + 4..], f)
  {
    hide RequestOf, AfterHead;
  }

  lemma HeadChunk(c: Conn, k: nat, f: Callback)
    requires c.point.AtHead? && Placed(c.point) && 0 < k <= |c.wire.inbound|
    ensures var data, chunk := c.point.data, c.wire.inbound[..k];
            var full := data + chunk;
            var h := SearchEnd(full, if |data| < 3 then 0 else |data| - 3);
            && h == FirstEnd(full)
            && OnChunk(c, k, f) ==
                 if h == |full| then Take(c, k).(point := AtHead(full))
                 else AfterHead(Take(c, k).(point := AtHead("")), RequestOf(full[..h + 2]), full[h + 4..], f)
  {
    hide RequestOf, EndAt, AfterHead, FirstEnd, SearchEnd, OnChunk;
    ChunkOfHead(c, k, f);
    WindowExact(c.point.data, c.wire.inbound[..k]);
    var full := c.point.data + c.wire.inbound[..k];
    var h := FirstEnd(full);
    if h < |full| {
      AfterHeadPoint(Take(c, k), RequestOf(full[..h + 2]), full[h + 4..], f);
    }
  }

  lemma AnswerPoint(c: Conn, r: Request, f: Callback)
    ensures Answer(c, r, f) == Answer(c.(point := AtHead("")), r, f)
  {
  }

  lemma BodyFromPoint(c: Conn, r: Request, body: string, toRead: nat, f: Callback)
    requires toRead < TWO_64
    ensures BodyFrom(c, r, body, toRead, f) == BodyFrom(c.(point := AtHead("")), r, body, toRead, f)
  {
    hide ToString;
  }

  lemma AfterHeadPoint(c: Conn, head: Result<Request>, body: string, f: Callback)
    ensures AfterHead(c, head, body, f) == AfterHead(c.(point := AtHead("")), head, body, f)
  {
    hide HeaderValue, Stoull, AsksKeepAlive, SizeT, Answer, BodyFrom, Placed;
    if head.Ok? {
      var r := head.value;
      var keep := c.client.keepAlive || AsksKeepAlive(r);
      var e := c.(client := c.client.(keepAlive := keep));
      match HeaderValue(r.headers, "Content-Length")
      case None => AnswerPoint(Cross(e, body != "" && keep), r, f);
      case Some(v) =>
        if Stoull(v).Some? {
          var length := Stoull(v).value;
          BodyFromPoint(Cross(e, |body| > length), r, body, SizeT(length - |body|), f);
        }
    }
  }

  lemma WriteTurn(c: Conn, f: Callback)
    requires Live(c) && Placed(c.point) && c.point.AtSend?
    requires !Late(c.client, AfterClock(c.client, c.env).now)
    ensures var e := AfterClock(c.client, c.env);
            var d := OnWrite(c.(env := PopEnv(e)), PopAnswer(e));
            Placed(d.point) && Go(c, f) == Go(d, f)
  {
    hide OnLate, OnRead, OnWrite;
  }

  // ------------------------------------------------------------- the client

  datatype HeadResult =
    | HeadYield(data: string)
    | HeadNone
    | HeadThrow
    | HeadFound(full: string, end: nat)

  datatype BodyResult =
    | BodyYield(body: string, toRead: nat)
    | BodyNone
    | BodyThrow
    | BodyRead(all: string)

  datatype RequestResult = Waiting(point: Point) | NoRequest | Fatal | Asked(request: Request)

  datatype SendResult = SendYield(written: nat) | SendStopped | SendThrow | Sent

  class ClientState {
    const id: nat
    var keepAlive: bool
    var state: ProcessState
    const start: int
    var marked: bool

    ghost function View(): Client
      reads this
    {
      Client(id, keepAlive, state, start, marked)
    }

    constructor (id: nat, now: int)
      ensures View() == Client(id, false, ReadingRequest, now, false)
    {
      this.id, keepAlive, state, start, marked := id, false, ReadingRequest, now, false;
    }

    /** The running coroutine of descriptor fd at point p. */
    ghost function At(k: Kernel, fd: int, p: Point): Conn
      requires fd in k.wires
      reads this, k
    {
      Conn(View(), p, k.wires[fd], k.env, false)
    }

    method TimedOut(k: Kernel) returns (b: bool)
      modifies k`env
      ensures k.env == AfterClock(View(), old(k.env)) && b == Late(View(), k.env.now)
      ensures b == (marked || k.env.now - start > 10_000_000_000)
    {
      if marked {
        return true;
      }
      var now := k.Clock();
      return now - start > LIMIT;
    }

    /** The start of both read loops: the timeout check, one read, and what a closed
        connection or an error does to the client. */
    method Receive(k: Kernel, fd: int, ghost p: Point, ghost f: Callback) returns (r: Received)
      requires k.Valid() && fd in k.wires && (p.AtHead? || p.AtBody?) && Placed(p)
      modifies this`keepAlive, k`env, k`inbound, k`wires
      ensures k.Valid() && fd in k.wires && k.wires - {fd} == old(k.wires) - {fd}
      ensures |k.env.answers| <= |old(k.env.answers)|
      ensures var c, d := old(At(k, fd, p)), At(k, fd, p);
              match r
              case Expired => Go(c, f) == Go(OnLate(d, f), f)
              case Shut => Go(c, f) == Go(if p.AtHead? then d.(point := Done) else Answer(d, p.request, f), f)
              case Blocked => Go(c, f) == d.(parked := true)
              case Broken => Go(c, f) == d.(point := Threw)
              case Chunk(chunk) =>
                var e := c.(env := k.env);
                && 0 < |chunk| <= |c.wire.inbound| && chunk == c.wire.inbound[..|chunk|]
                && d == Take(e, |chunk|) && |k.env.answers| < |old(k.env.answers)|
                && Placed(OnChunk(e, |chunk|, f).point) && Go(c, f) == Go(OnChunk(e, |chunk|, f), f)
    {
      hide Go, OnChunk, OnLate, AfterClock, PopEnv, Placed, Answer, ReadResultOf, Kernel.Valid;
      ghost var c := At(k, fd, p);
      var late := TimedOut(k);
      if late {
        LateTurn(c, f);
        return Expired;
      }
      var received := k.Read(fd, BUFFER);
      ReceiveTurn(c, received, f);
      match received
      case EndOfFile =>
        keepAlive := false;
        k.Note(fd, k.wires[fd].(closed := true));
        return Shut;
      case ReadWouldBlock =>
        return Blocked;
      case ReadError =>
        k.Note(fd, k.wires[fd].(cut := true));
        return Broken;
      case Bytes(chunk) =>
        return Chunk(chunk);
    }

    /** readHead: reads until CR LF CR LF, searching only the end of the data. */
    method ReadHead(k: Kernel, fd: int, data: string, ghost f: Callback) returns (r: HeadResult)
      requires k.Valid() && fd in k.wires && FirstEnd(data) == |data|
      modifies this`keepAlive, k`env, k`inbound, k`wires
      ensures k.Valid() && fd in k.wires && k.wires - {fd} == old(k.wires) - {fd}
      ensures |k.env.answers| <= |old(k.env.answers)|
      ensures var c := old(At(k, fd, AtHead(data)));
              match r
              case HeadYield(d) => FirstEnd(d) == |d| && Go(c, f) == At(k, fd, AtHead(d)).(parked := true)
              case HeadNone => Go(c, f) == At(k, fd, Done)
              case HeadThrow => Go(c, f) == At(k, fd, Threw)
              case HeadFound(full, h) =>
                h == FirstEnd(full) < |full| && |k.env.answers| < |old(k.env.answers)| &&
                var d := AfterHead(At(k, fd, AtHead("")), RequestOf(full[..h + 2]), full[h + 4..], f);
                Placed(d.point) && Go(c, f) == Go(d, f)
    {
      hide AfterHead, RequestOf, Go, OnChunk, OnLate, SearchEnd, FirstEnd, Kernel.Valid;
      var full := data;
      while true
        invariant k.Valid() && fd in k.wires && k.wires - {fd} == old(k.wires) - {fd}
        invariant |k.env.answers| <= |old(k.env.answers)|
        invariant FirstEnd(full) == |full|
        invariant Go(At(k, fd, AtHead(full)), f) == Go(old(At(k, fd, AtHead(data))), f)
        decreases |k.env.answers|
      {
        ghost var c := At(k, fd, AtHead(full));
        var received := Receive(k, fd, AtHead(full), f);
        match received
        case Expired =>
          LateHead(At(k, fd, AtHead(full)), f);
          k.Note(fd, k.wires[fd].(cut := true));
          return HeadNone;
        case Shut =>
          Stopped(At(k, fd, Done), f);
          return HeadNone;
        case Blocked => return HeadYield(full);
        case Broken => return HeadThrow;
        case Chunk(chunk) =>
          HeadChunk(c.(env := k.env), |chunk|, f);
          var h := SearchEnd(full + chunk, if |full| < 3 then 0 else |full| - 3);
          full := full + chunk;
          if h < |full| {
            return HeadFound(full, h);
          }
      }
    }

    /** readBody: reads until nothing of the announced length is missing. toRead is a
        size_t and wraps when more arrives. */
    method ReadBody(k: Kernel, fd: int, r: Request, start: string, missing: nat, ghost f: Callback)
        returns (b: BodyResult)
      requires k.Valid() && fd in k.wires && missing < TWO_64
      modifies this`keepAlive, k`env, k`inbound, k`wires
      ensures k.Valid() && fd in k.wires && k.wires - {fd} == old(k.wires) - {fd}
      ensures |k.env.answers| <= |old(k.env.answers)|
      ensures var c := BodyFrom(old(At(k, fd, AtHead(""))), r, start, missing, f);
              match b
              case BodyYield(body, toRead) =>
                Placed(AtBody(r, body, toRead)) && Go(c, f) == At(k, fd, AtBody(r, body, toRead)).(parked := true)
              case BodyThrow => Go(c, f) == At(k, fd, Threw)
              case BodyNone => Go(c, f) == Go(Answer(At(k, fd, AtHead("")), r, f), f)
              case BodyRead(all) => Go(c, f) == Go(Answer(At(k, fd, AtHead("")), r.(body := Some(all)), f), f)
    {
      hide Go, OnChunk, OnLate, Kernel.Valid, Answer, BodyFrom;
      var body: string := start;
      var toRead: nat := missing;
      while toRead != 0
        invariant k.Valid() && fd in k.wires && k.wires - {fd} == old(k.wires) - {fd}
        invariant |k.env.answers| <= |old(k.env.answers)| && toRead < TWO_64
        invariant Go(BodyFrom(At(k, fd, AtHead("")), r, body, toRead, f), f) ==
                  Go(BodyFrom(old(At(k, fd, AtHead(""))), r, start, missing, f), f)
        decreases |k.env.answers|
      {
        ghost var c := At(k, fd, AtBody(r, body, toRead));
        BodyWaits(At(k, fd, AtHead("")), r, body, toRead, f);
        var received := Receive(k, fd, AtBody(r, body, toRead), f);
        match received
        case Expired =>
          LateBody(At(k, fd, AtBody(r, body, toRead)), f);
          k.Note(fd, k.wires[fd].(cut := true));
          return BodyNone;
        case Shut =>
          AnswerPoint(At(k, fd, AtBody(r, body, toRead)), r, f);
          return BodyNone;
        case Blocked => return BodyYield(body, toRead);
        case Broken => return BodyThrow;
        case Chunk(chunk) =>
          BodyChunk(c.(env := k.env), |chunk|, f);
          k.Note(fd, k.wires[fd].(crossed := k.wires[fd].crossed || |chunk| > toRead));
          body := body + chunk;
          toRead := SizeT(toRead - |chunk|);
      }
      BodyAll(At(k, fd, AtHead("")), r, body, f);
      return BodyRead(body);
    }

    /** The end of readRequest: the body is read when a length is announced. */
    method ReadAnnounced(k: Kernel, fd: int, r: Request, body: string, ghost f: Callback) returns (q: RequestResult)
      requires k.Valid() && fd in k.wires
      modifies this`keepAlive, k`env, k`inbound, k`wires
      ensures k.Valid() && fd in k.wires && k.wires - {fd} == old(k.wires) - {fd}
      ensures |k.env.answers| <= |old(k.env.answers)|
      ensures var c := AfterParsed(old(At(k, fd, AtHead(""))), r, body, f);
              match q
              case Waiting(p) => p.AtBody? && Placed(p) && Go(c, f) == At(k, fd, p).(parked := true)
              case NoRequest => false
              case Fatal => Go(c, f) == At(k, fd, Threw)
              case Asked(a) => Go(c, f) == Go(Answer(At(k, fd, AtHead("")), a, f), f)
    {
      hide Go, Kernel.Valid, Answer, BodyFrom, HeaderValue, Stoull, SizeT, Placed;
      ghost var c := At(k, fd, AtHead(""));
      var length := HeaderValue(r.headers, "Content-Length");
      if length == None {
        k.Note(fd, k.wires[fd].(crossed := k.wires[fd].crossed || (body != "" && keepAlive)));
        return Asked(r);
      }
      var n := Stoull(length.value);
      if n == None {
        Stopped(c.(point := Threw), f);
        return Fatal;
      }
      k.Note(fd, k.wires[fd].(crossed := k.wires[fd].crossed || |body| > n.value));
      var b := ReadBody(k, fd, r, body, SizeT(n.value - |body|), f);
      match b {
        case BodyYield(all, toRead) => q := Waiting(AtBody(r, all, toRead));
        case BodyThrow => q := Fatal;
        case BodyNone => q := Asked(r);
        case BodyRead(all) => q := Asked(r.(body := Some(all)));
      }
    }

    /** readRequest behind readHead: parse the head, note keep-alive, read the body. */
    method ReadRest(k: Kernel, fd: int, full: string, h: nat, ghost f: Callback) returns (q: RequestResult)
      requires k.Valid() && fd in k.wires && h == FirstEnd(full) < |full|
      modifies this`keepAlive, k`env, k`inbound, k`wires
      ensures k.Valid() && fd in k.wires && k.wires - {fd} == old(k.wires) - {fd}
      ensures |k.env.answers| <= |old(k.env.answers)|
      ensures var c := AfterHead(old(At(k, fd, AtHead(""))), RequestOf(full[..h + 2]), full[h + 4..], f);
              match q
              case Waiting(p) => p.AtBody? && Placed(p) && Go(c, f) == At(k, fd, p).(parked := true)
              case NoRequest => Go(c, f) == At(k, fd, Done)
              case Fatal => Go(c, f) == At(k, fd, Threw)
              case Asked(r) => Go(c, f) == Go(Answer(At(k, fd, AtHead("")), r, f), f)
    {
      hide RequestOf, Go, Kernel.Valid, Answer, AfterHead, AfterParsed, FirstEnd, HeaderValue, Placed;
      var head := ParseRequest(full[..h + 2]);
      ghost var c := At(k, fd, AtHead(""));
      if head.Err? {
        HeadFails(c, head.error, full[h + 4..], f);
        if head.error == OutOfRange {
          return Fatal;
        }
        k.Note(fd, k.wires[fd].(rejected := true));
        return NoRequest;
      }
      HeadPasses(c, head.value, full[h + 4..], f);
      if HeaderValue(head.value.headers, "Connection") == Some("Keep-Alive") {
        keepAlive := true;
      }
      q := ReadAnnounced(k, fd, head.value, full[h + 4..], f);
    }

    /** sendResponse: writes what is left of the response. */
    method SendResponse(k: Kernel, fd: int, text: string, from: nat, ghost f: Callback) returns (s: SendResult)
      requires k.Valid() && fd in k.wires && from < |text|
      modifies k`env, k`outbound, k`wires
      ensures k.Valid() && fd in k.wires && k.wires - {fd} == old(k.wires) - {fd}
      ensures |k.env.answers| <= |old(k.env.answers)| && (s == Sent ==> |k.env.answers| < |old(k.env.answers)|)
      ensures var c := old(At(k, fd, AtSend(text, from)));
              match s
              case SendYield(written) =>
                written < |text| && Go(c, f) == At(k, fd, AtSend(text, written)).(parked := true)
              case SendStopped => Go(c, f) == At(k, fd, Done)
              case SendThrow => Go(c, f) == At(k, fd, Threw)
              case Sent => Go(c, f) == Go(Delivered(At(k, fd, Done)), f)
    {
      hide Go, OnLate, OnWritten, Kernel.Valid, WriteResultOf, AfterClock, PopEnv, FirstEnd;
      var written: nat := from;
      while |text| - written != 0
        invariant k.Valid() && fd in k.wires && k.wires - {fd} == old(k.wires) - {fd}
        invariant written <= |text| && |k.env.answers| <= |old(k.env.answers)|
        invariant written == |text| ==> |k.env.answers| < |old(k.env.answers)|
        invariant Go(old(At(k, fd, AtSend(text, from))), f) ==
                  Go(if written < |text| then At(k, fd, AtSend(text, written)) else Delivered(At(k, fd, Done)), f)
        decreases |k.env.answers|
      {
        ghost var c := At(k, fd, AtSend(text, written));
        var late := TimedOut(k);
        if late {
          LateSend(c, f);
          k.Note(fd, k.wires[fd].(cut := true));
          return SendStopped;
        }
        var result := k.Write(fd, text[written..]);
        SendTurn(c, result, f);
        match result
        case WriteWouldBlock =>
          Stopped(At(k, fd, AtSend(text, written)).(parked := true), f);
          return SendYield(written);
        case WriteError =>
          k.Note(fd, k.wires[fd].(cut := true));
          Stopped(At(k, fd, Threw), f);
          return SendThrow;
        case Wrote(count) =>
          if count == 0 {
            k.Note(fd, k.wires[fd].(cut := true));
            Stopped(At(k, fd, Threw), f);
            return SendThrow;
          }
          written := written + count;
      }
      return Sent;
    }
  }

  datatype Received = Expired | Shut | Blocked | Broken | Chunk(chunk: string)

  lemma LateHead(c: Conn, f: Callback)
    requires c.point.AtHead?
    ensures Go(OnLate(c, f), f) == c.(point := Done, wire := c.wire.(cut := true))
  {
  }

  lemma LateBody(c: Conn, f: Callback)
    requires c.point.AtBody?
    ensures OnLate(c, f) == Answer(c.(point := AtHead(""), wire := c.wire.(cut := true)), c.point.request, f)
  {
  }

  lemma BodyWaits(c: Conn, r: Request, body: string, toRead: nat, f: Callback)
    requires 0 < toRead < TWO_64
    ensures BodyFrom(c, r, body, toRead, f) == c.(point := AtBody(r, body, toRead))
  {
  }

  lemma BodyAll(c: Conn, r: Request, body: string, f: Callback)
    ensures BodyFrom(c, r, body, 0, f) == Answer(c, r.(body := Some(body)), f)
  {
  }

  lemma BodyChunk(c: Conn, k: nat, f: Callback)
    requires c.point.AtBody? && Placed(c.point) && 0 < k <= |c.wire.inbound|
    ensures var r, body, toRead := c.point.request, c.point.body + c.wire.inbound[..k], SizeT(c.point.toRead - k);
            OnChunk(c, k, f) ==
              BodyFrom(Cross(Take(c, k), k > c.point.toRead).(point := AtHead("")), r, body, toRead, f)
  {
    hide SizeT, BodyFrom;
    BodyFromPoint(Cross(Take(c, k), k > c.point.toRead), c.point.request, c.point.body + c.wire.inbound[..k],
                  SizeT(c.point.toRead - k), f);
  }

  /** The last byte is out: the next request is awaited, or the coroutine returns. */
  function Delivered(c: Conn): Conn {
    if c.client.keepAlive then c.(client := c.client.(state := ReadingRequest), point := AtHead(""))
    else c.(point := Done)
  }

  lemma LateSend(c: Conn, f: Callback)
    requires Live(c) && Placed(c.point) && c.point.AtSend? && Late(c.client, AfterClock(c.client, c.env).now)
    ensures Go(c, f) == c.(env := AfterClock(c.client, c.env), point := Done, wire := c.wire.(cut := true))
  {
    hide OnRead, OnWrite;
    LateTurn(c, f);
  }

  /** c behind a write that took n bytes of what was unsent. */
  function WroteOn(c: Conn, n: nat): (d: Conn)
    requires c.point.AtSend? && c.point.written + n <= |c.point.text|
    ensures 0 < n ==> Placed(d.point)
  {
    var text, w := c.point.text, c.point.written;
    var e := c.(wire := c.wire.(outbound := c.wire.outbound + text[w..][..n]));
    if w + n < |text| then e.(point := AtSend(text, w + n)) else Delivered(e.(point := Done))
  }

  /** c behind one write. */
  function WriteOn(c: Conn, r: WriteResult): Conn
    requires c.point.AtSend? && Placed(c.point)
    requires r.Wrote? ==> c.point.written + r.count <= |c.point.text|
  {
    match r
    case WriteWouldBlock => c.(parked := true)
    case WriteError => OnError(c)
    case Wrote(n) => if n == 0 then OnError(c) else WroteOn(c, n)
  }

  lemma WriteIs(c: Conn, io: Io)
    requires c.point.AtSend? && Placed(c.point)
    ensures var r := WriteResultOf(io, c.point.text[c.point.written..]);
            (r.Wrote? ==> c.point.written + r.count <= |c.point.text|) && OnWrite(c, io) == WriteOn(c, r)
  {
    hide OnWritten, WroteOn;
    if io.Ready? && io.count > 0 {
      WrittenIs(c, Min(io.count, |c.point.text| - c.point.written));
    }
  }

  /** One turn of the send loop, by what its write returned. */
  lemma SendTurn(c: Conn, r: WriteResult, f: Callback)
    requires Live(c) && Placed(c.point) && c.point.AtSend?
    requires !Late(c.client, AfterClock(c.client, c.env).now)
    requires r == WriteResultOf(PopAnswer(AfterClock(c.client, c.env)), c.point.text[c.point.written..])
    ensures r.Wrote? ==> c.point.written + r.count <= |c.point.text|
    ensures r.Wrote? ==> |PopEnv(AfterClock(c.client, c.env)).answers| < |c.env.answers|
    ensures var d := WriteOn(c.(env := PopEnv(AfterClock(c.client, c.env))), r);
            Placed(d.point) && Go(c, f) == Go(d, f)
  {
    hide OnWrite, WriteOn, Go;
    WriteTurn(c, f);
    WriteIs(c.(env := PopEnv(AfterClock(c.client, c.env))), PopAnswer(AfterClock(c.client, c.env)));
  }

  lemma WrittenIs(c: Conn, n: nat)
    requires c.point.AtSend? && 0 < n && c.point.written + n <= |c.point.text|
    ensures OnWritten(c, n) == WroteOn(c, n)
  {
    assert c.point.text[c.point.written..][..n] == c.point.text[c.point.written..c.point.written + n];
  }

  lemma HeadFails(c: Conn, e: ParseError, body: string, f: Callback)
    ensures Go(AfterHead(c, Err(e), body, f), f) ==
      if e == Malformed then c.(point := Done, wire := c.wire.(rejected := true)) else c.(point := Threw)
  {
  }

  /** AfterHead for a head that parses, once keep-alive is noted. */
  function AfterParsed(c: Conn, r: Request, body: string, f: Callback): Conn {
    match HeaderValue(r.headers, "Content-Length")
    case None => Answer(Cross(c, body != "" && c.client.keepAlive), r, f)
    case Some(v) =>
      match Stoull(v)
      case None => c.(point := Threw)
      case Some(n) => BodyFrom(Cross(c, |body| > n), r, body, SizeT(n - |body|), f)
  }

  lemma HeadPasses(c: Conn, r: Request, body: string, f: Callback)
    ensures AfterHead(c, Ok(r), body, f) ==
      AfterParsed(c.(client := c.client.(keepAlive := c.client.keepAlive || AsksKeepAlive(r))), r, body, f)
  {
    hide HeaderValue, Stoull, AsksKeepAlive, SizeT, Answer, BodyFrom;
  }
}
