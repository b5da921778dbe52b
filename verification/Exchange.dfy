/** One connection: the coroutine of src/http/Worker.cpp `serveClient` and
    src/http/ClientState.cpp as a machine over its loop turns, and the sequential
    server that it must be indistinguishable from. */
module Exchange {
  import opened Text
  import opened Http

  /** formResponse, the user's callback. */
  type Callback = Request -> Response

  const BUFFER := 400
  const LIMIT := 10_000_000_000 // ten seconds on the nanosecond clock

  /** What the kernel answers to one read or write: it is ready for that many
      bytes, EAGAIN, end of file or ECONNRESET, or any other error. */
  datatype Io = Ready(count: nat) | Again | Closed | Failed

  /** The clock, its advances between two readings, and the coming answers. */
  datatype Env = Env(now: int, ticks: seq<nat>, answers: seq<Io>)

  datatype ProcessState = ReadingRequest | WritingResponse

  datatype Client = Client(id: nat, keepAlive: bool, state: ProcessState, start: int, marked: bool)

  /** A socket with its history: the bytes still to come, those read, those written,
      the requests handed to the callback, and four facts a proof needs later.
      crossed: a read went past the end of the request it belonged to.
      closed: the peer's end of file was read.
      cut: a timeout or an error stopped the exchange.
      rejected: a head did not parse. */
  datatype Wire = Wire(
    inbound: string, taken: string, outbound: string, asked: seq<Request>,
    crossed: bool, closed: bool, cut: bool, rejected: bool)

  /** Where the coroutine stands: at the top of one of its three loops with the
      loop's locals, returned, or left by an exception. */
  datatype Point =
    | AtHead(data: string)
    | AtBody(request: Request, body: string, toRead: nat)
    | AtSend(text: string, written: nat)
    | Done
    | Threw

  datatype Conn = Conn(client: Client, point: Point, wire: Wire, env: Env, parked: bool)

  // ------------------------------------------------------- the loop turns

  predicate Late(client: Client, now: int) {
    client.marked || now - client.start > LIMIT
  }

  function ReadClock(env: Env): (after: Env)
    ensures after.now >= env.now && after.answers == env.answers
  {
    if env.ticks == [] then env else env.(now := env.now + env.ticks[0], ticks := env.ticks[1..])
  }

  /** ClientState::timed_out reads the clock unless the client is marked. */
  function AfterClock(client: Client, env: Env): (after: Env)
    ensures after.now >= env.now && after.answers == env.answers
  {
    if client.marked then env else ReadClock(env)
  }

  predicate AsksKeepAlive(r: Request) {
    HeaderValue(r.headers, "Connection") == Some("Keep-Alive")
  }

  function Min(a: nat, b: nat): nat {
    if a < b then a else b
  }

  predicate Finished(p: Point) {
    p.Done? || p.Threw?
  }

  /** What holds at the top of each loop. */
  predicate Placed(p: Point) {
    match p
    case AtHead(data) => FirstEnd(data) == |data|
    case AtBody(_, _, toRead) => 0 < toRead < TWO_64
    case AtSend(text, written) => written < |text|
    case _ => true
  }

  /** d is c after some work of the coroutine that did not yield. */
  predicate Worked(c: Conn, d: Conn) {
    && d.env == c.env && d.parked == c.parked && Placed(d.point)
    && d.client.id == c.client.id && d.client.start == c.client.start && d.client.marked == c.client.marked
    && (c.wire.crossed ==> d.wire.crossed) && (c.wire.cut ==> d.wire.cut)
  }

  /** Notes that bytes of a later request were read with this one. */
  function Cross(c: Conn, crossing: bool): (d: Conn) {
    c.(wire := c.wire.(crossed := c.wire.crossed || crossing))
  }

  /** formResponse is called and its response is about to be sent. */
  function Answer(c: Conn, r: Request, f: Callback): (d: Conn)
    ensures Worked(c, d)
  {
    c.(client := c.client.(state := WritingResponse),
       point := AtSend(ToString(f(r)), 0),
       wire := c.wire.(asked := c.wire.asked + [r]))
  }

  /** readRequest behind readHead: the parsed head, and the bytes read behind it. */
  function AfterHead(c: Conn, head: Result<Request>, body: string, f: Callback): (d: Conn)
    ensures Worked(c, d)
  {
    match head
    case Err(Malformed) => c.(point := Done, wire := c.wire.(rejected := true))
    case Err(OutOfRange) => c.(point := Threw)
    case Ok(r) =>
      var keep := c.client.keepAlive || AsksKeepAlive(r);
      var e := c.(client := c.client.(keepAlive := keep));
      match HeaderValue(r.headers, "Content-Length")
      case None => Answer(Cross(e, body != "" && keep), r, f)
      case Some(v) =>
        match Stoull(v)
        case None => e.(point := Threw)
        case Some(length) => BodyFrom(Cross(e, |body| > length), r, body, SizeT(length - |body|), f)
  }

  /** The test of the readBody loop. */
  function BodyFrom(c: Conn, r: Request, body: string, toRead: nat, f: Callback): (d: Conn)
    requires toRead < TWO_64
    ensures Worked(c, d)
  {
    if toRead == 0 then Answer(c, r.(body := Some(body)), f) else c.(point := AtBody(r, body, toRead))
  }

  /** The first k bytes that are to come are read. */
  function Take(c: Conn, k: nat): (d: Conn)
    requires k <= |c.wire.inbound|
  {
    c.(wire := c.wire.(inbound := c.wire.inbound[k..], taken := c.wire.taken + c.wire.inbound[..k]))
  }

  /** A chunk of k bytes was read. */
  function OnChunk(c: Conn, k: nat, f: Callback): (d: Conn)
    requires c.point.AtHead? || c.point.AtBody?
    requires 0 < k <= |c.wire.inbound|
    requires Placed(c.point)
    ensures Worked(c, d)
  {
    var chunk := c.wire.inbound[..k];
    match c.point
    case AtHead(data) =>
      var full := data + chunk;
      WindowExact(data, chunk);
      var h := SearchEnd(full, if |data| < 3 then 0 else |data| - 3);
      if h == |full| then Take(c, k).(point := AtHead(full))
      else AfterHead(Take(c, k), RequestOf(full[..h + 2]), full[h + 4..], f)
    case AtBody(r, body, toRead) =>
      BodyFrom(Cross(Take(c, k), k > toRead), r, body + chunk, SizeT(toRead - k), f)
  }

  /** read returned 0 or ECONNRESET. */
  function OnClosed(c: Conn, f: Callback): (d: Conn)
    requires c.point.AtHead? || c.point.AtBody?
    ensures Worked(c, d)
  {
    var e := c.(client := c.client.(keepAlive := false), wire := c.wire.(closed := true));
    if c.point.AtHead? then e.(point := Done) else Answer(e, c.point.request, f)
  }

  /** k bytes of the response were written. */
  function OnWritten(c: Conn, k: nat): (d: Conn)
    requires c.point.AtSend? && 0 < k && c.point.written + k <= |c.point.text|
    ensures Worked(c, d)
  {
    var w := c.point.written;
    var e := c.(wire := c.wire.(outbound := c.wire.outbound + c.point.text[w..w + k]));
    if w + k < |c.point.text| then e.(point := AtSend(c.point.text, w + k))
    else if c.client.keepAlive then e.(client := c.client.(state := ReadingRequest), point := AtHead(""))
    else e.(point := Done)
  }

  /** The loop finds the client timed out. */
  function OnLate(c: Conn, f: Callback): (d: Conn)
    ensures Worked(c, d)
  {
    var e := c.(wire := c.wire.(cut := true));
    if c.point.AtBody? then Answer(e, c.point.request, f) else e.(point := Done)
  }

  function OnError(c: Conn): (d: Conn)
    ensures Worked(c, d)
  {
    c.(point := Threw, wire := c.wire.(cut := true))
  }

  function OnRead(c: Conn, io: Io, f: Callback): (d: Conn)
    requires c.point.AtHead? || c.point.AtBody?
    requires Placed(c.point)
    ensures d == c.(parked := true) || Worked(c, d)
  {
    match io
    case Again => c.(parked := true)
    case Failed => OnError(c)
    case Closed => OnClosed(c, f)
    case Ready(n) =>
      if n == 0 then OnClosed(c, f)
      else if c.wire.inbound == "" then c.(parked := true)
      else OnChunk(c, Min(Min(n, BUFFER), |c.wire.inbound|), f)
  }

  function OnWrite(c: Conn, io: Io): (d: Conn)
    requires c.point.AtSend? && c.point.written < |c.point.text|
    ensures d == c.(parked := true) || Worked(c, d)
  {
    match io
    case Again => c.(parked := true)
    case Failed => OnError(c)
    case Closed => OnError(c)
    case Ready(n) => if n == 0 then OnError(c) else OnWritten(c, Min(n, |c.point.text| - c.point.written))
  }

  predicate Live(c: Conn) {
    !c.parked && !Finished(c.point)
  }

  function PopAnswer(env: Env): Io {
    if env.answers == [] then Again else env.answers[0]
  }

  function PopEnv(env: Env): (after: Env)
    ensures |after.answers| == if env.answers == [] then 0 else |env.answers| - 1
  {
    if env.answers == [] then env else env.(answers := env.answers[1..])
  }

  function Rank(p: Point): nat {
    match p case AtBody(_, _, _) => 2 case AtHead(_) => 1 case AtSend(_, _) => 1 case _ => 0
  }

  /** One turn of the loop the coroutine stands in. */
  function Turn(c: Conn, f: Callback): (d: Conn)
    requires Live(c) && Placed(c.point)
    ensures Placed(d.point)
    ensures || |d.env.answers| < |c.env.answers|
            || (d.env.answers == c.env.answers && Rank(d.point) < Rank(c.point))
            || (d.env.answers == c.env.answers && d.point == c.point && d.parked)
  {
    var env := AfterClock(c.client, c.env);
    if Late(c.client, env.now) then OnLate(c.(env := env), f)
    else
      var e := c.(env := PopEnv(env));
      if c.point.AtSend? then OnWrite(e, PopAnswer(env)) else OnRead(e, PopAnswer(env), f)
  }

  /** The coroutine runs until it yields, returns or throws. */
  function Drive(c: Conn, f: Callback): Conn
    requires Placed(c.point)
    decreases |c.env.answers|, Rank(c.point), Live(c)
  {
    if Live(c) then Drive(Turn(c, f), f) else c
  }

  // --------------------------------------------------- the sequential server

  /** What a byte stream starts with, judged on all of its bytes at once; a whole
      request comes with the bytes behind it. */
  datatype Message =
    | Partial
    | Rejected
    | Crashing
    | Short(request: Request)
    | Whole(request: Request, rest: string)

  function MessageBehind(head: Result<Request>, rest: string): (m: Message)
    ensures m.Whole? ==> |m.rest| <= |rest|
  {
    match head
    case Err(Malformed) => Rejected
    case Err(OutOfRange) => Crashing
    case Ok(r) =>
      match HeaderValue(r.headers, "Content-Length")
      case None => Whole(r, rest)
      case Some(v) =>
        match Stoull(v)
        case None => Crashing
        case Some(length) =>
          if |rest| < length then Short(r) else Whole(r.(body := Some(rest[..length])), rest[length..])
  }

  function MessageOf(input: string): (m: Message)
    ensures m.Whole? ==> |m.rest| < |input|
  {
    var h := FirstEnd(input);
    if h == |input| then Partial else MessageBehind(RequestOf(input[..h + 2]), input[h + 4..])
  }

  /** The requests a server that reads its input in order answers. At the end of
      the stream a request whose body is short is answered without it. */
  function Requests(input: string, keep: bool, eof: bool): seq<Request>
    decreases |input|, 0
  {
    match MessageOf(input)
    case Whole(r, rest) => [r] + Next(rest, keep || AsksKeepAlive(r), eof)
    case Short(r) => if eof then [r] else []
    case _ => []
  }

  function Next(rest: string, keep: bool, eof: bool): seq<Request>
    decreases |rest|, 1
  {
    if keep then Requests(rest, true, eof) else []
  }

  /** The bytes it sends for them. */
  function Responses(f: Callback, rs: seq<Request>): string {
    if rs == [] then "" else Responses(f, rs[..|rs| - 1]) + ToString(f(rs[|rs| - 1]))
  }

  // ------------------------------------------------------------ whole runs

  /** A connection as addClient and the ClientState constructor leave it; input is
      everything the peer will ever send. */
  function Fresh(id: nat, input: string, now: int): (c: Conn)
    ensures Placed(c.point)
  {
    Conn(Client(id, false, ReadingRequest, now, false), AtHead(""),
         Wire(input, "", "", [], false, false, false, false), Env(now, [], []), true)
  }

  /** One resumption: the time that passed before, the clock and kernel answers, and
      the time until the event loop looks at the clock again. */
  datatype Slice = Slice(elapsed: nat, ticks: seq<nat>, answers: seq<Io>, tail: nat)

  function Woken(c: Conn, s: Slice): Conn {
    c.(parked := false, env := Env(c.env.now + s.elapsed, s.ticks, s.answers))
  }

  function Resume(c: Conn, s: Slice, f: Callback): Conn
    requires Placed(c.point)
  {
    Drive(Woken(c, s), f)
  }

  lemma DrivePlaced(c: Conn, f: Callback)
    requires Placed(c.point)
    ensures Placed(Drive(c, f).point)
    decreases |c.env.answers|, Rank(c.point), Live(c)
  {
    if Live(c) {
      DrivePlaced(Turn(c, f), f);
    }
  }

  /** What happens to a connection: it is resumed, time passes in which the worker does
      something else, or the shutdown marks it. */
  datatype Moment = Wakes(slice: Slice) | Ages(time: nat) | IsMarked

  function Aged(c: Conn, now: int): Conn {
    c.(env := Env(now, [], []))
  }

  function Marked(c: Conn): Conn {
    c.(client := c.client.(marked := true))
  }

  function Then(c: Conn, m: Moment, f: Callback): (d: Conn)
    requires Placed(c.point)
    ensures Placed(d.point)
  {
    match m
    case Wakes(s) => DrivePlaced(Woken(c, s), f); Resume(c, s, f)
    case Ages(t) => Aged(c, c.env.now + t)
    case IsMarked => Marked(c)
  }

  function Run(c: Conn, moments: seq<Moment>, f: Callback): (d: Conn)
    requires Placed(c.point)
    ensures Placed(d.point)
    decreases |moments|
  {
    if moments == [] then c else Run(Then(c, moments[0], f), moments[1..], f)
  }

  lemma {:induction false} RunMore(c: Conn, moments: seq<Moment>, m: Moment, f: Callback)
    requires Placed(c.point)
    ensures Run(c, moments + [m], f) == Then(Run(c, moments, f), m, f)
    decreases |moments|
  {
    hide Then;
    if moments == [] {
      assert [m][1..] == [] && [] + [m] == [m];
    } else {
      assert (moments + [m])[0] == moments[0] && (moments + [m])[1..] == moments[1..] + [m];
      RunMore(Then(c, moments[0], f), moments[1..], m, f);
    }
  }
}
