/** Whole runs of a worker: any interleaving of accepted sockets, epoll events, timeout
    passes and shutdown marks over any number of clients. */
module WorkerRuns {
  import opened Text
  import opened Http
  import opened HttpLaws
  import opened Exchange
  import opened Refinement
  import opened RoundTrip
  import opened Pipelining
  import opened Coroutine
  import opened Scheduler
  import opened SchedulerLaws
  import opened Shutdown
  import opened Connections

  /** A timeout pass is a row of Happened events for the current clients. */
  datatype Event =
    | Accepted(fd: int, input: string)
    | Happened(fd: int, slice: Exchange.Slice)
    | Marked(fd: int)

  function Initial(now: int): World {
    World(map[], Empty(), map[], map[], [], [], now, false)
  }

  /** The kernel reports only open descriptors and hands out only closed ones. After
      an exception has left run nothing happens any more. */
  function Step(w: World, ev: Event, f: Callback): World {
    if w.failed then w
    else
      match ev
      case Accepted(fd, input) => if fd in w.wires then w else Accept(w, fd, input)
      case Happened(fd, s) => if fd in w.wires && Valid(w.pool) then Handle(w, fd, s, f) else w
      case Marked(fd) => if fd in w.clients then Mark(w, fd) else w
  }

  function RunAll(w: World, evs: seq<Event>, f: Callback): World
    decreases |evs|
  {
    if evs == [] then w else RunAll(Step(w, evs[0], f), evs[1..], f)
  }

  lemma Nothing(w: World, f: Callback)
    ensures RunAll(w, [], f) == w
  {
  }

  lemma {:induction false} OneMore(w: World, evs: seq<Event>, ev: Event, f: Callback)
    ensures RunAll(w, evs + [ev], f) == Step(RunAll(w, evs, f), ev, f)
    decreases |evs|
  {
    hide Step;
    if evs == [] {
      Units([ev]);
      assert [ev][1..] == [];
      Nothing(Step(w, ev, f), f);
    } else {
      assert (evs + [ev])[0] == evs[0] && (evs + [ev])[1..] == evs[1..] + [ev];
      OneMore(Step(w, evs[0], f), evs[1..], ev, f);
    }
  }

  lemma {:induction false} TwoParts(w: World, a: seq<Event>, b: seq<Event>, f: Callback)
    ensures RunAll(w, a + b, f) == RunAll(RunAll(w, a, f), b, f)
    decreases |a|
  {
    hide Step;
    if a == [] {
      Units(b);
      Nothing(w, f);
    } else {
      assert (a + b)[0] == a[0] && (a + b)[1..] == a[1..] + b;
      TwoParts(Step(w, a[0], f), a[1..], b, f);
    }
  }

  /** The events of a timeout pass that visits the clients in this order. */
  function Passing(order: seq<int>, slices: int -> Exchange.Slice): seq<Event> {
    seq(|order|, i requires 0 <= i < |order| => Happened(order[i], slices(order[i])))
  }

  // ---------------------------------------------------- for every single run

  lemma AcceptBase(w: World, fd: int, input: string)
    requires Base(w) && fd !in w.wires
    ensures Base(Accept(w, fd, input))
  {
    hide Valid, Control, Ledger;
    var r := Accept(w, fd, input);
    forall id: nat | id <= |r.pool.routines| && Accepts(r.pool, id) ensures Owned(r, id) {
      assert Owned(w, id) && ConnOf(r, id) == ConnOf(w, id);
    }
    assert Ledger(w) == Ledger(r) by {
      SameLedger(w, r);
    }
  }

  lemma SameLedger(w: World, r: World)
    requires w.served == r.served && w.clients == r.clients && w.gone == r.gone
    ensures Ledger(w) == Ledger(r)
  {
  }

  /** The peers after an event. */
  function PeersStep(p: Peers, w: World, ev: Event, f: Callback): Peers {
    if w.failed then p
    else
      match ev
      case Accepted(fd, input) => if fd in w.wires then p else p.(open := p.open[fd := NewPeer(input)])
      case Happened(fd, s) =>
        if fd in w.wires && Valid(w.pool) then
          var e := Enrol(w, fd);
          var q := Watched(p, e, e.clients[fd].id, s, f);
          if fd in Handle(w, fd, s, f).wires then q else Left(q, fd)
        else p
      case Marked(fd) => p
  }

  function PeersOf(p: Peers, w: World, evs: seq<Event>, f: Callback): Peers
    decreases |evs|
  {
    if evs == [] then p else PeersOf(PeersStep(p, w, evs[0], f), Step(w, evs[0], f), evs[1..], f)
  }

  const NOBODY := Peers(map[], [])

  lemma HandleTraced(w: World, p: Peers, fd: int, s: Exchange.Slice, f: Callback)
    requires Base(w) && Traced(w, p, f) && fd in w.wires && !w.failed && Valid(w.pool)
    ensures Traced(Handle(w, fd, s, f), PeersStep(p, w, Happened(fd, s), f), f)
  {
    hide Base, Traced, Settle, ResumeId, Enrol, Watched, Left;
    EnrolBase(w, fd);
    EnrolTraced(w, p, fd, f);
    var e := Enrol(w, fd);
    var id := e.clients[fd].id;
    ResumeIdBase(e, id, s, f);
    ResumeTraced(e, p, id, s, f);
    var r, q := ResumeId(e, id, s, f), Watched(p, e, id, s, f);
    BaseOpen(r);
    if !r.failed {
      LaterBase(r, r.now + s.tail);
      LaterTraced(r, q, s.tail, f);
      SettleTraced(Later(r, s.tail), q, fd, f);
    }
  }

  lemma StepKeeps(w: World, p: Peers, ev: Event, f: Callback)
    requires Base(w) && Traced(w, p, f)
    ensures Base(Step(w, ev, f)) && Traced(Step(w, ev, f), PeersStep(p, w, ev, f), f)
  {
    hide Base, Traced, Accept, Handle, Mark, Valid, Watched, Left;
    if !w.failed {
      match ev
      case Accepted(fd, input) =>
        if fd !in w.wires {
          AcceptBase(w, fd, input);
          AcceptTraced(w, p, fd, input, f);
        }
      case Happened(fd, s) =>
        if fd in w.wires && Valid(w.pool) {
          HandleBase(w, fd, s, f);
          HandleTraced(w, p, fd, s, f);
        }
      case Marked(fd) =>
        if fd in w.clients {
          MarkBase(w, fd);
          MarkTraced(w, p, fd, f);
        }
    }
  }

  lemma {:induction false} RunKeeps(w: World, p: Peers, evs: seq<Event>, f: Callback)
    requires Base(w) && Traced(w, p, f)
    ensures Base(RunAll(w, evs, f)) && Traced(RunAll(w, evs, f), PeersOf(p, w, evs, f), f)
    decreases |evs|
  {
    hide Base, Traced, Step, PeersStep;
    if evs != [] {
      StepKeeps(w, p, evs[0], f);
      RunKeeps(Step(w, evs[0], f), PeersStep(p, w, evs[0], f), evs[1..], f);
    }
  }

  lemma InitialHolds(now: int, f: Callback)
    ensures Scheduled(Initial(now)) && Traced(Initial(now), NOBODY, f)
  {
    assert GoneFds([]) == [];
  }

  /** Non-interference: after any run, each connection, open or closed, stands where a
      run of its own on its peer's input leads, with nobody else about. */
  lemma EachRunsAlone(now: int, evs: seq<Event>, f: Callback)
    ensures var w, p := RunAll(Initial(now), evs, f), PeersOf(NOBODY, Initial(now), evs, f);
            && p.open.Keys == w.wires.Keys && |p.closed| == |w.gone|
            && (forall fd | fd in w.wires :: Stands(w.wires[fd], p.open[fd], Held(w, fd), Over(w, fd), f))
            && (forall i | 0 <= i < |w.gone| :: Stands(w.gone[i].wire, p.closed[i], "", true, f))
  {
    hide RunAll, PeersOf, Stands, Base, Traced, Held, Over;
    InitialHolds(now, f);
    ScheduledOpen(Initial(now));
    RunKeeps(Initial(now), NOBODY, evs, f);
    TracedStands(RunAll(Initial(now), evs, f), PeersOf(NOBODY, Initial(now), evs, f), f);
  }

  /** After any run, on every connection, open or closed: what was read and what is
      still to come are the bytes that its peer was given to send when it was accepted;
      the bytes written are a prefix of the responses to the requests handed over, in
      order, and, if none of its reads crossed a request's end, of what a sequential
      server writes for that input; without timeout or error too, the requests handed
      over are exactly the sequential server's for the bytes read, and everything has
      been written except what the coroutine still holds, so that on a closed
      descriptor nothing is missing; and a patient peer's reads never cross. Every
      served descriptor is either still a client's or was closed, once. */
  lemma EveryPeerIsServedInOrder(now: int, evs: seq<Event>, f: Callback)
    ensures var w, p := RunAll(Initial(now), evs, f), PeersOf(NOBODY, Initial(now), evs, f);
            && p.open.Keys == w.wires.Keys && |p.closed| == |w.gone|
            && (forall fd | fd in w.wires :: Answered(w.wires[fd], p.open[fd], Held(w, fd), Over(w, fd), f))
            && (forall i | 0 <= i < |w.gone| :: Answered(w.gone[i].wire, p.closed[i], "", true, f))
            && multiset(w.served) == multiset(w.clients.Keys) + multiset(GoneFds(w.gone))
  {
    hide RunAll, PeersOf, Answered, Held, Over, Stands, Traced, Base;
    EachRunsAlone(now, evs, f);
    InitialHolds(now, f);
    ScheduledOpen(Initial(now));
    RunKeeps(Initial(now), NOBODY, evs, f);
    var w, p := RunAll(Initial(now), evs, f), PeersOf(NOBODY, Initial(now), evs, f);
    BaseLedger(w);
    forall fd | fd in w.wires ensures Answered(w.wires[fd], p.open[fd], Held(w, fd), Over(w, fd), f) {
      StandsMeans(w.wires[fd], p.open[fd], Held(w, fd), Over(w, fd), f);
    }
    forall i | 0 <= i < |w.gone| ensures Answered(w.gone[i].wire, p.closed[i], "", true, f) {
      StandsMeans(w.gone[i].wire, p.closed[i], "", true, f);
    }
  }

  lemma BaseLedger(w: World)
    requires Base(w)
    ensures multiset(w.served) == multiset(w.clients.Keys) + multiset(GoneFds(w.gone))
  {
    hide Valid, Owned;
    assert Ledger(w);
  }

  // ------------------------------------------ when every client is tended

  /** The event lets a coroutine end without its client: by what can be seen before,
      the resumed connection and the bytes that its reads will find. */
  predicate LosesId(w: World, ev: Event, f: Callback) {
    ev.Happened? && ev.fd in w.wires && Valid(w.pool) &&
    var e := Enrol(w, ev.fd);
    var id := e.clients[ev.fd].id;
    Seated(e, id) && Placed(ConnOf(e, id).point) && LeavesStale(Roused(e, id, ev.slice), ev.slice.tail, f)
  }

  lemma AcceptScheduled(w: World, fd: int, input: string)
    requires Scheduled(w) && fd !in w.wires
    ensures Scheduled(Accept(w, fd, input))
  {
    hide Base, Valid;
    BaseOpen(w);
    AcceptBase(w, fd, input);
    forall g | g in w.clients ensures Tended(Accept(w, fd, input), g) {
      assert Tended(w, g);
    }
  }

  lemma LosesIdIs(w: World, fd: int, s: Exchange.Slice, f: Callback)
    requires Scheduled(w) && fd in w.wires
    ensures LosesId(w, Happened(fd, s), f) <==> LeavesStale(Begun(w, fd, s), s.tail, f)
  {
    hide LeavesStale, Base, Control, Tended;
    ScheduledOpen(w);
    EnrolTended(w, fd);
    var e := Enrol(w, fd);
    SuspendedInside(e, e.clients[fd].id);
  }

  /** One event, exactly: a scheduled world stays scheduled, or ends by an exception, if
      and only if the event does not meet a malformed head on a kept-alive connection in
      time. */
  lemma StepScheduled(w: World, ev: Event, f: Callback)
    requires Scheduled(w) && !w.failed
    ensures Step(w, ev, f).failed || Scheduled(Step(w, ev, f)) <==> !LosesId(w, ev, f)
  {
    hide Scheduled, Accept, Handle, Mark, Served, LeavesStale, Begun;
    ScheduledOpen(w);
    match ev
    case Accepted(fd, input) =>
      if fd !in w.wires {
        AcceptScheduled(w, fd, input);
      }
    case Marked(fd) =>
      if fd in w.clients {
        MarkScheduled(w, fd);
      }
    case Happened(fd, s) =>
      if fd in w.wires {
        LosesIdIs(w, fd, s, f);
        HandleScheduled(w, fd, s, f);
      }
  }

  lemma ScheduledOpen(w: World)
    requires Scheduled(w)
    ensures Base(w) && Valid(w.pool) && forall fd | fd in w.clients :: fd in w.wires
  {
  }

  /** No event of the run meets a malformed head on a kept-alive connection in time. */
  predicate Clean(w: World, evs: seq<Event>, f: Callback)
    decreases |evs|
  {
    w.failed || evs == [] || (!LosesId(w, evs[0], f) && Clean(Step(w, evs[0], f), evs[1..], f))
  }

  /** At every moment of the run every client owns a distinct suspended coroutine and
      is armed for what it waits for. */
  ghost predicate AlwaysScheduled(w: World, evs: seq<Event>, f: Callback)
    decreases |evs|
  {
    w.failed || (Scheduled(w) && (evs == [] || AlwaysScheduled(Step(w, evs[0], f), evs[1..], f)))
  }

  /** Whole runs, exactly: the scheduler invariant holds throughout if and only if no
      event meets a malformed head on a kept-alive connection in time. */
  lemma {:induction false} ScheduledIffClean(w: World, evs: seq<Event>, f: Callback)
    requires Scheduled(w) && !w.failed
    ensures AlwaysScheduled(w, evs, f) <==> Clean(w, evs, f)
    decreases |evs|
  {
    hide Scheduled, Step, LosesId;
    if evs != [] {
      var r := Step(w, evs[0], f);
      StepScheduled(w, evs[0], f);
      if r.failed {
        assert AlwaysScheduled(r, evs[1..], f) && Clean(r, evs[1..], f);
      } else if Scheduled(r) {
        ScheduledIffClean(r, evs[1..], f);
      } else {
        assert !AlwaysScheduled(r, evs[1..], f);
      }
    }
  }

  /** Distinct clients never share an id while the invariant holds. */
  lemma ScheduledDistinct(w: World, a: int, b: int)
    requires Scheduled(w) && a in w.clients && b in w.clients && a != b
    ensures w.clients[a].id != w.clients[b].id
  {
    assert Tended(w, a) && Tended(w, b);
  }

  lemma {:induction false} CleanEnd(w: World, evs: seq<Event>, f: Callback)
    requires (w.failed || Scheduled(w)) && Clean(w, evs, f)
    ensures RunAll(w, evs, f).failed || Scheduled(RunAll(w, evs, f))
    decreases |evs|
  {
    hide Scheduled, Step, LosesId;
    if w.failed {
      FailedStays(w, evs, f);
    } else if evs != [] {
      StepScheduled(w, evs[0], f);
      CleanEnd(Step(w, evs[0], f), evs[1..], f);
    }
  }

  lemma {:induction false} FailedStays(w: World, evs: seq<Event>, f: Callback)
    requires w.failed
    ensures RunAll(w, evs, f) == w
    decreases |evs|
  {
    if evs != [] {
      FailedStays(w, evs[1..], f);
    }
  }

  /** Shutdown after any clean run: one pass of the drain loop empties the client map
      whatever each coroutine was waiting for, without I/O, and then every descriptor
      ever served has been closed exactly as often as it was served. */
  lemma ShutdownClosesAll(now: int, evs: seq<Event>, order: seq<int>, slices: seq<Exchange.Slice>, f: Callback)
    requires Clean(Initial(now), evs, f) && |order| == |slices|
    requires var w := RunAll(Initial(now), evs, f); !w.failed && Visits(order, w)
    ensures var w := RunAll(Initial(now), evs, f);
            var r := DrainPass(w, order, slices, f);
            && r.clients == map[] && !r.failed && Drained(w, r, order)
            && multiset(r.served) == multiset(GoneFds(r.gone))
  {
    hide RunAll, Clean, DrainPass, Visits, Drained, Owned, Valid;
    InitialHolds(now, f);
    CleanEnd(Initial(now), evs, f);
    var w := RunAll(Initial(now), evs, f);
    DrainScheduled(w, order, slices, f);
    var r := DrainPass(w, order, slices, f);
    assert Ledger(r);
    assert r.clients.Keys == {};
  }

  // ------------------------------------------------------------ an example

  /** A client that is left with a finished coroutine shares its id with the next
      client, and an event on one of them resumes the other's coroutine. */
  lemma NewcomerShares(w: World, fd: int, other: int)
    requires Base(w) && Stale(w, fd) && w.pool.finished[0] == w.clients[fd].id
    requires other in w.wires && other !in w.clients
    ensures var e := Enrol(w, other);
            && fd in e.clients && other in e.clients && e.clients[fd].id == e.clients[other].id
            && Accepts(e.pool, e.clients[fd].id) && e.pool.routines[e.clients[fd].id - 1].context.fd == other
            && !Scheduled(e)
  {
    hide Control, Ledger;
    CreateValid(w.pool, Context(other, AtHead("")));
    assert !Tended(Enrol(w, other), fd);
  }

  const GARBAGE := "\r\n\r\n"

  lemma GarbageHead()
    ensures FirstEnd(GARBAGE) == 0 && RequestOf(GARBAGE[..2]) == Err(Malformed)
  {
    assert EndAt(GARBAGE, 0);
    assert GARBAGE[..2] == "\r\n";
    assert LineOf("\r\n") == "\r";
    assert Find("\r", ' ') == 1;
  }

  lemma GarbageTurn(c: Conn, f: Callback)
    requires c.point == AtHead("") && c.wire.inbound == GARBAGE && Live(c) && !Late(c.client, c.env.now)
    requires c.env.ticks == [] && c.env.answers == [Ready(4)]
    ensures var d := Drive(c, f);
            d.point == Done && d.client == c.client && d.env.now == c.env.now && d.wire.rejected
  {
    hide RequestOf, FirstEnd, LineOf;
    GarbageHead();
    WholeChunk(c.(env := PopEnv(c.env)), f);
    var d := Turn(c, f);
    assert d == OnChunk(c.(env := PopEnv(c.env)), 4, f);
    assert d.point == Done && Drive(c, f) == Drive(d, f) == d;
  }

  /** A head that asks for keep-alive and ends with its chunk. */
  lemma HeadAlone(c: Conn, r: Request, rest: string, f: Callback)
    requires c.point == AtHead("") && Writable(r) && r.body == None && AsksKeepAlive(r)
    requires c.wire.inbound == RequestText(r) + rest
    ensures var d := OnChunk(c, |RequestText(r)|, f);
            && d.point == AtSend(ToString(f(r)), 0)
            && d.client == c.client.(keepAlive := true, state := WritingResponse)
            && d.wire.inbound == rest && d.parked == c.parked && d.env == c.env
  {
    hide HeadText, RequestOf, HeaderValue, Stoull, ToString, AsksKeepAlive, AfterHead, RequestText, FirstEnd;
    var text := RequestText(r);
    BodyText(r, "");
    Units("");
    Units(text);
    HeadTextEnds(r, "");
    HeadRoundTrip(r);
    assert c.wire.inbound[..|text|] == text && c.wire.inbound[|text|..] == rest;
    WindowExact("", text);
    assert "" + text == text;
    PlainHead(Take(c, |text|), r, f);
  }

  lemma PlainHead(c: Conn, r: Request, f: Callback)
    requires HeaderValue(r.headers, "Content-Length") == None && AsksKeepAlive(r)
    ensures AfterHead(c, Ok(r), "", f) == Answer(c.(client := c.client.(keepAlive := true)), r, f)
  {
    hide HeaderValue, AsksKeepAlive, ToString;
  }

  lemma ChunkTurn(c: Conn, k: nat, f: Callback)
    requires c.point == AtHead("") && Live(c) && !Late(c.client, c.env.now) && c.env.ticks == []
    requires c.env.answers != [] && c.env.answers[0] == Ready(k) && 0 < k <= BUFFER && k <= |c.wire.inbound|
    ensures Placed(c.point) && Turn(c, f) == OnChunk(c.(env := PopEnv(c.env)), k, f)
  {
    hide OnChunk;
  }

  function RejectSlice(f: Callback): Exchange.Slice {
    Exchange.Slice(0, [], [Ready(42), Ready(|ToString(f(KEEP))|), Ready(4)], 0)
  }

  lemma KeptThenRejected(c: Conn, f: Callback)
    requires c.point == AtHead("") && c.wire.inbound == RequestText(KEEP) + GARBAGE && Live(c)
    requires !Late(c.client, c.env.now) && c.env == Env(c.env.now, [], RejectSlice(f).answers)
    ensures Placed(c.point)
    ensures var d := Drive(c, f);
            d.point == Done && d.wire.rejected && d.client.keepAlive && !Late(d.client, d.env.now)
  {
    hide RequestText, KEEP, GARBAGE, Turn, OnChunk, ToString, AsksKeepAlive, HeaderValue, Writable;
    KeepWritable();
    var c0 := c.(env := PopEnv(c.env));
    ChunkTurn(c, 42, f);
    HeadAlone(c0, KEEP, GARBAGE, f);
    var c1 := Turn(c, f);
    SendTurn(c1, f);
    var c2 := Turn(c1, f);
    assert Drive(c, f) == Drive(c1, f) == Drive(c2, f);
    GarbageTurn(c2, f);
  }

  /** One keep-alive request and then bytes that are no head: the worker is left with
      a client whose id is free for the next one. */
  lemma StaleHappens(f: Callback)
    ensures var evs := [Accepted(3, RequestText(KEEP) + GARBAGE), Happened(3, RejectSlice(f))];
            var w := RunAll(Initial(0), evs, f);
            && Base(w) && !w.failed && Stale(w, 3) && w.pool.finished == [w.clients[3].id] && !Scheduled(w)
  {
    hide RequestText, KEEP, GARBAGE, Drive, RejectSlice, Handle, Scheduled;
    var input, s := RequestText(KEEP) + GARBAGE, RejectSlice(f);
    InitialHolds(0, f);
    AcceptScheduled(Initial(0), 3, input);
    var w := Accept(Initial(0), 3, input);
    FirstServed(w, input, f);
    HandleScheduled(w, 3, s, f);
    ScheduledOpen(w);
    HandleBase(w, 3, s, f);
    var evs := [Accepted(3, input), Happened(3, s)];
    assert evs[1..] == [Happened(3, s)] && evs[1..][1..] == [];
    assert RunAll(Initial(0), evs, f) == RunAll(w, evs[1..], f);
    assert RunAll(w, evs[1..], f) == RunAll(Handle(w, 3, s, f), [], f);
  }

  lemma FirstServed(w: World, input: string, f: Callback)
    requires input == RequestText(KEEP) + GARBAGE && w == Accept(Initial(0), 3, input) && Scheduled(w)
    ensures Valid(w.pool) && !Handle(w, 3, RejectSlice(f), f).failed
    ensures var d := Served(w, 3, RejectSlice(f), f);
            d.wire.rejected && d.client.keepAlive && !Late(d.client, d.env.now)
    ensures RejectSlice(f).tail == 0
    ensures 3 in Handle(w, 3, RejectSlice(f), f).clients
    ensures Handle(w, 3, RejectSlice(f), f).pool.finished == [Handle(w, 3, RejectSlice(f), f).clients[3].id]
  {
    hide RequestText, KEEP, GARBAGE, Drive, ToString, Scheduled;
    ScheduledOpen(w);
    var s := RejectSlice(f);
    var e := Enrol(w, 3);
    EnrolTended(w, 3);
    OutcomeOfResume(e, 1, s, f);
    var c := Woken(ConnOf(e, 1), s);
    assert c.point == AtHead("") && c.wire.inbound == input;
    KeptThenRejected(c, f);
    var d := Drive(c, f);
    assert Served(w, 3, s, f) == d;
    var r := Ran(e, 1, d);
    assert r.clients[3].id == 1 && r.pool.finished == [1];
  }
}
