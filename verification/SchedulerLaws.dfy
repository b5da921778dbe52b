/** What the event loop guarantees over whole runs: which clients are tended, what each
    peer has seen, and how the shutdown ends. */
module SchedulerLaws {
  import opened Text
  import opened Http
  import opened Exchange
  import opened Refinement
  import opened Guards
  import opened Coroutine
  import opened Scheduler

  // ---------------------------------------- the invariant, and when it breaks

  /** A client is kept although its coroutine has finished: its id is free to be
      reused. */
  predicate Stale(w: World, fd: int) {
    fd in w.clients && Flagged(w.pool, w.clients[fd].id)
  }

  /** The client's routine is its own and suspended. */
  predicate Own(w: World, fd: int)
    requires fd in w.clients
  {
    Seated(w, w.clients[fd].id) && w.pool.routines[w.clients[fd].id - 1].context.fd == fd
  }

  predicate TendedBut(w: World, fd: int) {
    forall g | g in w.clients && g != fd :: Tended(w, g)
  }

  lemma EnrolOther(w: World, fd: int, g: int)
    requires Scheduled(w) && fd in w.wires && fd !in w.clients && g in w.clients && g != fd
    ensures Tended(Enrol(w, fd), g)
  {
    hide Control, Ledger, Valid;
    assert Tended(w, g);
    var id := w.clients[g].id;
    NotNext(w.pool, id);
    CreateValid(w.pool, Context(fd, AtHead("")));
  }

  lemma NotNext<S>(p: Pool<S>, id: nat)
    requires Valid(p) && Accepts(p, id)
    ensures id != NextId(p)
  {
    assert p.finished != [] ==> Flagged(p, p.finished[0]);
  }

  lemma EnrolTended(w: World, fd: int)
    requires Scheduled(w) && fd in w.wires
    ensures Valid(w.pool)
    ensures var e := Enrol(w, fd); Base(e) && fd in e.clients && Own(e, fd) && TendedBut(e, fd)
  {
    hide Control, Valid, Ledger;
    EnrolBase(w, fd);
    var e := Enrol(w, fd);
    if fd in w.clients {
      assert Tended(w, fd);
    } else {
      CreateValid(w.pool, Context(fd, AtHead("")));
      forall g | g in e.clients && g != fd ensures Tended(e, g) {
        EnrolOther(w, fd, g);
      }
    }
  }

  lemma RanTended(w: World, fd: int, d: Conn)
    requires Base(w) && fd in w.clients && Own(w, fd) && TendedBut(w, fd) && RunsTo(w, w.clients[fd].id, d)
    ensures TendedBut(Ran(w, w.clients[fd].id, d), fd)
    ensures var r := Ran(w, w.clients[fd].id, d);
            && fd in r.clients && r.clients[fd] == d.client && r.wires[fd] == d.wire && r.now == d.env.now
            && (if Finished(d.point) then Flagged(r.pool, r.clients[fd].id) else Own(r, fd))
  {
    hide Control, Valid, Ledger;
    var id := w.clients[fd].id;
    assert Owned(w, id);
    var r := Ran(w, id, d);
    forall g | g in r.clients && g != fd ensures Tended(r, g) {
      assert Tended(w, g);
      assert Owned(w, w.clients[g].id);
    }
  }

  lemma SettleTended(w: World, fd: int)
    requires Base(w) && fd in w.clients && TendedBut(w, fd)
    requires !Flagged(w.pool, w.clients[fd].id) ==> Own(w, fd)
    ensures Scheduled(Settle(w, fd)) <==> !Stale(Settle(w, fd), fd)
  {
    hide Valid, Ledger;
    SettleBase(w, fd);
    var r := Settle(w, fd);
    forall g | g in r.clients && g != fd ensures Tended(r, g) {
      assert Tended(w, g);
    }
    if fd in r.clients {
      if Flagged(w.pool, w.clients[fd].id) {
        assert !Tended(r, fd);
      } else {
        assert Owned(w, w.clients[fd].id);
      }
    }
  }

  // ---------------------------------------------- when a coroutine is left over

  /** While it runs, the coroutine of a kept-alive client that is in time, and still is
      when the event loop looks at the clock, reads the end of a head that does not
      parse. */
  predicate LeavesStale(c: Conn, tail: nat, f: Callback)
    requires Placed(c.point)
    decreases |c.env.answers|, Rank(c.point), Live(c)
  {
    Live(c) &&
    ((ReadOf(c).Some? && Refuses(c.point, ReadOf(c).value) && c.client.keepAlive
      && !Late(c.client, AfterClock(c.client, c.env).now + tail))
     || LeavesStale(Turn(c, f), tail, f))
  }

  lemma RefusedHead(c: Conn, k: nat, f: Callback)
    requires c.point.AtHead? && Placed(c.point) && 0 < k <= |c.wire.inbound| && Refuses(c.point, c.wire.inbound[..k])
    ensures var d := OnChunk(c, k, f); d.point.Done? && d.client == c.client && d.env == c.env && d.wire.rejected
  {
    hide RequestOf, EndAt, ToString, HeaderValue, Stoull, AsksKeepAlive;
    var data, chunk := c.point.data, c.wire.inbound[..k];
    WindowExact(data, chunk);
    var h := FirstEnd(data + chunk);
    assert h < |data + chunk|;
    assert RequestOf((data + chunk)[..h + 2]) == Err(Malformed);
  }

  /** The guard, seen before the coroutine runs, is what its run shows afterwards. */
  lemma {:induction false} StaleDrive(c: Conn, tail: nat, f: Callback)
    requires Placed(c.point) && Control(c) && !c.wire.rejected
    ensures var d := Drive(c, f);
            LeavesStale(c, tail, f) <==> d.wire.rejected && d.client.keepAlive && !Late(d.client, d.env.now + tail)
    decreases |c.env.answers|, Rank(c.point), Live(c)
  {
    hide Turn, Control, ReadOf, Refuses, OnChunk;
    if Live(c) {
      ControlTurn(c, f);
      TurnGuards(c, f);
      if ReadOf(c).Some? && Refuses(c.point, ReadOf(c).value) {
        ReadIsChunk(c, f);
        RefusesHead(c.point, ReadOf(c).value);
        RefusedHead(c.(env := PopEnv(AfterClock(c.client, c.env))), |ReadOf(c).value|, f);
        assert !Live(Turn(c, f));
        assert Drive(c, f) == Drive(Turn(c, f), f) == Turn(c, f);
      } else {
        StaleDrive(Turn(c, f), tail, f);
      }
    }
  }

  lemma RefusesHead(p: Point, chunk: string)
    requires Refuses(p, chunk)
    ensures p.AtHead?
  {
  }

  /** The coroutine of fd as an event is about to resume it. */
  function Begun(w: World, fd: int, s: Exchange.Slice): (c: Conn)
    requires Scheduled(w) && fd in w.wires
    ensures Placed(c.point)
  {
    EnrolTended(w, fd);
    var e := Enrol(w, fd);
    SuspendedInside(e, e.clients[fd].id);
    Woken(ConnOf(e, e.clients[fd].id), s)
  }

  lemma SuspendedInside(w: World, id: nat)
    requires Base(w) && Seated(w, id)
    ensures Placed(ConnOf(w, id).point) && Control(ConnOf(w, id)) && !ConnOf(w, id).wire.rejected
  {
    hide Valid, Ledger;
    assert Owned(w, id);
  }

  /** What the coroutine of fd did during a handled event. */
  function Served(w: World, fd: int, s: Exchange.Slice, f: Callback): Conn
    requires Scheduled(w) && fd in w.wires
  {
    EnrolTended(w, fd);
    var e := Enrol(w, fd);
    OutcomeOfResume(e, e.clients[fd].id, s, f);
    Exchange.Resume(ConnOf(e, e.clients[fd].id), s, f)
  }

  /** The scheduler invariant survives a handled event exactly when the event does not
      find the end of a malformed head on a kept-alive connection in time. Then, and only
      then, a finished coroutine is left with its client; no exception is thrown. */
  lemma HandleScheduled(w: World, fd: int, s: Exchange.Slice, f: Callback)
    requires Scheduled(w) && fd in w.wires
    ensures Valid(w.pool)
    ensures var r, d := Handle(w, fd, s, f), Served(w, fd, s, f);
            && (LeavesStale(Begun(w, fd, s), s.tail, f) ==> !r.failed)
            && (!r.failed ==>
                  && (Scheduled(r) <==> !LeavesStale(Begun(w, fd, s), s.tail, f))
                  && (Stale(r, fd) <==> LeavesStale(Begun(w, fd, s), s.tail, f))
                  && (Stale(r, fd) <==> d.wire.rejected && d.client.keepAlive && !Late(d.client, d.env.now + s.tail))
                  && (fd in r.clients ==> fd in r.wires && r.wires[fd] == d.wire && r.clients[fd] == d.client))
  {
    hide Base, TendedBut, Exchange.Resume, ConnOf, Settle, Enrol, LeavesStale, Woken, Stale, Scheduled, Control;
    ScheduledBase(w);
    BaseOpen(w);
    EnrolTended(w, fd);
    var e := Enrol(w, fd);
    var id := e.clients[fd].id;
    OutcomeOfResume(e, id, s, f);
    var d := Exchange.Resume(ConnOf(e, id), s, f);
    EventLeaves(w, fd, s, f);
    RanTended(e, fd, d);
    OwnAccepts(e, fd);
    RanBase(e, id, d);
    var r := Ran(e, id, d);
    assert ResumeId(e, id, s, f) == r;
    LaterBase(r, r.now + s.tail);
    LaterTended(r, fd, s.tail);
    BaseOpen(r);
    SettleTended(Later(r, s.tail), fd);
    SettleStale(Later(r, s.tail), fd);
    EndOfService(d, s.tail);
  }

  lemma ScheduledBase(w: World)
    requires Scheduled(w)
    ensures Base(w)
  {
  }

  lemma EventLeaves(w: World, fd: int, s: Exchange.Slice, f: Callback)
    requires Scheduled(w) && fd in w.wires
    ensures var d := Served(w, fd, s, f);
            && Control(d)
            && (LeavesStale(Begun(w, fd, s), s.tail, f) <==>
                  d.wire.rejected && d.client.keepAlive && !Late(d.client, d.env.now + s.tail))
  {
    hide Scheduled, Drive, LeavesStale, Control, Base;
    EnrolTended(w, fd);
    var e := Enrol(w, fd);
    SuspendedInside(e, e.clients[fd].id);
    WokenControl(ConnOf(e, e.clients[fd].id), s);
    StaleDrive(Begun(w, fd, s), s.tail, f);
    OutcomeOfResume(e, e.clients[fd].id, s, f);
  }

  lemma WokenControl(c: Conn, s: Exchange.Slice)
    requires Control(c)
    ensures Control(Woken(c, s))
  {
    hide FirstEnd;
  }

  lemma LaterTended(w: World, fd: int, t: nat)
    requires fd in w.clients && TendedBut(w, fd)
    ensures TendedBut(Later(w, t), fd)
    ensures Own(Later(w, t), fd) == Own(w, fd)
  {
    forall g | g in w.clients && g != fd ensures Tended(Later(w, t), g) {
      assert Tended(w, g);
    }
  }

  /** A coroutine that has returned leaves a kept-alive client in time only after a
      rejected head. */
  lemma EndOfService(d: Conn, t: nat)
    requires Control(d)
    ensures d.wire.rejected ==> d.point.Done?
    ensures d.point.Done? && d.client.keepAlive && !Late(d.client, d.env.now + t) ==> d.wire.rejected
  {
  }

  lemma OwnAccepts(w: World, fd: int)
    requires fd in w.clients && Own(w, fd)
    ensures Accepts(w.pool, w.clients[fd].id)
  {
  }

  lemma SettleStale(w: World, fd: int)
    requires fd in w.clients && fd in w.wires
    ensures Stale(Settle(w, fd), fd) <==>
      Flagged(w.pool, w.clients[fd].id) && w.clients[fd].keepAlive && !Late(w.clients[fd], w.now)
    ensures var r := Settle(w, fd);
            && r.failed == w.failed
            && (fd in r.clients ==> fd in r.wires && r.wires[fd] == w.wires[fd] && r.clients[fd] == w.clients[fd])
  {
  }

  // ------------------------------------------------------ steps in full words

  /** A socket that is accepted waits under EPOLLIN with all its input to come, and the
      worker has no client for it yet. */
  lemma AcceptExact(w: World, fd: int, input: string)
    ensures var r := Accept(w, fd, input);
            && fd in r.wires && r.wires[fd].inbound == input && r.wires[fd].taken == "" && r.wires[fd].outbound == ""
            && r.wires[fd].asked == [] && fd in r.armed && r.armed[fd] == In
            && r.clients == w.clients && r.pool == w.pool && r.gone == w.gone && r.served == w.served
  {
  }

  /** A new client starts its ten seconds now, unmarked, not to be kept, reading its first
      request from the beginning. */
  lemma EnrolExact(w: World, fd: int)
    requires Valid(w.pool) && fd !in w.clients
    ensures var r := Enrol(w, fd);
            && fd in r.clients && r.clients[fd].start == w.now && !r.clients[fd].marked && !r.clients[fd].keepAlive
            && r.clients[fd].state == ReadingRequest && Accepts(r.pool, r.clients[fd].id)
            && r.pool.routines[r.clients[fd].id - 1].context == Context(fd, AtHead(""))
            && r.clients == w.clients[fd := r.clients[fd]] && r.served == w.served + [fd]
  {
    CreateValid(w.pool, Context(fd, AtHead("")));
  }

  /** An exception that leaves serveClient leaves run, and nothing else does. */
  lemma ThrowExact(w: World, fd: int, s: Exchange.Slice, f: Callback)
    requires Scheduled(w) && fd in w.wires && !w.failed
    ensures Valid(w.pool) && (Handle(w, fd, s, f).failed <==> Served(w, fd, s, f).point.Threw?)
  {
    hide Base, TendedBut, Exchange.Resume, ConnOf, Settle, Enrol, LeavesStale, Woken, Stale, Scheduled, Control;
    ScheduledBase(w);
    BaseOpen(w);
    EnrolTended(w, fd);
    var e := Enrol(w, fd);
    var id := e.clients[fd].id;
    OutcomeOfResume(e, id, s, f);
    OwnAccepts(e, fd);
    var d := Exchange.Resume(ConnOf(e, id), s, f);
    RanBase(e, id, d);
    BaseOpen(Ran(e, id, d));
    RanTended(e, fd, d);
    SettleStale(Later(Ran(e, id, d), s.tail), fd);
  }
}
