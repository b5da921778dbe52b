/** The worker's event loop over many clients: src/http/Worker.cpp as a state machine
    whose events are accepted sockets, handled descriptors and shutdown marks. */
module Scheduler {
  import opened Text
  import opened Exchange
  import opened Refinement
  import opened Coroutine

  /** A routine runs serveClient(fd); its suspended stack is the point. */
  datatype Context = Context(fd: int, point: Point)

  datatype Interest = In | Out

  /** A closed descriptor with the history of its connection. */
  datatype Gone = Gone(fd: int, wire: Wire)

  /** clients, pool and armed are the worker's; wires are the sockets it was given,
      served and gone the descriptors for which a client was made and closed. */
  datatype World = World(
    clients: map<int, Client>,
    pool: Pool<Context>,
    wires: map<int, Wire>,
    armed: map<int, Interest>,
    served: seq<int>,
    gone: seq<Gone>,
    now: int,
    failed: bool)

  // ------------------------------------------------------------ the steps

  const UNUSED := Wire("", "", "", [], false, false, false, false)

  /** Worker::addClient: the descriptor is put under EPOLLIN. */
  function Accept(w: World, fd: int, input: string): World {
    w.(wires := w.wires[fd := UNUSED.(inbound := input)], armed := w.armed[fd := In])
  }

  /** The first event of a descriptor creates its coroutine and its client. */
  function Enrol(w: World, fd: int): World
    requires Valid(w.pool)
  {
    if fd in w.clients then w
    else w.(pool := Created(w.pool, Context(fd, AtHead(""))),
            clients := w.clients[fd := Client(NextId(w.pool), false, ReadingRequest, w.now, false)],
            served := w.served + [fd])
  }

  predicate Seated(w: World, id: nat) {
    && Accepts(w.pool, id)
    && w.pool.routines[id - 1].context.fd in w.clients
    && w.pool.routines[id - 1].context.fd in w.wires
  }

  /** The connection that the routine with this id serves, while it is suspended. */
  function ConnOf(w: World, id: nat): Conn
    requires Seated(w, id)
  {
    var context := w.pool.routines[id - 1].context;
    Conn(w.clients[context.fd], context.point, w.wires[context.fd], Env(w.now, [], []), true)
  }

  /** What a resumption ends with, for the pool. */
  function SliceAt(fd: int, p: Point): Coroutine.Slice<Context> {
    match p
    case Done => Returns(Context(fd, Done))
    case Threw => Throws(Context(fd, Threw), Exception("serveClient"))
    case p => Yields(Context(fd, p))
  }

  /** The world after routine id ran up to d. */
  function Ran(w: World, id: nat, d: Conn): World
    requires Seated(w, id)
  {
    var fd := w.pool.routines[id - 1].context.fd;
    w.(clients := w.clients[fd := d.client],
       wires := w.wires[fd := d.wire],
       pool := Coroutine.Resume(w.pool, id, SliceAt(fd, d.point)).0,
       now := d.env.now,
       failed := d.point.Threw?)
  }

  /** Coroutine::resume(id) and the code it runs. A refused id only costs time. */
  function ResumeId(w: World, id: nat, s: Exchange.Slice, f: Callback): World {
    if Seated(w, id) && Placed(ConnOf(w, id).point) then Ran(w, id, Exchange.Resume(ConnOf(w, id), s, f))
    else w.(now := w.now + s.elapsed)
  }

  predicate ToClose(w: World, fd: int)
    requires fd in w.clients
  {
    Flagged(w.pool, w.clients[fd].id) && (!w.clients[fd].keepAlive || Late(w.clients[fd], w.now))
  }

  /** The rest of handleClient: close and erase, or re-arm. */
  function Settle(w: World, fd: int): World
    requires fd in w.clients && fd in w.wires
  {
    if ToClose(w, fd)
    then w.(clients := w.clients - {fd}, wires := w.wires - {fd}, armed := w.armed - {fd},
            gone := w.gone + [Gone(fd, w.wires[fd])])
    else w.(armed := w.armed[fd := if w.clients[fd].state == ReadingRequest then In else Out])
  }

  function Later(w: World, t: nat): World {
    w.(now := w.now + t)
  }

  /** One turn of an event, timeout or shutdown loop for one descriptor. An exception
      that resume rethrows leaves run. */
  function Handle(w: World, fd: int, s: Exchange.Slice, f: Callback): World
    requires Valid(w.pool) && fd in w.wires
  {
    var e := Enrol(w, fd);
    var r := ResumeId(e, e.clients[fd].id, s, f);
    if r.failed || fd !in r.clients || fd !in r.wires then r else Settle(Later(r, s.tail), fd)
  }

  function Mark(w: World, fd: int): World
    requires fd in w.clients
  {
    w.(clients := w.clients[fd := w.clients[fd].(marked := true)])
  }

  // -------------------------------------------------- what always holds

  function GoneFds(gone: seq<Gone>): seq<int> {
    seq(|gone|, i requires 0 <= i < |gone| => gone[i].fd)
  }

  /** An accepted routine has its own client and socket, and they agree with it. */
  predicate Owned(w: World, id: nat) {
    && Seated(w, id)
    && w.clients[w.pool.routines[id - 1].context.fd].id == id
    && !Finished(ConnOf(w, id).point)
    && Control(ConnOf(w, id))
  }

  /** Every client was served and not yet closed, and nobody else is open. */
  predicate Ledger(w: World) {
    multiset(w.served) == multiset(w.clients.Keys) + multiset(GoneFds(w.gone))
  }

  /** Holds after every event of every run, stale ids or not. */
  predicate Base(w: World) {
    && Valid(w.pool)
    && (forall fd | fd in w.clients :: fd in w.wires && IsId(w.pool, w.clients[fd].id))
    && (forall fd | fd in w.wires && fd !in w.clients :: w.wires[fd].(inbound := "") == UNUSED)
    && (forall id: nat | id <= |w.pool.routines| :: Accepts(w.pool, id) ==> Owned(w, id))
    && Ledger(w)
  }

  /** The scheduler invariant: besides, each client's coroutine is its own, is
      suspended, and waits for exactly what it is armed for. */
  predicate Tended(w: World, fd: int)
    requires fd in w.clients
  {
    var id := w.clients[fd].id;
    && Seated(w, id)
    && w.pool.routines[id - 1].context.fd == fd
    && fd in w.armed
    && w.armed[fd] == if w.pool.routines[id - 1].context.point.AtSend? then Out else In
  }

  predicate Scheduled(w: World) {
    Base(w) && forall fd | fd in w.clients :: Tended(w, fd)
  }

  // ------------------------------------------------- frames of a resumption

  lemma TurnFrame(c: Conn, f: Callback)
    requires Live(c) && Placed(c.point)
    ensures var d := Turn(c, f);
            && d.client.id == c.client.id && d.client.start == c.client.start && d.client.marked == c.client.marked
            && d.env.now >= c.env.now && (Live(d) || d.parked || Finished(d.point))
  {
    hide OnRead, OnWrite;
  }

  lemma {:induction false} DriveFrame(c: Conn, f: Callback)
    requires Placed(c.point) && Control(c)
    ensures var d := Drive(c, f);
            && d.client.id == c.client.id && d.client.start == c.client.start && d.client.marked == c.client.marked
            && d.env.now >= c.env.now && !Live(d) && Control(d)
    decreases |c.env.answers|, Rank(c.point), Live(c)
  {
    hide Turn, Control;
    if Live(c) {
      TurnFrame(c, f);
      ControlTurn(c, f);
      DriveFrame(Turn(c, f), f);
    }
  }

  lemma ResumeFrame(c: Conn, s: Exchange.Slice, f: Callback)
    requires Control(c)
    ensures Placed(c.point)
    ensures var d := Exchange.Resume(c, s, f);
            && d.client.id == c.client.id && d.client.start == c.client.start && d.client.marked == c.client.marked
            && d.env.now >= c.env.now && !Live(d) && Control(d)
  {
    hide Drive;
    DriveFrame(Woken(c, s), f);
  }

  // ------------------------------------------------------ Base is kept

  lemma EnrolOwned(w: World, fd: int, id: nat)
    requires Base(w) && fd in w.wires && fd !in w.clients && Accepts(Enrol(w, fd).pool, id)
    ensures Owned(Enrol(w, fd), id)
    ensures id != NextId(w.pool) ==>
      Accepts(w.pool, id) && Seated(w, id) && ConnOf(Enrol(w, fd), id) == ConnOf(w, id)
  {
    hide Control, Ledger, Valid;
    var e := Enrol(w, fd);
    CreateValid(w.pool, Context(fd, AtHead("")));
    if id == NextId(w.pool) {
      NewControl(ConnOf(e, id));
    } else {
      assert IsId(e.pool, id);
      assert Accepts(w.pool, id) && Owned(w, id);
    }
  }

  lemma NewControl(c: Conn)
    requires c.point == AtHead("") && c.wire.(inbound := "") == UNUSED && c.client.state == ReadingRequest
    ensures Control(c)
  {
  }

  lemma EnrolLedger(w: World, fd: int)
    requires Base(w) && fd !in w.clients
    ensures Ledger(Enrol(w, fd))
  {
    hide Control, Owned, Valid, Created;
    assert Enrol(w, fd).clients.Keys == w.clients.Keys + {fd};
  }

  lemma EnrolBase(w: World, fd: int)
    requires Base(w) && fd in w.wires
    ensures Base(Enrol(w, fd)) && fd in Enrol(w, fd).clients
  {
    hide Control, Owned, Valid, Created, Ledger, NextId;
    if fd !in w.clients {
      var e := Enrol(w, fd);
      CreateValid(w.pool, Context(fd, AtHead("")));
      forall id: nat | id <= |e.pool.routines| && Accepts(e.pool, id) ensures Owned(e, id) {
        EnrolOwned(w, fd, id);
      }
      EnrolLedger(w, fd);
    }
  }

  lemma ControlLater(c: Conn, now: int)
    requires Control(c) && now >= c.env.now
    ensures Control(c.(env := Env(now, [], [])))
  {
    hide FirstEnd;
  }

  /** d is what a resumption of routine id can end with. */
  predicate RunsTo(w: World, id: nat, d: Conn) {
    && Seated(w, id)
    && d.client.id == ConnOf(w, id).client.id
    && d.env.now >= w.now && !Live(d) && Control(d)
  }

  lemma OthersOwned(w: World, id: nat, other: nat, d: Conn)
    requires Base(w) && Accepts(w.pool, id) && Accepts(w.pool, other) && id != other && RunsTo(w, id, d)
    requires Accepts(Ran(w, id, d).pool, other)
    ensures Owned(Ran(w, id, d), other)
    ensures ConnOf(Ran(w, id, d), other) == ConnOf(w, other).(env := Env(d.env.now, [], []))
  {
    hide Control, Valid;
    assert Owned(w, id) && Owned(w, other);
    var r := Ran(w, id, d);
    assert r.pool.routines[other - 1] == w.pool.routines[other - 1];
    ControlLater(ConnOf(w, other), d.env.now);
  }

  lemma RanOwned(w: World, id: nat, d: Conn)
    requires Base(w) && Accepts(w.pool, id) && RunsTo(w, id, d)
    requires Accepts(Ran(w, id, d).pool, id)
    ensures Owned(Ran(w, id, d), id)
    ensures ConnOf(Ran(w, id, d), id) == d.(env := Env(d.env.now, [], []), parked := true)
  {
    hide Valid, FirstEnd;
    assert Owned(w, id);
  }

  lemma RanBase(w: World, id: nat, d: Conn)
    requires Base(w) && Accepts(w.pool, id) && RunsTo(w, id, d)
    ensures Base(Ran(w, id, d))
  {
    hide Control, Valid;
    assert Owned(w, id);
    var r := Ran(w, id, d);
    ResumeValid(w.pool, id, SliceAt(w.pool.routines[id - 1].context.fd, d.point));
    forall other: nat | other <= |r.pool.routines| && Accepts(r.pool, other) ensures Owned(r, other) {
      if other == id {
        RanOwned(w, id, d);
      } else {
        assert Accepts(w.pool, other);
        OthersOwned(w, id, other, d);
      }
    }
    assert r.clients.Keys == w.clients.Keys;
  }

  lemma OutcomeOfResume(w: World, id: nat, s: Exchange.Slice, f: Callback)
    requires Base(w) && Accepts(w.pool, id)
    ensures Seated(w, id) && Placed(ConnOf(w, id).point)
    ensures RunsTo(w, id, Exchange.Resume(ConnOf(w, id), s, f))
  {
    hide Control, Valid, Exchange.Resume, Ledger;
    assert Owned(w, id);
    ResumeFrame(ConnOf(w, id), s, f);
  }

  lemma LaterBase(w: World, now: int)
    requires Base(w) && now >= w.now
    ensures Base(w.(now := now))
  {
    hide Control, Valid;
    var r := w.(now := now);
    forall id: nat | id <= |r.pool.routines| && Accepts(r.pool, id) ensures Owned(r, id) {
      assert Owned(w, id);
      ControlLater(ConnOf(w, id), now);
    }
  }

  lemma ResumeIdBase(w: World, id: nat, s: Exchange.Slice, f: Callback)
    requires Base(w)
    ensures Base(ResumeId(w, id, s, f)) && ResumeId(w, id, s, f).clients.Keys == w.clients.Keys
  {
    hide Base, Ran, Exchange.Resume;
    if Accepts(w.pool, id) {
      OutcomeOfResume(w, id, s, f);
      RanBase(w, id, Exchange.Resume(ConnOf(w, id), s, f));
      SameKeys(w, id, Exchange.Resume(ConnOf(w, id), s, f));
    } else {
      LaterBase(w, w.now + s.elapsed);
    }
  }

  lemma SameKeys(w: World, id: nat, d: Conn)
    requires Seated(w, id)
    ensures Ran(w, id, d).clients.Keys == w.clients.Keys && Ran(w, id, d).wires.Keys == w.wires.Keys
  {
  }

  lemma LedgerClose(keys: set<int>, fd: int, gone: seq<Gone>, g: Gone)
    requires fd in keys && g.fd == fd
    ensures multiset(keys) + multiset(GoneFds(gone)) == multiset(keys - {fd}) + multiset(GoneFds(gone + [g]))
  {
    assert keys == (keys - {fd}) + {fd};
    assert GoneFds(gone + [g]) == GoneFds(gone) + [fd];
  }

  lemma SettleBase(w: World, fd: int)
    requires Base(w) && fd in w.clients
    ensures Base(Settle(w, fd))
  {
    hide Control, Valid;
    var r := Settle(w, fd);
    forall id: nat | id <= |r.pool.routines| && Accepts(r.pool, id) ensures Owned(r, id) {
      assert Owned(w, id);
      assert !Flagged(w.pool, id);
      assert ConnOf(r, id) == ConnOf(w, id);
    }
    if ToClose(w, fd) {
      LedgerClose(w.clients.Keys, fd, w.gone, Gone(fd, w.wires[fd]));
      assert r.clients.Keys == w.clients.Keys - {fd};
    }
  }

  lemma HandleBase(w: World, fd: int, s: Exchange.Slice, f: Callback)
    requires Base(w) && fd in w.wires
    ensures Base(Handle(w, fd, s, f))
  {
    hide Base, Settle, ResumeId, Enrol;
    BaseOpen(w);
    EnrolBase(w, fd);
    var e := Enrol(w, fd);
    ResumeIdBase(e, e.clients[fd].id, s, f);
    var r := ResumeId(e, e.clients[fd].id, s, f);
    BaseOpen(r);
    if !r.failed {
      LaterBase(r, r.now + s.tail);
      SettleBase(Later(r, s.tail), fd);
    }
  }

  lemma BaseOpen(w: World)
    requires Base(w)
    ensures Valid(w.pool) && forall fd | fd in w.clients :: fd in w.wires
  {
  }
}
