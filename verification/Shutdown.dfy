/** The end of Worker::run: every client is marked, resumed and closed, pass after
    pass, until none is left. */
module Shutdown {
  import opened Http
  import opened Exchange
  import opened Refinement
  import opened Coroutine
  import opened Scheduler
  import opened SchedulerLaws

  /** No byte was read from or written to the socket in between. */
  predicate SameIo(a: Wire, b: Wire) {
    a.inbound == b.inbound && a.taken == b.taken && a.outbound == b.outbound
  }

  /** The first clock reading of a resumption finds the client late, or it is marked. */
  predicate LateFirst(c: Conn) {
    Late(c.client, AfterClock(c.client, c.env).now)
  }

  lemma LateTurn(c: Conn, f: Callback)
    requires Live(c) && Placed(c.point) && LateFirst(c)
    ensures Turn(c, f) == OnLate(c.(env := AfterClock(c.client, c.env)), f)
    ensures Late(Turn(c, f).client, Turn(c, f).env.now) && Turn(c, f).env.now >= c.env.now && LateFirst(Turn(c, f))
  {
    hide OnLate;
    OnLateWire(c.(env := AfterClock(c.client, c.env)), f);
  }

  lemma OnLateWire(c: Conn, f: Callback)
    ensures var d := OnLate(c, f);
            && SameIo(d.wire, c.wire) && d.parked == c.parked && d.env == c.env && Placed(d.point)
            && (if c.point.AtBody? then d.point.AtSend? else d.point.Done?)
            && d.client.start == c.client.start && d.client.marked == c.client.marked && d.client.id == c.client.id
  {
    hide ToString;
  }

  /** The coroutine of a client that is late at its first clock reading returns at once,
      wherever it was suspended, and touches no socket. */
  lemma DriveLate(c: Conn, f: Callback)
    requires Live(c) && Placed(c.point) && LateFirst(c)
    ensures var d := Drive(c, f);
            && d.point == Done && SameIo(d.wire, c.wire) && !Live(d) && Late(d.client, d.env.now)
            && d.client.marked == c.client.marked
  {
    hide Turn, OnLate, LateFirst;
    LateTurn(c, f);
    OnLateWire(c.(env := AfterClock(c.client, c.env)), f);
    var d := Turn(c, f);
    assert Drive(c, f) == Drive(d, f);
    if c.point.AtBody? {
      LateTurn(d, f);
      OnLateWire(d.(env := AfterClock(d.client, d.env)), f);
      var e := Turn(d, f);
      assert Drive(d, f) == Drive(e, f) == e;
    } else {
      assert Drive(d, f) == d;
    }
  }

  /** A marked client's coroutine returns at once, wherever it was suspended, and
      touches no socket. */
  lemma DriveMarked(c: Conn, f: Callback)
    requires Live(c) && Placed(c.point) && c.client.marked
    ensures Drive(c, f).point == Done && SameIo(Drive(c, f).wire, c.wire)
    ensures Drive(c, f).client.marked && !Live(Drive(c, f))
  {
    hide Drive;
    DriveLate(c, f);
  }

  predicate MarkedOwner(w: World, id: nat) {
    Seated(w, id) ==> w.clients[w.pool.routines[id - 1].context.fd].marked
  }

  /** Everything but the client, the descriptor and the log of closed ones. */
  predicate ClosesOnly(w: World, r: World, fd: int) {
    && !r.failed && r.clients.Keys == w.clients.Keys - {fd}
    && (forall g | g in r.clients :: g in w.clients && r.clients[g].marked == w.clients[g].marked)
    && (forall g | g in r.wires :: g in w.wires && SameIo(r.wires[g], w.wires[g]))
    && |r.gone| == |w.gone| + 1 && r.gone[..|w.gone|] == w.gone
    && r.gone[|w.gone|].fd == fd && fd in w.wires && SameIo(r.gone[|w.gone|].wire, w.wires[fd])
  }

  /** Everything but one connection and the pool stays; its coroutine ends unheard. */
  predicate EndsOnly(w: World, r: World, id: nat) {
    && !r.failed && r.clients.Keys == w.clients.Keys && r.wires.Keys == w.wires.Keys && r.gone == w.gone
    && (forall g | g in w.clients :: r.clients[g].marked == w.clients[g].marked && r.clients[g].id == w.clients[g].id)
    && (forall g | g in w.wires :: SameIo(r.wires[g], w.wires[g]))
    && Flagged(r.pool, id)
  }

  lemma ResumeLate(w: World, id: nat, s: Exchange.Slice, f: Callback)
    requires Base(w) && !w.failed && Accepts(w.pool, id) && Seated(w, id) && LateFirst(Woken(ConnOf(w, id), s))
    ensures var r, fd := ResumeId(w, id, s, f), w.pool.routines[id - 1].context.fd;
            EndsOnly(w, r, id) && fd in r.clients && Late(r.clients[fd], r.now)
  {
    hide Control, Valid, Drive, Ledger, LateFirst;
    assert Owned(w, id);
    OutcomeOfResume(w, id, s, f);
    ControlPlaced(ConnOf(w, id));
    DriveLate(Woken(ConnOf(w, id), s), f);
  }

  lemma ResumeMarked(w: World, id: nat, s: Exchange.Slice, f: Callback)
    requires Base(w) && !w.failed && Accepts(w.pool, id) && MarkedOwner(w, id)
    ensures EndsOnly(w, ResumeId(w, id, s, f), id)
  {
    hide Control, Valid, ResumeId, Ledger, EndsOnly;
    assert Owned(w, id);
    ResumeLate(w, id, s, f);
  }

  lemma ControlPlaced(c: Conn)
    requires Control(c)
    ensures Placed(c.point)
  {
  }

  lemma HandleMarked(w: World, fd: int, s: Exchange.Slice, f: Callback)
    requires Base(w) && !w.failed && fd in w.clients && w.clients[fd].marked && MarkedOwner(w, w.clients[fd].id)
    ensures fd in w.wires && Valid(w.pool)
    ensures ClosesOnly(w, Handle(w, fd, s, f), fd)
  {
    hide Control, Valid, ResumeId, Ledger;
    BaseOpen(w);
    var id := w.clients[fd].id;
    assert Enrol(w, fd) == w;
    var r := ResumeId(w, id, s, f);
    if Accepts(w.pool, id) {
      ResumeMarked(w, id, s, f);
    } else {
      RefusedId(w, id, s, f);
      assert IsId(w.pool, id);
    }
    assert ToClose(r, fd);
    assert Settle(r, fd).gone == w.gone + [Gone(fd, r.wires[fd])];
  }

  /** The client finds itself late at the first clock reading of its resumption. */
  predicate LateAt(w: World, fd: int, s: Exchange.Slice)
    requires fd in w.clients
  {
    var env := Env(w.now + s.elapsed, s.ticks, s.answers);
    Late(w.clients[fd], AfterClock(w.clients[fd], env).now)
  }

  /** Handling a client that is late by the clock, marked or not, closes it, without I/O
      and without an exception. */
  lemma HandleLate(w: World, fd: int, s: Exchange.Slice, f: Callback)
    requires Base(w) && !w.failed && fd in w.clients && Own(w, fd) && LateAt(w, fd, s)
    ensures fd in w.wires && Valid(w.pool)
    ensures ClosesOnly(w, Handle(w, fd, s, f), fd)
  {
    hide Control, Valid, ResumeId, Ledger;
    BaseOpen(w);
    var id := w.clients[fd].id;
    OwnAccepts(w, fd);
    assert Enrol(w, fd) == w;
    ResumeLate(w, id, s, f);
    var r := ResumeId(w, id, s, f);
    assert ToClose(Later(r, s.tail), fd);
    assert Settle(Later(r, s.tail), fd).gone == w.gone + [Gone(fd, r.wires[fd])];
  }

  lemma RefusedId(w: World, id: nat, s: Exchange.Slice, f: Callback)
    requires !Accepts(w.pool, id)
    ensures ResumeId(w, id, s, f) == w.(now := w.now + s.elapsed)
  {
  }

  lemma MarkBase(w: World, fd: int)
    requires Base(w) && fd in w.clients
    ensures Base(Mark(w, fd))
  {
    hide Valid;
    var m := Mark(w, fd);
    forall id: nat | id <= |m.pool.routines| && Accepts(m.pool, id) ensures Owned(m, id) {
      assert Owned(w, id);
    }
    assert m.clients.Keys == w.clients.Keys;
  }

  lemma MarkScheduled(w: World, fd: int)
    requires Scheduled(w) && fd in w.clients
    ensures Scheduled(Mark(w, fd))
  {
    hide Base, Valid;
    MarkBase(w, fd);
    var m := Mark(w, fd);
    forall g | g in m.clients ensures Tended(m, g) {
      assert Tended(w, g);
    }
  }

  /** One pass of the shutdown loop, in the map's order. */
  function DrainPass(w: World, order: seq<int>, slices: seq<Exchange.Slice>, f: Callback): World
    requires |order| == |slices|
    decreases |order|
  {
    if order == [] || w.failed || order[0] !in w.clients || order[0] !in w.wires || !Valid(w.pool) then w
    else DrainPass(Handle(Mark(w, order[0]), order[0], slices[0], f), order[1..], slices[1..], f)
  }

  /** The order in which a pass visits the clients. */
  predicate Visits(order: seq<int>, w: World) {
    && Distinct(order)
    && (forall i :: 0 <= i < |order| ==> order[i] in w.clients)
    && (forall fd | fd in w.clients :: fd in order)
  }

  /** The visited descriptors were closed once each, in that order and without I/O. */
  predicate Drained(w: World, r: World, order: seq<int>) {
    && |r.gone| == |w.gone| + |order| && r.gone[..|w.gone|] == w.gone
    && (forall i :: 0 <= i < |order| ==>
          var g := r.gone[|w.gone| + i];
          g.fd == order[i] && order[i] in w.wires && SameIo(g.wire, w.wires[order[i]]))
  }

  lemma NobodyLeft(w: World)
    requires Visits([], w)
    ensures w.clients == map[]
  {
    assert forall fd :: fd !in w.clients;
  }

  lemma VisitsRest(order: seq<int>, w: World, r: World)
    requires order != [] && Visits(order, w) && r.clients.Keys == w.clients.Keys - {order[0]}
    ensures Visits(order[1..], r)
  {
    forall i | 0 <= i < |order[1..]| ensures order[1..][i] in r.clients {
      assert order[i + 1] in w.clients && order[i + 1] != order[0];
    }
    forall fd | fd in r.clients ensures fd in order[1..] {
      var i :| 0 <= i < |order| && order[i] == fd;
      assert order[1..][i - 1] == fd;
    }
  }

  lemma DrainedCons(w: World, m: World, r: World, order: seq<int>)
    requires order != [] && ClosesOnly(w, m, order[0]) && Drained(m, r, order[1..])
    ensures Drained(w, r, order)
  {
    var n := |w.gone|;
    assert r.gone[..n] == r.gone[..n + 1][..n];
    forall i | 0 <= i < |order|
      ensures r.gone[n + i].fd == order[i] && order[i] in w.wires && SameIo(r.gone[n + i].wire, w.wires[order[i]])
    {
      if i == 0 {
        assert r.gone[n] == r.gone[..n + 1][n];
      } else {
        assert order[1..][i - 1] == order[i] && n + i == |m.gone| + (i - 1);
      }
    }
  }

  lemma MarkedSameIo(w: World, fd: int, r: World)
    requires fd in w.clients && ClosesOnly(Mark(w, fd), r, fd)
    ensures !r.failed && r.clients.Keys == w.clients.Keys - {fd}
    ensures |r.gone| == |w.gone| + 1 && r.gone[..|w.gone|] == w.gone && r.gone[|w.gone|].fd == fd
    ensures fd in w.wires && SameIo(r.gone[|w.gone|].wire, w.wires[fd])
    ensures forall g | g in r.wires :: g in w.wires && SameIo(r.wires[g], w.wires[g])
    ensures forall g | g in r.clients :: r.clients[g].marked == w.clients[g].marked
  {
  }

  lemma ScheduledOwner(w: World, fd: int)
    requires Scheduled(w) && fd in w.clients && w.clients[fd].marked
    ensures MarkedOwner(w, w.clients[fd].id)
  {
    assert Tended(w, fd);
  }

  lemma DrainStep(w: World, fd: int, s: Exchange.Slice, f: Callback)
    requires Scheduled(w) && !w.failed && fd in w.clients
    ensures fd in w.wires && Valid(w.pool)
    ensures var r := Handle(Mark(w, fd), fd, s, f); Scheduled(r) && ClosesOnly(Mark(w, fd), r, fd)
  {
    hide Base, Handle, Valid, ClosesOnly, Tended;
    BaseOpen(w);
    MarkScheduled(w, fd);
    var m := Mark(w, fd);
    ScheduledOwner(m, fd);
    HandleMarked(m, fd, s, f);
    ClosesMeans(m, Handle(m, fd, s, f), fd);
    HandleScheduled(m, fd, s, f);
  }

  lemma ClosesMeans(w: World, r: World, fd: int)
    requires ClosesOnly(w, r, fd)
    ensures !r.failed && fd !in r.clients
  {
  }

  /** From a scheduled world one pass empties the client map: every client is closed
      exactly once, no coroutine reads or writes, no exception leaves the loop. */
  lemma {:induction false} DrainScheduled(w: World, order: seq<int>, slices: seq<Exchange.Slice>, f: Callback)
    requires Scheduled(w) && !w.failed && Visits(order, w) && |order| == |slices|
    ensures var r := DrainPass(w, order, slices, f);
            r.clients == map[] && !r.failed && Scheduled(r) && Drained(w, r, order)
    decreases |order|
  {
    hide Scheduled, Handle, ClosesOnly, Valid;
    if order == [] {
      NobodyLeft(w);
    } else {
      var fd := order[0];
      DrainStep(w, fd, slices[0], f);
      var m := Handle(Mark(w, fd), fd, slices[0], f);
      MarkedSameIo(w, fd, m);
      VisitsRest(order, w, m);
      DrainScheduled(m, order[1..], slices[1..], f);
      DrainedMark(w, m, DrainPass(m, order[1..], slices[1..], f), order);
    }
  }

  lemma DrainedMark(w: World, m: World, r: World, order: seq<int>)
    requires order != [] && order[0] in w.clients && ClosesOnly(Mark(w, order[0]), m, order[0])
    requires Drained(m, r, order[1..])
    ensures Drained(w, r, order)
  {
    DrainedCons(Mark(w, order[0]), m, r, order);
  }

  // ------------------------------------------------ when ids may be stale

  predicate AllMarked(w: World) {
    forall fd | fd in w.clients :: w.clients[fd].marked
  }

  lemma AllMarkedOwner(w: World, id: nat)
    requires AllMarked(w)
    ensures MarkedOwner(w, id)
  {
  }

  /** Once every client is marked, a pass empties the map even when ids are shared. */
  lemma {:induction false} DrainAllMarked(w: World, order: seq<int>, slices: seq<Exchange.Slice>, f: Callback)
    requires Base(w) && !w.failed && AllMarked(w) && Visits(order, w) && |order| == |slices|
    ensures var r := DrainPass(w, order, slices, f);
            r.clients == map[] && !r.failed && Drained(w, r, order)
    decreases |order|
  {
    hide Base, Handle, ClosesOnly, Valid;
    if order == [] {
      NobodyLeft(w);
    } else {
      var fd := order[0];
      MarkBase(w, fd);
      BaseOpen(w);
      var m := Mark(w, fd);
      BaseOpen(m);
      AllMarkedOwner(m, m.clients[fd].id);
      HandleMarked(m, fd, slices[0], f);
      var r := Handle(m, fd, slices[0], f);
      HandleBase(m, fd, slices[0], f);
      MarkedSameIo(w, fd, r);
      VisitsRest(order, w, r);
      DrainAllMarked(r, order[1..], slices[1..], f);
      DrainedMark(w, r, DrainPass(r, order[1..], slices[1..], f), order);
    }
  }

  /** Handling one descriptor erases no other and unmarks none. */
  lemma HandleKeepsMarks(w: World, fd: int, s: Exchange.Slice, f: Callback)
    requires Base(w) && fd in w.clients
    ensures fd in w.wires && Valid(w.pool)
    ensures var r := Handle(w, fd, s, f);
            && (forall g | g in r.clients :: g in w.clients && (w.clients[g].marked ==> r.clients[g].marked))
            && (forall g | g in w.clients && g != fd :: g in r.clients)
  {
    hide Control, Valid, Exchange.Resume, Ledger;
    BaseOpen(w);
    var id := w.clients[fd].id;
    if Accepts(w.pool, id) {
      assert Owned(w, id);
      ControlPlaced(ConnOf(w, id));
      ResumeFrame(ConnOf(w, id), s, f);
    }
  }

  /** After one pass from any world, whoever is left is marked. */
  lemma {:induction false} PassMarks(w: World, order: seq<int>, slices: seq<Exchange.Slice>, f: Callback)
    requires Base(w) && |order| == |slices| && Distinct(order)
    requires forall i :: 0 <= i < |order| ==> order[i] in w.clients
    requires forall fd | fd in w.clients :: w.clients[fd].marked || fd in order
    ensures var r := DrainPass(w, order, slices, f); Base(r) && (!r.failed ==> AllMarked(r))
    decreases |order|
  {
    hide Base, Handle, Valid;
    if order != [] && !w.failed {
      var fd := order[0];
      BaseOpen(w);
      MarkBase(w, fd);
      var m := Mark(w, fd);
      BaseOpen(m);
      HandleKeepsMarks(m, fd, slices[0], f);
      HandleBase(m, fd, slices[0], f);
      var r := Handle(m, fd, slices[0], f);
      forall i | 0 <= i < |order[1..]| ensures order[1..][i] in r.clients {
        assert order[i + 1] in m.clients && order[i + 1] != fd;
      }
      forall g | g in r.clients ensures r.clients[g].marked || g in order[1..] {
        if !w.clients[g].marked && g != fd {
          var i :| 0 <= i < |order| && order[i] == g;
          assert order[1..][i - 1] == g;
        }
      }
      PassMarks(r, order[1..], slices[1..], f);
    }
  }

  /** Whatever happened before, two passes are enough, unless an exception ends run
      in the first. */
  lemma TwoPasses(w: World, first: seq<int>, a: seq<Exchange.Slice>,
                  second: seq<int>, b: seq<Exchange.Slice>, f: Callback)
    requires Base(w) && Visits(first, w) && |first| == |a| && |second| == |b|
    requires !DrainPass(w, first, a, f).failed && Visits(second, DrainPass(w, first, a, f))
    ensures DrainPass(DrainPass(w, first, a, f), second, b, f).clients == map[]
  {
    hide Base, DrainPass;
    PassMarks(w, first, a, f);
    DrainAllMarked(DrainPass(w, first, a, f), second, b, f);
  }
}
