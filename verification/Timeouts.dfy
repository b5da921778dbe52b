/** What a pass over all clients after two quiet seconds does for those whose time is up. */
module Timeouts {
  import opened Exchange
  import opened Refinement
  import opened Coroutine
  import opened Scheduler
  import opened SchedulerLaws
  import opened Shutdown
  import opened WorkerRuns

  // ------------------------------------------------- what one event leaves alone

  predicate Untouched(w: World, r: World, fd: int) {
    && fd in w.clients && fd in r.clients && fd in w.wires && fd in r.wires
    && r.clients[fd] == w.clients[fd] && r.wires[fd] == w.wires[fd] && Own(r, fd)
  }

  lemma RanLeaves(w: World, g: int, d: Conn, fd: int)
    requires Base(w) && g in w.clients && Own(w, g) && RunsTo(w, w.clients[g].id, d)
    requires fd in w.clients && fd != g && Own(w, fd)
    ensures Untouched(w, Ran(w, w.clients[g].id, d), fd)
  {
    hide Control, Valid, Ledger;
    OwnAccepts(w, g);
    OwnAccepts(w, fd);
    OthersOwned(w, w.clients[g].id, w.clients[fd].id, d);
  }

  lemma SettleLeaves(w: World, g: int, fd: int)
    requires Base(w) && g in w.clients && fd in w.clients && fd != g && Own(w, fd)
    ensures Untouched(w, Settle(w, g), fd)
  {
    hide Control, Valid, Ledger, Owned;
  }

  /** Handling a client leaves the others, their sockets and their coroutines alone. */
  lemma HandleLeaves(w: World, g: int, s: Exchange.Slice, fd: int, f: Callback)
    requires Base(w) && g in w.clients && Own(w, g) && fd in w.clients && fd != g && Own(w, fd)
    ensures g in w.wires && Valid(w.pool) && Untouched(w, Handle(w, g, s, f), fd)
  {
    hide Control, Valid, Ledger, Owned, Exchange.Resume, Ran, Settle, Base;
    BaseOpen(w);
    OwnAccepts(w, g);
    var id := w.clients[g].id;
    OutcomeOfResume(w, id, s, f);
    RanLeaves(w, g, Exchange.Resume(ConnOf(w, id), s, f), fd);
    assert Enrol(w, g) == w;
    ResumeIdBase(w, id, s, f);
    var r := ResumeId(w, id, s, f);
    BaseOpen(r);
    if !r.failed {
      LaterBase(r, r.now + s.tail);
      LaterOwn(r, s.tail, fd);
      SettleLeaves(Later(r, s.tail), g, fd);
    }
  }

  lemma LaterOwn(w: World, t: nat, fd: int)
    requires fd in w.clients
    ensures Own(Later(w, t), fd) <==> Own(w, fd)
  {
  }

  /** Descriptors are only closed, and time only passes. */
  predicate Shrinks(w: World, r: World) {
    r.wires.Keys <= w.wires.Keys && w.gone <= r.gone && w.now <= r.now
  }

  lemma ResumeShrinks(w: World, id: nat, s: Exchange.Slice, f: Callback)
    requires Base(w)
    ensures var r := ResumeId(w, id, s, f); r.wires.Keys == w.wires.Keys && r.gone == w.gone && w.now <= r.now
  {
    hide Control, Valid, Ledger, Owned, Exchange.Resume, RunsTo;
    if Accepts(w.pool, id) {
      OutcomeOfResume(w, id, s, f);
      RunsLater(w, id, Exchange.Resume(ConnOf(w, id), s, f));
      SameKeys(w, id, Exchange.Resume(ConnOf(w, id), s, f));
    }
  }

  lemma RunsLater(w: World, id: nat, d: Conn)
    requires RunsTo(w, id, d)
    ensures d.env.now >= w.now
  {
  }

  lemma HandleShrinks(w: World, g: int, s: Exchange.Slice, f: Callback)
    requires Base(w) && g in w.wires
    ensures Valid(w.pool) && Shrinks(w, Handle(w, g, s, f))
  {
    hide Base, ResumeId, Valid, ToClose, Created;
    BaseOpen(w);
    EnrolBase(w, g);
    var e := Enrol(w, g);
    ResumeShrinks(e, e.clients[g].id, s, f);
  }

  /** Nothing but handled descriptors. */
  predicate OnlyHappened(evs: seq<Event>) {
    forall i :: 0 <= i < |evs| ==> evs[i].Happened?
  }

  lemma {:induction false} RunShrinks(w: World, evs: seq<Event>, f: Callback)
    requires Base(w) && OnlyHappened(evs)
    ensures Base(RunAll(w, evs, f)) && Shrinks(w, RunAll(w, evs, f))
    decreases |evs|
  {
    hide Base, Handle, Valid;
    if evs != [] && !w.failed {
      var ev := evs[0];
      BaseOpen(w);
      if ev.fd in w.wires {
        HandleBase(w, ev.fd, ev.slice, f);
        HandleShrinks(w, ev.fd, ev.slice, f);
      }
      RunShrinks(Step(w, ev, f), evs[1..], f);
    } else {
      if evs != [] {
        FailedStays(w, evs, f);
      }
    }
  }

  // ----------------------------------------------------------------- the pass

  /** The world in the middle of the pass, before the i-th client is handled. */
  function Reached(w: World, order: seq<int>, i: nat, slices: int -> Exchange.Slice, f: Callback): World
    requires i <= |order|
  {
    RunAll(w, Passing(order[..i], slices), f)
  }

  lemma ReachedNext(w: World, order: seq<int>, i: nat, slices: int -> Exchange.Slice, f: Callback)
    requires i < |order|
    ensures Reached(w, order, i + 1, slices, f) ==
      Step(Reached(w, order, i, slices, f), Happened(order[i], slices(order[i])), f)
  {
    hide Step;
    var ev := Happened(order[i], slices(order[i]));
    assert Passing(order[..i + 1], slices) == Passing(order[..i], slices) + [ev];
    OneMore(w, Passing(order[..i], slices), ev, f);
  }

  /** The rest of the pass only closes, and does not undo an exception. */
  lemma ReachedEnd(w: World, order: seq<int>, i: nat, slices: int -> Exchange.Slice, f: Callback)
    requires i <= |order| && Base(Reached(w, order, i, slices, f))
    ensures var u, r := Reached(w, order, i, slices, f), RunAll(w, Passing(order, slices), f);
            Base(r) && Shrinks(u, r) && (u.failed ==> r.failed)
  {
    hide Base, RunAll;
    var before, after := Passing(order[..i], slices), Passing(order, slices)[i..];
    assert Passing(order, slices) == before + after;
    TwoParts(w, before, after, f);
    RunShrinks(Reached(w, order, i, slices, f), after, f);
    if Reached(w, order, i, slices, f).failed {
      FailedStays(Reached(w, order, i, slices, f), after, f);
    }
  }

  /** Until its turn comes, a client is as it was at the start of the pass. */
  ghost predicate Waiting(w: World, order: seq<int>, i: nat, u: World) {
    && Base(u) && Shrinks(w, u)
    && forall j | i <= j < |order| :: Untouched(w, u, order[j])
  }

  lemma {:induction false} PassReaches(w: World, order: seq<int>, i: nat, slices: int -> Exchange.Slice, f: Callback)
    requires Scheduled(w) && Visits(order, w) && i <= |order|
    requires !RunAll(w, Passing(order, slices), f).failed
    ensures Waiting(w, order, i, Reached(w, order, i, slices, f)) && !Reached(w, order, i, slices, f).failed
    decreases i
  {
    hide Base, Handle, Valid, RunAll, Untouched, Distinct, Reached, Scheduled, Tended;
    if i == 0 {
      PassBegins(w, order, slices, f);
    } else {
      PassReaches(w, order, i - 1, slices, f);
      ReachedNext(w, order, i - 1, slices, f);
      var u := Reached(w, order, i - 1, slices, f);
      PassStep(w, order, i - 1, u, slices(order[i - 1]), f);
    }
    ReachedEnd(w, order, i, slices, f);
  }

  lemma PassBegins(w: World, order: seq<int>, slices: int -> Exchange.Slice, f: Callback)
    requires Scheduled(w) && Visits(order, w)
    ensures Waiting(w, order, 0, Reached(w, order, 0, slices, f))
  {
    hide Control, Valid, Ledger, Owned;
    assert Passing(order[..0], slices) == [];
    forall j | 0 <= j < |order| ensures Untouched(w, w, order[j]) {
      assert Tended(w, order[j]);
    }
  }

  lemma PassStep(w: World, order: seq<int>, i: nat, u: World, s: Exchange.Slice, f: Callback)
    requires Waiting(w, order, i, u) && i < |order| && Distinct(order) && !u.failed
    ensures order[i] in u.wires && Valid(u.pool)
    ensures Waiting(w, order, i + 1, Step(u, Happened(order[i], s), f))
  {
    hide Base, Handle, Valid, Own, Distinct;
    var fd := order[i];
    assert Untouched(w, u, fd);
    BaseOpen(u);
    HandleBase(u, fd, s, f);
    HandleShrinks(u, fd, s, f);
    var r := Handle(u, fd, s, f);
    forall j | i + 1 <= j < |order| ensures Untouched(w, r, order[j]) {
      assert Untouched(w, u, order[j]);
      Differ(order, i, j);
      HandleLeaves(u, fd, s, order[j], f);
    }
  }

  lemma Differ(order: seq<int>, i: nat, j: nat)
    requires Distinct(order) && i < j < |order|
    ensures order[i] != order[j]
  {
  }

  /** The descriptor was closed since, and not a byte read or written before. */
  ghost predicate ClosedQuietly(w: World, r: World, fd: int) {
    && fd !in r.clients && fd !in r.wires && fd in w.wires
    && exists j :: |w.gone| <= j < |r.gone| && r.gone[j].fd == fd && SameIo(r.gone[j].wire, w.wires[fd])
  }

  lemma LateCloses(w: World, u: World, r: World, fd: int, s: Exchange.Slice, f: Callback)
    requires Base(u) && !u.failed && Untouched(w, u, fd) && Shrinks(w, u) && LateAt(u, fd, s)
    requires Valid(u.pool) && Base(r) && Shrinks(Handle(u, fd, s, f), r)
    ensures ClosedQuietly(w, r, fd)
  {
    hide Handle, Control, Valid, Own, LateAt, Ledger, Owned;
    HandleLate(u, fd, s, f);
    var h := Handle(u, fd, s, f);
    assert fd !in h.wires by {
      HandledCloses(u, fd, s, f);
    }
    assert r.gone[|u.gone|] == h.gone[|u.gone|];
  }

  lemma HandledCloses(w: World, fd: int, s: Exchange.Slice, f: Callback)
    requires Base(w) && fd in w.clients && fd in w.wires && Valid(w.pool)
    requires fd !in Handle(w, fd, s, f).clients
    ensures fd !in Handle(w, fd, s, f).wires
  {
    hide Base, ResumeId, Valid, ToClose;
    BaseOpen(w);
    ResumeIdBase(w, w.clients[fd].id, s, f);
  }

  /** Marked, or on the clock of the worker more than ten seconds old. */
  predicate Overdue(w: World, fd: int)
    requires fd in w.clients
  {
    w.clients[fd].marked || w.now - w.clients[fd].start > 10_000_000_000
  }

  /** The same at the first clock reading of a resumption. */
  predicate OverdueAt(w: World, fd: int, s: Exchange.Slice)
    requires fd in w.clients
  {
    || w.clients[fd].marked
    || w.now + s.elapsed + (if s.ticks == [] then 0 else s.ticks[0]) - w.clients[fd].start > 10_000_000_000
  }

  lemma OverdueExact(w: World, fd: int, s: Exchange.Slice)
    requires fd in w.clients
    ensures Overdue(w, fd) <==> Late(w.clients[fd], w.now)
    ensures OverdueAt(w, fd, s) <==> LateAt(w, fd, s)
  {
  }

  /** What the end of handleClient does, exactly: a client is closed if its coroutine has
      finished and it is not kept or overdue; else it is armed for reading or writing. */
  lemma SettleExact(w: World, fd: int)
    requires fd in w.clients && fd in w.wires
    ensures var closes := Flagged(w.pool, w.clients[fd].id) && (!w.clients[fd].keepAlive || Overdue(w, fd));
            var r := Settle(w, fd);
            && (closes ==>
                  && r.clients == w.clients - {fd} && r.wires == w.wires - {fd} && r.armed == w.armed - {fd}
                  && r.gone == w.gone + [Gone(fd, w.wires[fd])])
            && (!closes ==>
                  && r.clients == w.clients && r.wires == w.wires && r.gone == w.gone
                  && r.armed == w.armed[fd := if w.clients[fd].state == ReadingRequest then In else Out])
  {
    OverdueExact(w, fd, Exchange.Slice(0, [], [], 0));
  }

  /** A pass from a scheduled world that throws nothing closes every client that is
      overdue at the first clock reading of its turn, whatever it was waiting for, without
      reading or writing; in particular every client that was overdue, by ten seconds or by
      its mark, when the pass began. */
  lemma QuietPassClosesLate(w: World, order: seq<int>, slices: int -> Exchange.Slice, f: Callback)
    requires Scheduled(w) && Visits(order, w) && !RunAll(w, Passing(order, slices), f).failed
    ensures var r := RunAll(w, Passing(order, slices), f);
            && (forall i: nat | i < |order| :: order[i] in Reached(w, order, i, slices, f).clients
                  && (OverdueAt(Reached(w, order, i, slices, f), order[i], slices(order[i])) ==>
                        ClosedQuietly(w, r, order[i])))
            && (forall fd | fd in w.clients && Overdue(w, fd) :: ClosedQuietly(w, r, fd))
  {
    hide Scheduled, RunAll, Reached, OverdueAt, ClosedQuietly, Distinct, Overdue;
    var r := RunAll(w, Passing(order, slices), f);
    forall i: nat | i < |order|
      ensures order[i] in Reached(w, order, i, slices, f).clients
      ensures OverdueAt(Reached(w, order, i, slices, f), order[i], slices(order[i])) ==> ClosedQuietly(w, r, order[i])
      ensures Overdue(w, order[i]) ==> ClosedQuietly(w, r, order[i])
    {
      TurnCloses(w, order, i, slices, f);
    }
    forall fd | fd in w.clients && Overdue(w, fd) ensures ClosedQuietly(w, r, fd) {
      var i: nat :| i < |order| && order[i] == fd;
    }
  }

  lemma TurnCloses(w: World, order: seq<int>, i: nat, slices: int -> Exchange.Slice, f: Callback)
    requires Scheduled(w) && Visits(order, w) && !RunAll(w, Passing(order, slices), f).failed && i < |order|
    ensures var u, r := Reached(w, order, i, slices, f), RunAll(w, Passing(order, slices), f);
            && order[i] in u.clients && order[i] in w.clients
            && (OverdueAt(u, order[i], slices(order[i])) ==> ClosedQuietly(w, r, order[i]))
            && (Overdue(w, order[i]) ==> ClosedQuietly(w, r, order[i]))
  {
    hide Scheduled, RunAll, Reached, LateAt, OverdueAt, ClosedQuietly, Handle, Base, Valid, Own, Visits, Late, Overdue,
         Shrinks;
    PassReaches(w, order, i, slices, f);
    PassReaches(w, order, i + 1, slices, f);
    ReachedNext(w, order, i, slices, f);
    ReachedEnd(w, order, i + 1, slices, f);
    var u, r := Reached(w, order, i, slices, f), RunAll(w, Passing(order, slices), f);
    var fd, s := order[i], slices(order[i]);
    assert Untouched(w, u, fd);
    BaseOpen(u);
    OverdueExact(u, fd, s);
    OverdueExact(w, fd, s);
    if LateAt(u, fd, s) {
      LateCloses(w, u, r, fd, s, f);
    }
    if Late(w.clients[fd], w.now) {
      LateStays(w, u, fd, s);
      LateCloses(w, u, r, fd, s, f);
    }
  }

  lemma LateStays(w: World, u: World, fd: int, s: Exchange.Slice)
    requires Untouched(w, u, fd) && Shrinks(w, u) && Late(w.clients[fd], w.now)
    ensures LateAt(u, fd, s)
  {
    hide Own;
  }

  /** The same after any clean run of the worker. */
  lemma LateClientsAreClosed(now: int, evs: seq<Event>, order: seq<int>, slices: int -> Exchange.Slice, f: Callback)
    requires Clean(Initial(now), evs, f) && !RunAll(Initial(now), evs, f).failed
    requires Visits(order, RunAll(Initial(now), evs, f))
    requires !RunAll(RunAll(Initial(now), evs, f), Passing(order, slices), f).failed
    ensures var w := RunAll(Initial(now), evs, f);
            var r := RunAll(w, Passing(order, slices), f);
            forall fd | fd in w.clients && w.now - w.clients[fd].start > 10_000_000_000 :: ClosedQuietly(w, r, fd)
  {
    hide RunAll, Clean, Visits, ClosedQuietly, Reached, OverdueAt;
    InitialHolds(now, f);
    CleanEnd(Initial(now), evs, f);
    QuietPassClosesLate(RunAll(Initial(now), evs, f), order, slices, f);
  }
}
