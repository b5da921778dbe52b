/** src/http/Worker.cpp in its own form: the worker object, its client map and its
    loops, each step of which is a step of the scheduler's state machine. */
module Worker {
  import opened Text
  import opened Http
  import opened Exchange
  import opened Refinement
  import opened Coroutine
  import opened Scheduler
  import opened Shutdown
  import opened WorkerRuns
  import opened ClientStates

  /** serveClient, entered at its start or where it yielded, up to the next yield or
      its end. */
  method ServeClient(client: ClientState, k: Kernel, fd: int, p: Point, f: Callback) returns (q: Point)
    requires k.Valid() && fd in k.wires && Placed(p)
    modifies client`keepAlive, client`state, k`env, k`inbound, k`outbound, k`wires
    ensures k.Valid() && fd in k.wires && k.wires - {fd} == old(k.wires) - {fd}
    ensures Go(old(client.At(k, fd, p)), f) == client.At(k, fd, q).(parked := !Finished(q))
  {
    hide Go, Kernel.Valid, Answer, AfterHead, RequestOf, FirstEnd;
    q := p;
    while !Finished(q)
      invariant k.Valid() && fd in k.wires && k.wires - {fd} == old(k.wires) - {fd} && Placed(q)
      invariant Go(old(client.At(k, fd, p)), f) == Go(client.At(k, fd, q), f)
      decreases |k.env.answers|, Rank(q)
    {
      match q
      case AtHead(data) =>
        var head := client.ReadHead(k, fd, data, f);
        match head {
          case HeadYield(d) => return AtHead(d);
          case HeadNone => return Done;
          case HeadThrow => return Threw;
          case HeadFound(full, h) =>
            var request := client.ReadRest(k, fd, full, h, f);
            match request {
              case Waiting(w) => return w;
              case NoRequest => return Done;
              case Fatal => return Threw;
              case Asked(r) => q := Respond(client, k, fd, r, f);
            }
        }
      case AtBody(r, body, toRead) =>
        BodyWaits(client.At(k, fd, AtHead("")), r, body, toRead, f);
        var b := client.ReadBody(k, fd, r, body, toRead, f);
        match b {
          case BodyYield(all, left) => return AtBody(r, all, left);
          case BodyThrow => return Threw;
          case BodyNone => q := Respond(client, k, fd, r, f);
          case BodyRead(all) => q := Respond(client, k, fd, r.(body := Some(all)), f);
        }
      case AtSend(text, written) =>
        var s := client.SendResponse(k, fd, text, written, f);
        match s {
          case SendYield(w) => return AtSend(text, w);
          case SendStopped => return Done;
          case SendThrow => return Threw;
          case Sent =>
            if client.keepAlive {
              client.state := ReadingRequest;
              q := AtHead("");
            } else {
              q := Done;
            }
        }
    }
    Stopped(client.At(k, fd, q), f);
  }

  /** formResponse(request), printed and about to be sent. */
  method Respond(client: ClientState, k: Kernel, fd: int, r: Request, f: Callback) returns (q: Point)
    requires k.Valid() && fd in k.wires
    modifies client`state, k`wires
    ensures k.Valid() && fd in k.wires && k.wires - {fd} == old(k.wires) - {fd}
    ensures client.At(k, fd, q) == Answer(old(client.At(k, fd, AtHead(""))), r, f) && Placed(q) && q.AtSend?
  {
    hide Kernel.Valid, ToString;
    var response := f(r);
    k.Note(fd, k.wires[fd].(asked := k.wires[fd].asked + [r]));
    client.state := WritingResponse;
    var text := PrintResponse(response);
    return AtSend(text, 0);
  }

  /** The switch back from the routine that serves fd. */
  method LeaveRoutine(pool: Ordinator<Context>, fd: int, q: Point)
    requires IsId(pool.View(), pool.current)
    modifies pool
    ensures pool.View() == Switched(old(pool.View()), SliceAt(fd, q))
  {
    match q
    case Done => pool.Finish(Context(fd, q), None);
    case Threw => pool.Finish(Context(fd, q), Some(Exception("serveClient")));
    case _ => pool.Yield(Context(fd, q));
  }

  /** What RunCode and the switch back leave is a resumption. */
  lemma ContinuedIs(w: World, id: nat, s: Exchange.Slice, d: Conn, r: World, f: Callback)
    requires Base(w) && Seated(w, id) && Placed(ConnOf(w, id).point) && Go(Woken(ConnOf(w, id), s), f) == d
    requires var fd := w.pool.routines[id - 1].context.fd;
             var p := Switched(Entered(w.pool, id), SliceAt(fd, d.point));
             && IsId(p, id)
             && r == w.(clients := w.clients[fd := d.client], wires := w.wires[fd := d.wire], now := d.env.now,
                        pool := p, failed := p.routines[id - 1].exception.Some?)
    ensures r == ResumeId(w, id, s, f)
  {
    hide Base, Drive, Distinct, Switched, SliceAt;
    BaseOpen(w);
    RanFails(w, id, d);
  }

  /** resume rethrows exactly what the routine has thrown. */
  lemma RanFails(w: World, id: nat, d: Conn)
    requires Seated(w, id) && Valid(w.pool)
    ensures var p := Switched(Entered(w.pool, id), SliceAt(w.pool.routines[id - 1].context.fd, d.point));
            && IsId(p, id) && p.routines[id - 1].exception.Some? == d.point.Threw?
            && Ran(w, id, d).pool == p
  {
    hide Distinct;
  }

  /** What one epoll_wait brings: EINTR, nothing for two seconds, descriptors with
      events, or, from another thread, a socket given to addClient. */
  datatype Round =
    | Interrupted
    | Quiet(slices: int -> Exchange.Slice)
    | Ready(events: seq<(int, Exchange.Slice)>)
    | Added(fd: int, input: string)

  class Worker {
    var running: bool
    var clients: map<int, ClientState>
    const kernel: Kernel
    const pool: Ordinator<Context>
    const formResponse: Callback
    ghost var served: seq<int>
    ghost var failed: bool

    ghost function Objects(): set<object>
      reads this
    {
      set fd | fd in clients :: clients[fd]
    }

    ghost function Views(): (views: map<int, Client>)
      reads this, Objects()
      ensures views.Keys == clients.Keys
    {
      map fd | fd in clients :: clients[fd].View()
    }

    ghost function State(): World
      reads this, kernel, pool, Objects()
    {
      World(Views(), pool.View(), kernel.wires, kernel.armed, served, kernel.gone, kernel.env.now, failed)
    }

    ghost predicate Good()
      reads this, kernel, pool, Objects()
    {
      && kernel.Valid() && Base(State())
      && Apart()
    }

    /** No two descriptors share a client object. */
    ghost predicate Apart()
      reads this
    {
      forall a, b | a in clients && b in clients && a != b :: clients[a] != clients[b]
    }

    constructor (formResponse: Callback, now: int)
      ensures Good() && State() == Initial(now) && this.formResponse == formResponse
      ensures fresh(kernel) && fresh(pool) && !running
    {
      running, clients := false, map[];
      kernel := new Kernel(now);
      pool := new Ordinator<Context>();
      this.formResponse := formResponse;
      served, failed := [], false;
      new;
      assert Views() == map[];
      InitialHolds(now, formResponse);
    }

    method AddClient(fd: int, input: string)
      requires Good() && fd !in kernel.wires
      modifies kernel
      ensures Good() && State() == Accept(old(State()), fd, input)
      ensures kernel.armed == old(kernel.armed)[fd := In]
    {
      hide Base;
      AcceptBase(State(), fd, input);
      kernel.Open(fd, input);
      assert Views() == old(Views());
    }

    /** The client map of run: a client for a descriptor seen for the first time. */
    method Enlist(fd: int)
      requires Good() && fd in kernel.wires
      modifies this`clients, this`served, pool
      ensures Good() && fd in clients && State() == Enrol(old(State()), fd)
      ensures fresh(Objects() - old(Objects())) && failed == old(failed)
    {
      hide Base, Valid, Created, NextId, Kernel.Valid;
      EnrolBase(State(), fd);
      BaseOpen(State());
      if fd !in clients {
        var id := pool.Create(Context(fd, AtHead("")));
        var client := new ClientState(id, kernel.env.now);
        clients := clients[fd := client];
        served := served + [fd];
        assert Views() == old(Views())[fd := client.View()];
      }
    }

    /** Coroutine::resume(id); threw when it rethrows. */
    method Resume(id: nat, s: Exchange.Slice) returns (threw: bool)
      requires Good() && !failed
      modifies kernel, pool, Objects(), this`failed
      ensures Good() && State() == ResumeId(old(State()), id, s, formResponse) && threw == failed
      ensures clients == old(clients)
    {
      hide Base, ResumeId, Kernel.Valid;
      ResumeIdBase(State(), id, s, formResponse);
      var ok := pool.Enter(id);
      if ok {
        threw := Continue(id, s, old(pool.View()));
      } else {
        RefusedId(old(State()), id, s, formResponse);
        kernel.Pass(s.elapsed);
        assert Views() == old(Views());
        threw := false;
      }
    }

    /** The routine runs from where it was suspended until it yields or ends. */
    method Continue(id: nat, s: Exchange.Slice, ghost before: Pool<Context>) returns (threw: bool)
      requires Apart() && kernel.Valid() && !failed && Base(State().(pool := before))
      requires Accepts(before, id) && pool.View() == Entered(before, id)
      modifies kernel, pool, Objects(), this`failed
      ensures kernel.Valid() && State() == ResumeId(old(State()).(pool := before), id, s, formResponse)
      ensures threw == failed && clients == old(clients)
    {
      hide Base, ResumeId, Go, Kernel.Valid, Control, Drive, Valid, SliceAt, Ran, RunsTo, Distinct, Switched;
      ghost var w := old(State()).(pool := before);
      OutcomeOfResume(w, id, s, formResponse);
      var context := pool.routines[id - 1].context;
      var q, d := RunCode(context, s);
      threw := Return(id, context.fd, q);
      ContinuedIs(w, id, s, d, State(), formResponse);
    }

    /** The switch back, and what resume rethrows. */
    method Return(id: nat, fd: int, q: Point) returns (threw: bool)
      requires IsId(pool.View(), id) && pool.current == id
      modifies pool, this`failed
      ensures var p := Switched(old(pool.View()), SliceAt(fd, q));
              && IsId(p, id) && threw == failed == p.routines[id - 1].exception.Some?
              && State() == old(State()).(pool := p, failed := failed)
      ensures clients == old(clients)
    {
      LeaveRoutine(pool, fd, q);
      threw := pool.routines[id - 1].exception.Some?;
      failed := threw;
      assert Views() == old(Views());
    }

    method RunCode(context: Context, s: Exchange.Slice) returns (q: Point, ghost d: Conn)
      requires Apart() && kernel.Valid() && Placed(context.point)
      requires context.fd in clients && context.fd in kernel.wires
      modifies kernel`env, kernel`inbound, kernel`outbound, kernel`wires, Objects()
      ensures kernel.Valid() && q == d.point
      ensures var w, fd := old(State()), context.fd;
              && fd in w.clients && fd in w.wires
              && State() == w.(clients := w.clients[fd := d.client], wires := w.wires[fd := d.wire], now := d.env.now)
              && Go(Conn(w.clients[fd], context.point, w.wires[fd], Env(w.now + s.elapsed, s.ticks, s.answers), false),
                    formResponse) == d
    {
      hide Go, Kernel.Valid;
      var client := clients[context.fd];
      kernel.Begin(s);
      q := ServeClient(client, kernel, context.fd, context.point, formResponse);
      d := client.At(kernel, context.fd, q).(parked := !Finished(q));
      OneChanged(kernel.wires, old(kernel.wires), context.fd);
      forall g | g in clients && g != context.fd ensures clients[g].View() == old(clients[g].View()) {
        assert clients[g] != client;
      }
      assert Views() == old(Views())[context.fd := d.client];
    }

    /** handleClient(fd): whether to erase the client, and threw when resume threw. */
    method HandleClient(fd: int, s: Exchange.Slice) returns (erase: bool, threw: bool)
      requires Good() && !failed && fd in clients
      modifies kernel, pool, Objects(), this`failed
      ensures clients == old(clients) && kernel.Valid() && Apart() && threw == failed && (erase ==> !threw)
      ensures var r := Later(ResumeId(old(State()), old(clients[fd].id), s, formResponse), if threw then 0 else s.tail);
              && fd in r.clients && fd in r.wires
              && threw == r.failed && (!threw ==> erase == ToClose(r, fd))
              && State() == if threw then r else Settle(r, fd).(clients := r.clients)
    {
      hide Base, ResumeId, Kernel.Valid, ToClose, Settle;
      ResumeIdBase(State(), clients[fd].id, s, formResponse);
      threw := Resume(clients[fd].id, s);
      assert fd in Views();
      BaseOpen(State());
      if threw {
        return false, true;
      }
      erase := Conclude(fd, s.tail);
    }

    /** The rest of handleClient, after resume. */
    method Conclude(fd: int, t: nat) returns (erase: bool)
      requires Good() && fd in clients
      modifies kernel
      ensures kernel.Valid()
      ensures var r := Later(old(State()), t);
              && fd in r.clients && fd in r.wires && erase == ToClose(r, fd)
              && State() == Settle(r, fd).(clients := r.clients)
    {
      hide Base, Kernel.Valid, Valid, Settle, ToClose;
      BaseOpen(State());
      ClientId(State(), fd);
      ghost var w := Later(State(), t);
      Elapse(t);
      SettledIs(w, fd);
      erase := MustClose(fd);
      if erase {
        Close(fd);
      } else {
        Rearm(fd, if clients[fd].state == ReadingRequest then In else Out);
      }
    }

    /** Time passes before the event loop looks at the clock. */
    method Elapse(t: nat)
      modifies kernel`env
      ensures State() == Later(old(State()), t) && kernel.env.ticks == []
    {
      kernel.Pass(t);
      assert Views() == old(Views());
    }

    /** Whether the coroutine has finished and its client is not kept. */
    method MustClose(fd: int) returns (close: bool)
      requires fd in clients && IsId(pool.View(), clients[fd].id) && kernel.env.ticks == []
      modifies kernel`env
      ensures State() == old(State()) && close == ToClose(State(), fd)
    {
      var client := clients[fd];
      close := pool.IsFinished(client.id);
      if close && client.keepAlive {
        close := client.TimedOut(kernel);
      }
      assert Views() == old(Views()) && Views()[fd] == client.View();
    }

    method Close(fd: int)
      requires kernel.Valid() && fd in kernel.wires
      modifies kernel
      ensures kernel.Valid() && fd in old(State()).wires
      ensures var w := old(State());
              State() == w.(wires := w.wires - {fd}, armed := w.armed - {fd}, gone := w.gone + [Gone(fd, w.wires[fd])])
    {
      kernel.Close(fd);
      assert Views() == old(Views());
    }

    method Rearm(fd: int, interest: Interest)
      requires kernel.Valid()
      modifies kernel
      ensures kernel.Valid() && State() == old(State()).(armed := old(State()).armed[fd := interest])
    {
      kernel.Arm(fd, interest);
      assert Views() == old(Views());
    }

    /** The body of the timeout loop: the client may be erased. */
    method HandleOne(fd: int, s: Exchange.Slice) returns (threw: bool)
      requires Good() && !failed && fd in clients
      modifies kernel, pool, Objects(), this`failed, this`clients
      ensures Good() && State() == Handle(old(State()), fd, s, formResponse) && threw == failed
      ensures Objects() <= old(Objects())
    {
      hide Base, ResumeId, Kernel.Valid, ToClose, Settle, Handle;
      BaseOpen(State());
      HandleBase(State(), fd, s, formResponse);
      var erase: bool;
      erase, threw := HandleClient(fd, s);
      HandledIs(old(State()), fd, s, State(), erase, formResponse);
      if erase {
        Erase(fd);
      }
    }

    /** clients.erase */
    method Erase(fd: int)
      requires Apart()
      modifies this`clients
      ensures clients == old(clients) - {fd} && Apart()
      ensures State() == old(State()).(clients := old(State()).clients - {fd})
    {
      clients := clients - {fd};
      assert Views() == old(Views()) - {fd};
    }

    /** The body of the event loop. */
    method HandleEvent(fd: int, s: Exchange.Slice) returns (threw: bool)
      requires Good() && !failed && fd in kernel.wires
      modifies kernel, pool, Objects(), this`failed, this`clients, this`served
      ensures Good() && State() == Handle(old(State()), fd, s, formResponse) && threw == failed
      ensures fresh(Objects() - old(Objects()))
    {
      hide Base, ResumeId, Kernel.Valid;
      BaseOpen(State());
      Enlist(fd);
      threw := HandleOne(fd, s);
    }

    /** One client of a timeout pass. */
    method PassOne(fd: int, slices: int -> Exchange.Slice,
                   ghost start: World, ghost order: seq<int>, ghost todo: set<int>)
        returns (threw: bool)
      requires Good() && !failed && fd in todo && Passed(start, order, State(), todo, slices, formResponse)
      modifies kernel, pool, Objects(), this`failed, this`clients
      ensures Good() && threw == failed && Objects() <= old(Objects())
      ensures Passed(start, order + [fd], State(), todo - {fd}, slices, formResponse)
    {
      hide Base, Handle, Valid, Kernel.Valid, Passed;
      PassOneStep(start, order, State(), fd, todo, slices, formResponse);
      threw := HandleOne(fd, slices(fd));
    }

    /** The loop over all clients when nothing happened for two seconds: each is handled
        once, in the map's order, unless one throws. */
    method TimeoutPass(slices: int -> Exchange.Slice) returns (threw: bool, ghost order: seq<int>)
      requires Good() && !failed
      modifies kernel, pool, Objects(), this`failed, this`clients
      ensures Good() && State() == RunAll(old(State()), Passing(order, slices), formResponse) && threw == failed
      ensures fresh(Objects() - old(Objects()))
      ensures PartOf(order, old(State())) && (!threw ==> Visits(order, old(State())))
    {
      hide Base, Handle, Valid, Kernel.Valid, RunAll, Step, Passed, PartOf, Visits;
      ghost var start := State();
      threw, order := false, [];
      var todo := clients.Keys;
      PassStart(start, slices, formResponse);
      while todo != {} && !threw
        invariant Good() && threw == failed && Objects() <= old(Objects())
        invariant Passed(start, order, State(), todo, slices, formResponse)
        decreases |todo|
      {
        SomeElement(todo);
        var fd :| fd in todo;
        Fewer(todo, fd);
        threw := PassOne(fd, slices, start, order, todo);
        todo, order := todo - {fd}, order + [fd];
      }
      PassEnd(start, order, State(), todo, slices, formResponse);
    }

    method MarkClient(fd: int)
      requires Good() && fd in clients
      modifies Objects()
      ensures Good() && State() == Mark(old(State()), fd)
    {
      hide Base, Kernel.Valid;
      MarkBase(State(), fd);
      var client := clients[fd];
      client.marked := true;
      forall g | g in clients && g != fd ensures clients[g].View() == old(clients[g].View()) {
        assert clients[g] != client;
      }
      assert Views() == Mark(old(State()), fd).clients;
    }

    /** The body of the shutdown loop. */
    method MarkOne(fd: int, s: Exchange.Slice) returns (threw: bool)
      requires Good() && !failed && fd in clients
      modifies kernel, pool, Objects(), this`failed, this`clients
      ensures fd in old(State()).clients && Valid(Mark(old(State()), fd).pool) && fd in Mark(old(State()), fd).wires
      ensures Good() && State() == Handle(Mark(old(State()), fd), fd, s, formResponse) && threw == failed
      ensures Objects() <= old(Objects())
    {
      hide Base, Handle, Kernel.Valid;
      MarkClient(fd);
      BaseOpen(State());
      threw := HandleOne(fd, s);
    }

    /** One client of a shutdown pass. */
    method DrainOne(fd: int, slices: int -> Exchange.Slice,
                    ghost start: World, ghost order: seq<int>, ghost todo: set<int>)
        returns (threw: bool)
      requires Good() && !failed && fd in todo && Draining(start, order, State(), todo, slices, formResponse)
      modifies kernel, pool, Objects(), this`failed, this`clients
      ensures Good() && threw == failed && Objects() <= old(Objects())
      ensures Draining(start, order + [fd], State(), todo - {fd}, slices, formResponse)
    {
      hide Base, Handle, Mark, Valid, Kernel.Valid, Draining;
      DrainOneStep(start, order, State(), fd, todo, slices, formResponse);
      threw := MarkOne(fd, slices(fd));
    }

    /** One pass of the shutdown loop: each client is marked and handled once, in the
        map's order, unless one throws. */
    method DrainOnce(slices: int -> Exchange.Slice) returns (threw: bool, ghost order: seq<int>)
      requires Good() && !failed
      modifies kernel, pool, Objects(), this`failed, this`clients
      ensures Good() && State() == RunAll(old(State()), Drains(order, slices), formResponse) && threw == failed
      ensures fresh(Objects() - old(Objects()))
      ensures PartOf(order, old(State())) && (!threw ==> Visits(order, old(State())))
      ensures !threw ==> AllMarked(State()) && (AllMarked(old(State())) ==> clients == map[])
    {
      hide Base, Handle, Mark, Valid, Kernel.Valid, RunAll, Step, AllMarked, Draining, PartOf, Visits;
      ghost var start := State();
      threw, order := false, [];
      var todo := clients.Keys;
      DrainStart(start, slices, formResponse);
      while todo != {} && !threw
        invariant Good() && threw == failed && Objects() <= old(Objects())
        invariant Draining(start, order, State(), todo, slices, formResponse)
        decreases |todo|
      {
        SomeElement(todo);
        var fd :| fd in todo;
        Fewer(todo, fd);
        threw := DrainOne(fd, slices, start, order, todo);
        todo, order := todo - {fd}, order + [fd];
      }
      DrainEnd(start, order, State(), todo, slices, formResponse);
    }

    /** epoll reports open descriptors only. */
    method OneEvent(fd: int, s: Exchange.Slice) returns (threw: bool)
      requires Good() && !failed
      modifies kernel, pool, Objects(), this`failed, this`clients, this`served
      ensures Valid(old(State()).pool)
      ensures State() == if fd in old(State()).wires then Handle(old(State()), fd, s, formResponse) else old(State())
      ensures Good() && threw == failed && fresh(Objects() - old(Objects()))
    {
      hide Base, Handle, Coroutine.Valid, Kernel.Valid;
      BaseOpen(State());
      var open := kernel.IsOpen(fd);
      threw := false;
      if open {
        threw := HandleEvent(fd, s);
      }
    }

    /** The loop over the events of one epoll_wait, which are of open descriptors: all are
        handled in order, up to one that throws. */
    method EventPass(events: seq<(int, Exchange.Slice)>) returns (threw: bool)
      requires Good() && !failed
      modifies kernel, pool, Objects(), this`failed, this`clients, this`served
      ensures Good() && State() == RunAll(old(State()), Happenings(events), formResponse) && threw == failed
      ensures fresh(Objects() - old(Objects()))
    {
      hide Base, Handle, Valid, Kernel.Valid, RunAll, Step, Happenings;
      ghost var start := State();
      threw := false;
      NoHappenings(start, events, formResponse);
      var i := 0;
      while i < |events| && !threw
        invariant i <= |events| && Good() && threw == failed && fresh(Objects() - old(Objects()))
        invariant State() == RunAll(start, Happenings(events[..i]), formResponse)
      {
        EventStep(start, events, i, State(), formResponse);
        threw := OneEvent(events[i].0, events[i].1);
        i := i + 1;
      }
      EventEnd(start, events, i, State(), formResponse);
    }

    /** What run does after one epoll_wait. */
    method ServeRound(round: Round) returns (threw: bool, ghost evs: seq<Event>)
      requires Good() && !failed
      modifies kernel, pool, Objects(), this`failed, this`clients, this`served
      ensures Good() && State() == RunAll(old(State()), evs, formResponse) && threw == failed
      ensures fresh(Objects() - old(Objects()))
      ensures RoundIs(old(State()), round, evs, formResponse)
    {
      hide Base, Handle, RunAll, Step, Visits, PartOf;
      Nothing(State(), formResponse);
      threw, evs := false, [];
      match round
      case Interrupted =>
      case Quiet(slices) =>
        ghost var order;
        threw, order := TimeoutPass(slices);
        evs := Passing(order, slices);
      case Ready(events) =>
        evs := Happenings(events);
        threw := EventPass(events);
      case Added(fd, input) =>
        evs := [Accepted(fd, input)];
        AddedStep(State(), fd, input, formResponse);
        var open := kernel.IsOpen(fd);
        if !open {
          AddClient(fd, input);
        }
    }

    /** The shutdown loop, which needs at most two passes. */
    method DrainAll(drain: nat -> int -> Exchange.Slice) returns (threw: bool, ghost orders: seq<seq<int>>)
      requires Good() && !failed
      modifies kernel, pool, Objects(), this`failed, this`clients
      ensures Good() && State() == RunAll(old(State()), AllDrains(orders, drain), formResponse) && threw == failed
      ensures |orders| <= 2 && PassesAre(old(State()), orders, drain, formResponse)
      ensures !threw ==> clients == map[]
    {
      hide Base, Handle, RunAll, Step, AllMarked, Kernel.Valid, PassIs, AllDrains, PassesAre, Visits, PartOf, DrainedBy;
      ghost var start := State();
      threw, orders := false, [];
      NoPasses(start, drain, formResponse);
      var pass := 0;
      while clients.Keys != {} && !threw
        invariant Good() && threw == failed && fresh(Objects() - old(Objects()))
        invariant |orders| == pass && DrainedBy(start, orders, State(), drain, formResponse)
        invariant !threw && pass >= 1 ==> AllMarked(State())
        decreases 2 - pass
      {
        ghost var before := State();
        ghost var order;
        NotTwice(start, orders, before, drain, formResponse);
        threw, order := DrainOnce(drain(pass));
        OnePass(start, orders, order, drain, before, State(), formResponse);
        orders := orders + [order];
        pass := pass + 1;
      }
      AllPasses(start, orders, State(), drain, formResponse);
    }

    /** run(): the rounds until stop() is called, in order and each as its kind asks, and
        then the shutdown loop. Unless an exception leaves it, no client is left and all
        that were served are closed, once each. */
    method Run(rounds: seq<Round>, drain: nat -> int -> Exchange.Slice)
        returns (ghost parts: seq<seq<Event>>, ghost orders: seq<seq<int>>)
      requires Good() && !failed
      modifies kernel, pool, Objects(), this`failed, this`clients, this`served, this`running
      ensures Good() && RoundsAre(old(State()), rounds, parts, formResponse)
      ensures var w := RunAll(old(State()), Flat(parts), formResponse);
              && (!w.failed ==> |parts| == |rounds|) && (w.failed ==> orders == [])
              && State() == RunAll(w, AllDrains(orders, drain), formResponse)
              && |orders| <= 2 && PassesAre(w, orders, drain, formResponse)
      ensures !failed ==> clients == map[] && !running && multiset(served) == multiset(GoneFds(kernel.gone))
    {
      hide Base, Handle, RunAll, Step, Kernel.Valid, RoundIs, Flat, RoundsAre, PassesAre, AllDrains;
      ghost var start := State();
      parts, orders := [], [];
      NoRounds(start, rounds, drain, formResponse);
      running := true;
      assert Views() == old(Views());
      var next := 0;
      while running
        invariant next <= |rounds| && Good() && !failed && fresh(Objects() - old(Objects()))
        invariant State() == RunAll(start, Flat(parts), formResponse) && |parts| == next
        invariant RoundsAre(start, rounds, parts, formResponse) && (!running ==> next == |rounds|)
        decreases |rounds| - next, running
      {
        if next == |rounds| {
          Stop();
        } else {
          ghost var before := State();
          var threw, more := ServeRound(rounds[next]);
          OneRound(start, rounds, parts, more, before, State(), formResponse);
          parts := parts + [more];
          if threw {
            NoPasses(State(), drain, formResponse);
            AllPasses(State(), [], State(), drain, formResponse);
            return;
          }
          next := next + 1;
        }
      }
      var threw: bool;
      threw, orders := DrainAll(drain);
      if !threw {
        AllClosed(State());
      }
    }

    /** stop() */
    method Stop()
      modifies this`running
      ensures !running && State() == old(State())
    {
      running := false;
      assert Views() == old(Views());
    }
  }

  /** What closing or re-arming leaves, before the client is erased. */
  lemma SettledIs(w: World, fd: int)
    requires fd in w.clients && fd in w.wires
    ensures Settle(w, fd).(clients := w.clients) ==
      if ToClose(w, fd)
      then w.(wires := w.wires - {fd}, armed := w.armed - {fd}, gone := w.gone + [Gone(fd, w.wires[fd])])
      else w.(armed := w.armed[fd := if w.clients[fd].state == ReadingRequest then In else Out])
  {
    hide ToClose;
  }

  /** Erasing the client completes what handleClient did. */
  lemma HandledIs(w: World, fd: int, s: Exchange.Slice, h: World, erase: bool, f: Callback)
    requires Valid(w.pool) && fd in w.wires && fd in w.clients
    requires var threw := ResumeId(w, w.clients[fd].id, s, f).failed;
             var r := Later(ResumeId(w, w.clients[fd].id, s, f), if threw then 0 else s.tail);
             && fd in r.clients && fd in r.wires && (erase ==> !threw) && (!threw ==> erase == ToClose(r, fd))
             && h == if threw then r else Settle(r, fd).(clients := r.clients)
    ensures Handle(w, fd, s, f) == if erase then h.(clients := h.clients - {fd}) else h
  {
    hide ResumeId;
  }

  lemma AllClosed(w: World)
    requires Base(w) && w.clients.Keys == {}
    ensures multiset(w.served) == multiset(GoneFds(w.gone))
  {
    hide Valid, Owned;
    assert Ledger(w);
  }

  // ------------------------------------------ which events the loops make

  /** The events of one epoll_wait, in order. */
  function Happenings(events: seq<(int, Exchange.Slice)>): seq<Event> {
    seq(|events|, i requires 0 <= i < |events| => Happened(events[i].0, events[i].1))
  }

  /** The events of a shutdown pass. */
  function Drains(order: seq<int>, slices: int -> Exchange.Slice): seq<Event>
    decreases |order|
  {
    if order == [] then []
    else
      var fd := order[|order| - 1];
      Drains(order[..|order| - 1], slices) + [Marked(fd)] + [Happened(fd, slices(fd))]
  }

  /** Clients, each at most once. */
  predicate PartOf(order: seq<int>, w: World) {
    Distinct(order) && forall i :: 0 <= i < |order| ==> order[i] in w.clients
  }

  /** The events that a round means: all of the events, or all of the clients once each
      unless one throws. */
  ghost predicate RoundIs(w: World, round: Round, evs: seq<Event>, f: Callback) {
    match round
    case Interrupted => evs == []
    case Ready(events) => evs == Happenings(events)
    case Added(fd, input) => evs == [Accepted(fd, input)]
    case Quiet(slices) =>
      exists order ::
        PartOf(order, w) && evs == Passing(order, slices) && (!RunAll(w, evs, f).failed ==> Visits(order, w))
  }

  function Flat(parts: seq<seq<Event>>): seq<Event>
    decreases |parts|
  {
    if parts == [] then [] else Flat(parts[..|parts| - 1]) + parts[|parts| - 1]
  }

  /** The first rounds, one after the other. */
  ghost predicate RoundsAre(w: World, rounds: seq<Round>, parts: seq<seq<Event>>, f: Callback) {
    && |parts| <= |rounds|
    && forall i | 0 <= i < |parts| :: RoundIs(RunAll(w, Flat(parts[..i]), f), rounds[i], parts[i], f)
  }

  /** A shutdown pass visits every client unless one throws. */
  predicate PassIs(w: World, order: seq<int>, slices: int -> Exchange.Slice, f: Callback) {
    PartOf(order, w) && (!RunAll(w, Drains(order, slices), f).failed ==> Visits(order, w))
  }

  function AllDrains(orders: seq<seq<int>>, drain: nat -> int -> Exchange.Slice): seq<Event>
    decreases |orders|
  {
    if orders == [] then []
    else AllDrains(orders[..|orders| - 1], drain) + Drains(orders[|orders| - 1], drain(|orders| - 1))
  }

  predicate PassesAre(w: World, orders: seq<seq<int>>, drain: nat -> int -> Exchange.Slice, f: Callback) {
    forall p: nat | p < |orders| :: PassIs(RunAll(w, AllDrains(orders[..p], drain), f), orders[p], drain(p), f)
  }

  // ---------------------------------------------------------- the event loop

  lemma NoHappenings(w: World, events: seq<(int, Exchange.Slice)>, f: Callback)
    ensures RunAll(w, Happenings(events[..0]), f) == w
  {
    assert Happenings(events[..0]) == [];
  }

  lemma EventStep(start: World, events: seq<(int, Exchange.Slice)>, i: nat, w: World, f: Callback)
    requires Base(w) && !w.failed && i < |events| && w == RunAll(start, Happenings(events[..i]), f)
    ensures var fd, s := events[i].0, events[i].1;
            if fd in w.wires then Valid(w.pool) && RunAll(start, Happenings(events[..i + 1]), f) == Handle(w, fd, s, f)
            else RunAll(start, Happenings(events[..i + 1]), f) == w
  {
    hide Base, Valid, Handle, RunAll;
    BaseOpen(w);
    assert Happenings(events[..i + 1]) == Happenings(events[..i]) + [Happened(events[i].0, events[i].1)];
    OneMore(start, Happenings(events[..i]), Happened(events[i].0, events[i].1), f);
  }

  /** After an exception the remaining events change nothing. */
  lemma EventEnd(start: World, events: seq<(int, Exchange.Slice)>, i: nat, w: World, f: Callback)
    requires i <= |events| && w == RunAll(start, Happenings(events[..i]), f) && (i == |events| || w.failed)
    ensures w == RunAll(start, Happenings(events), f)
  {
    hide RunAll;
    if i == |events| {
      assert events[..i] == events;
    } else {
      assert Happenings(events) == Happenings(events[..i]) + Happenings(events)[i..];
      TwoParts(start, Happenings(events[..i]), Happenings(events)[i..], f);
      FailedStays(w, Happenings(events)[i..], f);
    }
  }

  lemma AddedStep(w: World, fd: int, input: string, f: Callback)
    requires !w.failed
    ensures RunAll(w, [Accepted(fd, input)], f) == if fd in w.wires then w else Accept(w, fd, input)
  {
    assert [Accepted(fd, input)][1..] == [];
  }

  // ------------------------------------------------------------- the rounds

  lemma NoRounds(w: World, rounds: seq<Round>, drain: nat -> int -> Exchange.Slice, f: Callback)
    ensures RunAll(w, Flat([]), f) == w && RoundsAre(w, rounds, [], f)
  {
  }

  lemma OneRound(start: World, rounds: seq<Round>, parts: seq<seq<Event>>,
                 more: seq<Event>, w: World, r: World, f: Callback)
    requires RoundsAre(start, rounds, parts, f) && |parts| < |rounds| && w == RunAll(start, Flat(parts), f)
    requires RoundIs(w, rounds[|parts|], more, f) && r == RunAll(w, more, f)
    ensures RoundsAre(start, rounds, parts + [more], f) && r == RunAll(start, Flat(parts + [more]), f)
  {
    hide RunAll, RoundIs;
    var longer := parts + [more];
    assert longer[..|parts|] == parts;
    TwoParts(start, Flat(parts), more, f);
    forall i | 0 <= i < |longer| ensures RoundIs(RunAll(start, Flat(longer[..i]), f), rounds[i], longer[i], f) {
      if i < |parts| {
        assert longer[..i] == parts[..i];
      }
    }
  }

  /** w is where these passes of the shutdown loop lead; the second leaves no client. */
  predicate DrainedBy(start: World, orders: seq<seq<int>>, w: World, drain: nat -> int -> Exchange.Slice, f: Callback) {
    && w == RunAll(start, AllDrains(orders, drain), f) && PassesAre(start, orders, drain, f)
    && |orders| <= 2 && (|orders| == 2 && !w.failed ==> w.clients.Keys == {})
  }

  lemma NoPasses(w: World, drain: nat -> int -> Exchange.Slice, f: Callback)
    ensures DrainedBy(w, [], w, drain, f)
  {
  }

  lemma NotTwice(start: World, orders: seq<seq<int>>, w: World, drain: nat -> int -> Exchange.Slice, f: Callback)
    requires DrainedBy(start, orders, w, drain, f) && w.clients.Keys != {} && !w.failed
    ensures |orders| < 2
  {
    hide RunAll, PassesAre, AllDrains;
  }

  lemma AllPasses(start: World, orders: seq<seq<int>>, w: World, drain: nat -> int -> Exchange.Slice, f: Callback)
    requires DrainedBy(start, orders, w, drain, f)
    ensures w == RunAll(start, AllDrains(orders, drain), f) && PassesAre(start, orders, drain, f) && |orders| <= 2
  {
    hide RunAll, PassesAre, AllDrains;
  }

  lemma OnePass(start: World, orders: seq<seq<int>>, order: seq<int>,
                drain: nat -> int -> Exchange.Slice, w: World, r: World, f: Callback)
    requires DrainedBy(start, orders, w, drain, f) && |orders| < 2
    requires PartOf(order, w) && (!r.failed ==> Visits(order, w)) && r == RunAll(w, Drains(order, drain(|orders|)), f)
    requires |orders| == 1 && !r.failed ==> r.clients.Keys == {}
    ensures DrainedBy(start, orders + [order], r, drain, f)
  {
    hide RunAll, Drains, PartOf, Visits;
    var longer := orders + [order];
    assert longer[..|orders|] == orders;
    TwoParts(start, AllDrains(orders, drain), Drains(order, drain(|orders|)), f);
    forall p: nat | p < |longer|
      ensures PassIs(RunAll(start, AllDrains(longer[..p], drain), f), longer[p], drain(p), f)
    {
      if p < |orders| {
        assert longer[..p] == orders[..p];
      }
    }
  }

  // ------------------------------------------------------------- the passes

  /** The clients of start have been visited, in this order, or are still to be. */
  predicate Visiting(start: World, order: seq<int>, todo: set<int>) {
    && PartOf(order, start)
    && (forall i :: 0 <= i < |order| ==> order[i] !in todo)
    && (forall fd | fd in start.clients :: fd in todo || fd in order)
    && todo <= start.clients.Keys
  }

  lemma VisitOne(start: World, order: seq<int>, todo: set<int>, fd: int)
    requires Visiting(start, order, todo) && fd in todo
    ensures Visiting(start, order + [fd], todo - {fd})
  {
    var longer := order + [fd];
    forall g | g in start.clients ensures g in todo - {fd} || g in longer {
      assert g == fd ==> longer[|order|] == g;
      assert g in order ==> g in longer;
    }
  }

  lemma VisitStart(start: World)
    ensures Visiting(start, [], start.clients.Keys)
  {
  }

  lemma VisitEnd(start: World, order: seq<int>, todo: set<int>)
    requires Visiting(start, order, todo)
    ensures PartOf(order, start) && (todo == {} ==> Visits(order, start))
  {
  }

  /** In the middle of a timeout pass, with todo still to visit. */
  predicate Passed(start: World, order: seq<int>, w: World, todo: set<int>,
                   slices: int -> Exchange.Slice, f: Callback)
  {
    && w == RunAll(start, Passing(order, slices), f)
    && Visiting(start, order, todo) && (w.failed || todo <= w.clients.Keys)
  }

  lemma PassStart(w: World, slices: int -> Exchange.Slice, f: Callback)
    requires !w.failed
    ensures Passed(w, [], w, w.clients.Keys, slices, f)
  {
    VisitStart(w);
  }

  lemma PassEnd(start: World, order: seq<int>, w: World, todo: set<int>, slices: int -> Exchange.Slice, f: Callback)
    requires Passed(start, order, w, todo, slices, f)
    ensures w == RunAll(start, Passing(order, slices), f)
    ensures PartOf(order, start) && (todo == {} ==> Visits(order, start))
  {
    hide RunAll, Visiting;
    VisitEnd(start, order, todo);
  }

  lemma PassOneStep(start: World, order: seq<int>, w: World, fd: int, todo: set<int>,
                    slices: int -> Exchange.Slice, f: Callback)
    requires Base(w) && !w.failed && fd in todo && Passed(start, order, w, todo, slices, f)
    ensures fd in w.clients && fd in w.wires && Valid(w.pool)
    ensures Passed(start, order + [fd], Handle(w, fd, slices(fd), f), todo - {fd}, slices, f)
  {
    hide Base, Valid, Handle, RunAll, Visiting;
    BaseOpen(w);
    VisitOne(start, order, todo, fd);
    assert Passing(order + [fd], slices) == Passing(order, slices) + [Happened(fd, slices(fd))];
    PassStep(start, Passing(order, slices), w, fd, slices(fd), f);
  }

  /** Handling one client in a pass erases no other. */
  lemma PassStep(start: World, evs: seq<Event>, w: World, fd: int, s: Exchange.Slice, f: Callback)
    requires Base(w) && !w.failed && fd in w.clients && w == RunAll(start, evs, f)
    ensures fd in w.wires && Valid(w.pool)
    ensures var r := Handle(w, fd, s, f);
            r == RunAll(start, evs + [Happened(fd, s)], f) && w.clients.Keys - {fd} <= r.clients.Keys
  {
    hide Base, Valid, Handle;
    BaseOpen(w);
    HandleKeepsMarks(w, fd, s, f);
    OneMore(start, evs, Happened(fd, s), f);
    assert Step(w, Happened(fd, s), f) == Handle(w, fd, s, f);
    forall g | g in w.clients && g != fd ensures g in Handle(w, fd, s, f).clients {
    }
  }

  /** Everybody outside of todo is marked. */
  predicate MarkedBut(w: World, todo: set<int>) {
    forall fd | fd in w.clients :: fd in todo || w.clients[fd].marked
  }

  /** In the middle of a pass of the shutdown loop, with todo still to visit. */
  predicate Draining(start: World, order: seq<int>, w: World, todo: set<int>,
                     slices: int -> Exchange.Slice, f: Callback)
  {
    && w == RunAll(start, Drains(order, slices), f) && Visiting(start, order, todo)
    && (w.failed || (todo <= w.clients.Keys && MarkedBut(w, todo)))
    && (AllMarked(start) && !w.failed ==> AllMarked(w) && w.clients.Keys == todo)
  }

  lemma DrainStart(w: World, slices: int -> Exchange.Slice, f: Callback)
    requires !w.failed
    ensures Draining(w, [], w, w.clients.Keys, slices, f)
  {
    VisitStart(w);
  }

  lemma DrainEnd(start: World, order: seq<int>, w: World, todo: set<int>, slices: int -> Exchange.Slice, f: Callback)
    requires Draining(start, order, w, todo, slices, f)
    ensures w == RunAll(start, Drains(order, slices), f)
    ensures PartOf(order, start) && (todo == {} ==> Visits(order, start))
    ensures todo == {} && !w.failed ==>
      AllMarked(w) && (AllMarked(start) ==> w.clients == map[] && w.clients.Keys == {})
  {
    hide RunAll, Visiting, Drains;
    VisitEnd(start, order, todo);
  }

  /** Marking and handling one client in a pass. */
  lemma DrainOneStep(start: World, order: seq<int>, w: World, fd: int, todo: set<int>,
                     slices: int -> Exchange.Slice, f: Callback)
    requires Base(w) && !w.failed && fd in todo && Draining(start, order, w, todo, slices, f)
    ensures fd in w.clients && fd in w.wires && Valid(w.pool)
    ensures Draining(start, order + [fd], Handle(Mark(w, fd), fd, slices(fd), f), todo - {fd}, slices, f)
  {
    hide Base, Valid, Handle, RunAll, Visiting, Drains, MarkedBut, AllMarked;
    BaseOpen(w);
    VisitOne(start, order, todo, fd);
    MarkBase(w, fd);
    var evs := Drains(order, slices);
    DrainsMore(order, fd, slices);
    OneMore(start, evs, Marked(fd), f);
    var m := Mark(w, fd);
    PassStep(start, evs + [Marked(fd)], m, fd, slices(fd), f);
    MarkedButLess(w, fd, todo, slices(fd), f);
    if AllMarked(w) {
      MarkedLeaves(w, fd, slices(fd), f);
    }
  }

  lemma DrainsMore(order: seq<int>, fd: int, slices: int -> Exchange.Slice)
    ensures Drains(order + [fd], slices) == Drains(order, slices) + [Marked(fd)] + [Happened(fd, slices(fd))]
  {
    assert (order + [fd])[..|order|] == order;
  }

  lemma MarkedButLess(w: World, fd: int, todo: set<int>, s: Exchange.Slice, f: Callback)
    requires Base(w) && fd in w.clients && Base(Mark(w, fd)) && MarkedBut(w, todo)
    ensures fd in w.wires && Valid(w.pool) && MarkedBut(Handle(Mark(w, fd), fd, s, f), todo - {fd})
  {
    hide Base, Valid, Handle;
    BaseOpen(w);
    var m := Mark(w, fd);
    HandleKeepsMarks(m, fd, s, f);
    var r := Handle(m, fd, s, f);
    forall g | g in r.clients ensures g in todo - {fd} || r.clients[g].marked {
      assert g in m.clients;
    }
  }

  lemma MarkedLeaves(w: World, fd: int, s: Exchange.Slice, f: Callback)
    requires Base(w) && fd in w.clients && Base(Mark(w, fd)) && !w.failed && AllMarked(w)
    ensures fd in w.wires && Valid(w.pool)
    ensures var r := Handle(Mark(w, fd), fd, s, f);
            !r.failed && AllMarked(r) && r.clients.Keys == w.clients.Keys - {fd}
  {
    hide Base, Valid, Handle;
    BaseOpen(w);
    var m := Mark(w, fd);
    AllMarkedOwner(m, m.clients[fd].id);
    HandleMarked(m, fd, s, f);
  }

  lemma Fewer(todo: set<int>, fd: int)
    requires fd in todo
    ensures |todo - {fd}| < |todo|
  {
  }

  lemma SomeElement(todo: set<int>)
    ensures todo != {} ==> exists fd :: fd in todo
  {
    if forall fd :: fd !in todo {
      assert todo == {};
    }
  }

  lemma ClientId(w: World, fd: int)
    requires Base(w) && fd in w.clients
    ensures IsId(w.pool, w.clients[fd].id)
  {
  }

  lemma OneChanged<T>(a: map<int, T>, b: map<int, T>, fd: int)
    requires a - {fd} == b - {fd} && fd in a && fd in b
    ensures a == b[fd := a[fd]]
  {
    forall g | g in a && g != fd ensures g in b && a[g] == b[g] {
      assert g in a - {fd};
    }
    forall g | g in b && g != fd ensures g in a {
      assert g in b - {fd};
    }
  }
}
