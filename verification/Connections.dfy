/** Connections in the worker do not disturb each other: whatever the worker does, each
    one goes through a run of its own, as if it were alone. */
module Connections {
  import opened Http
  import opened HttpLaws
  import opened Exchange
  import opened Refinement
  import opened RoundTrip
  import opened Patience
  import opened Progress
  import opened Coroutine
  import opened Scheduler
  import opened SchedulerLaws

  // -------------------------------------------------------------- the peers

  /** What the peer of a connection was going to send, whether it has waited for each
      response so far, whether each resumption so far was prompt, and how many answers
      they were given. */
  datatype Peer = Peer(input: string, patient: bool, prompt: bool, fed: nat)

  function NewPeer(input: string): Peer {
    Peer(input, true, true, 0)
  }

  /** The peers of the open descriptors, and of the closed ones in closing order. */
  datatype Peers = Peers(open: map<int, Peer>, closed: seq<Peer>)

  /** The requests that a peer's bytes are. */
  function Intended(input: string): seq<Request> {
    Requests(input, false, false)
  }

  /** The bytes are requests as a client writes them, one after another. */
  predicate IsStream(input: string) {
    Stream(Intended(input), false) && StreamText(Intended(input)) == input
  }

  /** The connection of a routine, about to be resumed. */
  function Roused(w: World, id: nat, s: Exchange.Slice): Conn
    requires Seated(w, id)
  {
    Woken(ConnOf(w, id), s)
  }

  /** A peer when its connection is about to be resumed. */
  function Seen(peer: Peer, c: Conn, f: Callback): Peer
    requires Placed(c.point)
  {
    peer.(patient := peer.patient && Patient(c, Intended(peer.input), f),
          prompt := peer.prompt && Prompt(c),
          fed := peer.fed + |c.env.answers|)
  }

  /** Peers when routine id is resumed: only its own connection's peer is seen. */
  function Watched(p: Peers, w: World, id: nat, s: Exchange.Slice, f: Callback): Peers {
    if Seated(w, id) && Placed(ConnOf(w, id).point) && w.pool.routines[id - 1].context.fd in p.open then
      var fd := w.pool.routines[id - 1].context.fd;
      p.(open := p.open[fd := Seen(p.open[fd], Roused(w, id, s), f)])
    else p
  }

  /** Peers when a descriptor has been closed. */
  function Left(p: Peers, fd: int): Peers {
    if fd in p.open then Peers(p.open - {fd}, p.closed + [p.open[fd]]) else p
  }

  // ------------------------------------------------------- a run of its own

  /** This run on the peer's input alone leads to the connection; it is a patient one if
      the peer was patient, and prompt if its resumptions were. */
  predicate LifeIs(c: Conn, peer: Peer, id: nat, now: int, moments: seq<Moment>, f: Callback) {
    && Run(Fresh(id, peer.input, now), moments, f) == c
    && (peer.patient ==> PatientRun(Fresh(id, peer.input, now), Intended(peer.input), moments, f))
    && (peer.prompt ==> PromptRun(Fresh(id, peer.input, now), moments, f))
    && peer.fed == Fed(moments)
  }

  ghost predicate Lives(c: Conn, peer: Peer, f: Callback) {
    exists id: nat, now, moments :: LifeIs(c, peer, id, now, moments, f)
  }

  /** The same of a socket whose coroutine has ended. */
  ghost predicate Lived(w: Wire, peer: Peer, f: Callback) {
    exists c: Conn :: Lives(c, peer, f) && c.wire == w && Finished(c.point)
  }

  lemma LivesFresh(id: nat, input: string, now: int, f: Callback)
    ensures Lives(Fresh(id, input, now), NewPeer(input), f)
  {
    hide Fresh;
    assert Run(Fresh(id, input, now), [], f) == Fresh(id, input, now);
    assert LifeIs(Fresh(id, input, now), NewPeer(input), id, now, [], f);
  }

  lemma {:induction false} PatientMore(c: Conn, rs: seq<Request>, moments: seq<Moment>, m: Moment, f: Callback)
    requires Placed(c.point) && PatientRun(c, rs, moments, f)
    requires m.Wakes? ==>
      var d := Woken(Run(c, moments, f), m.slice); Placed(d.point) && Patient(d, rs, f)
    ensures PatientRun(c, rs, moments + [m], f)
    decreases |moments|
  {
    hide Then, Patient, Woken;
    if moments == [] {
      assert [m][1..] == [] && [] + [m] == [m];
      assert Run(c, [], f) == c;
    } else {
      assert (moments + [m])[0] == moments[0] && (moments + [m])[1..] == moments[1..] + [m];
      PatientMore(Then(c, moments[0], f), rs, moments[1..], m, f);
    }
  }

  lemma {:induction false} PromptMore(c: Conn, moments: seq<Moment>, m: Moment, f: Callback)
    requires Placed(c.point) && PromptRun(c, moments, f)
    requires m.Wakes? ==> Prompt(Woken(Run(c, moments, f), m.slice))
    ensures PromptRun(c, moments + [m], f)
    decreases |moments|
  {
    hide Then, Prompt, Woken;
    if moments == [] {
      assert [m][1..] == [] && [] + [m] == [m];
      assert Run(c, [], f) == c;
    } else {
      assert (moments + [m])[0] == moments[0] && (moments + [m])[1..] == moments[1..] + [m];
      PromptMore(Then(c, moments[0], f), moments[1..], m, f);
    }
  }

  lemma FedOne(moments: seq<Moment>, m: Moment)
    ensures Fed(moments + [m]) == Fed(moments) + FedBy(m)
  {
    assert (moments + [m])[..|moments|] == moments;
  }

  /** The peer after one more moment of its connection. */
  function Onward(peer: Peer, c: Conn, m: Moment, f: Callback): Peer
    requires Placed(c.point)
  {
    if m.Wakes? then WokenPlaced(c, m.slice); Seen(peer, Woken(c, m.slice), f) else peer
  }

  /** One more moment of a life. */
  lemma LivesOn(c: Conn, peer: Peer, m: Moment, f: Callback)
    requires Lives(c, peer, f) && Placed(c.point)
    ensures Lives(Then(c, m, f), Onward(peer, c, m, f), f)
  {
    hide Then, Patient, Prompt, Fresh, PatientRun, PromptRun, Intended, Run, Fed;
    var id: nat, now, moments :| LifeIs(c, peer, id, now, moments, f);
    var first, after := Fresh(id, peer.input, now), Onward(peer, c, m, f);
    RunMore(first, moments, m, f);
    FedOne(moments, m);
    if m.Wakes? {
      WokenPlaced(c, m.slice);
    }
    if after.patient {
      PatientMore(first, Intended(peer.input), moments, m, f);
    }
    if after.prompt {
      PromptMore(first, moments, m, f);
    }
    assert LifeIs(Then(c, m, f), after, id, now, moments + [m], f);
  }

  // ------------------------------------------------------ all of the worker's

  ghost predicate TracedAt(w: World, fd: int, peer: Peer, f: Callback)
    requires fd in w.wires
  {
    if fd !in w.clients then w.wires[fd] == UNUSED.(inbound := peer.input) && peer == NewPeer(peer.input)
    else if Own(w, fd) then Lives(ConnOf(w, w.clients[fd].id), peer, f)
    else Lived(w.wires[fd], peer, f)
  }

  ghost predicate Traced(w: World, p: Peers, f: Callback) {
    && p.open.Keys == w.wires.Keys && |p.closed| == |w.gone|
    && (forall fd | fd in w.wires :: TracedAt(w, fd, p.open[fd], f))
    && (forall i | 0 <= i < |w.gone| :: Lived(w.gone[i].wire, p.closed[i], f))
  }

  lemma AcceptTraced(w: World, p: Peers, fd: int, input: string, f: Callback)
    requires Base(w) && Traced(w, p, f) && fd !in w.wires
    ensures Traced(Accept(w, fd, input), p.(open := p.open[fd := NewPeer(input)]), f)
  {
    hide Lives, Lived, Valid, Owned, Ledger;
    var r := Accept(w, fd, input);
    forall g | g in r.wires && g != fd ensures TracedAt(r, g, p.open[g], f) {
      assert TracedAt(w, g, p.open[g], f);
      assert g in w.clients ==> (Own(r, g) <==> Own(w, g));
    }
  }

  lemma MarkTraced(w: World, p: Peers, fd: int, f: Callback)
    requires Base(w) && Traced(w, p, f) && fd in w.clients
    ensures Traced(Mark(w, fd), p, f)
  {
    hide Lives, Lived, Valid, Ledger, Control;
    var r := Mark(w, fd);
    forall g | g in r.wires ensures TracedAt(r, g, p.open[g], f) {
      assert TracedAt(w, g, p.open[g], f);
      assert g in w.clients ==> (Own(r, g) <==> Own(w, g));
      if g == fd && Own(w, g) {
        SuspendedInside(w, w.clients[g].id);
        LivesOn(ConnOf(w, w.clients[g].id), p.open[g], IsMarked, f);
      }
    }
  }

  lemma LaterTraced(w: World, p: Peers, t: nat, f: Callback)
    requires Base(w) && Traced(w, p, f)
    ensures Traced(Later(w, t), p, f)
  {
    hide Lives, Lived, Valid, Ledger, Control, Base;
    var r := Later(w, t);
    forall g | g in r.wires ensures TracedAt(r, g, p.open[g], f) {
      assert TracedAt(w, g, p.open[g], f);
      assert g in w.clients ==> (Own(r, g) <==> Own(w, g));
      if g in w.clients && Own(w, g) {
        SuspendedInside(w, w.clients[g].id);
        LivesOn(ConnOf(w, w.clients[g].id), p.open[g], Ages(t), f);
      }
    }
  }

  lemma NewIsFresh(w: World, fd: int, peer: Peer)
    requires Base(w) && fd in w.wires && fd !in w.clients && w.wires[fd] == UNUSED.(inbound := peer.input)
    ensures var e := Enrol(w, fd);
            && fd in e.clients && fd in e.wires && Own(e, fd) && e.clients[fd].id == NextId(w.pool)
            && ConnOf(e, e.clients[fd].id) == Fresh(NextId(w.pool), peer.input, w.now)
  {
    hide Valid, Owned, Ledger;
    CreateValid(w.pool, Context(fd, AtHead("")));
  }

  /** A new client makes nobody else's coroutine its own, or not its own. */
  lemma EnrolOwn(w: World, fd: int, g: int)
    requires Base(w) && fd in w.wires && fd !in w.clients && g in w.clients && g != fd
    ensures Own(Enrol(w, fd), g) <==> Own(w, g)
    ensures Own(w, g) ==> ConnOf(Enrol(w, fd), w.clients[g].id) == ConnOf(w, w.clients[g].id)
  {
    hide Owned, Ledger, Valid;
    CreateValid(w.pool, Context(fd, AtHead("")));
    if Accepts(w.pool, w.clients[g].id) {
      NotNext(w.pool, w.clients[g].id);
    }
  }

  lemma EnrolTraced(w: World, p: Peers, fd: int, f: Callback)
    requires Base(w) && Traced(w, p, f) && fd in w.wires
    ensures Traced(Enrol(w, fd), p, f)
  {
    hide Lives, Lived, Valid, Base, Own, ConnOf, Created, NextId, UNUSED;
    BaseOpen(w);
    if fd !in w.clients {
      var e := Enrol(w, fd);
      forall g | g in e.wires ensures TracedAt(e, g, p.open[g], f) {
        assert TracedAt(w, g, p.open[g], f);
        if g == fd {
          NewIsFresh(w, fd, p.open[fd]);
          LivesFresh(NextId(w.pool), p.open[fd].input, w.now, f);
        } else if g in w.clients {
          EnrolOwn(w, fd, g);
        }
      }
    }
  }

  lemma SettleTraced(w: World, p: Peers, fd: int, f: Callback)
    requires Base(w) && Traced(w, p, f) && fd in w.clients
    ensures var r := Settle(w, fd); Traced(r, if fd in r.wires then p else Left(p, fd), f)
  {
    hide Lives, Lived, Valid, Ledger, Owned;
    var r := Settle(w, fd);
    forall g | g in r.wires ensures TracedAt(r, g, p.open[g], f) {
      assert TracedAt(w, g, p.open[g], f);
      if g in w.clients && Own(w, g) {
        assert Owned(w, w.clients[g].id);
      }
      SettleOwn(w, fd, g);
    }
    if ToClose(w, fd) {
      assert TracedAt(w, fd, p.open[fd], f);
      assert !Own(w, fd);
    }
  }

  lemma SettleOwn(w: World, fd: int, g: int)
    requires Base(w) && fd in w.clients && g in Settle(w, fd).wires
    ensures g in w.clients <==> g in Settle(w, fd).clients
    ensures g in w.clients ==> (Own(Settle(w, fd), g) <==> Own(w, g))
    ensures g in w.clients && Own(w, g) ==> ConnOf(Settle(w, fd), w.clients[g].id) == ConnOf(w, w.clients[g].id)
  {
    hide Valid, Ledger, Owned;
  }

  // ----------------------------------------------------------- a resumption

  /** The connection that ran. */
  lemma RanSelf(w: World, id: nat, peer: Peer, s: Exchange.Slice, f: Callback)
    requires Base(w) && Accepts(w.pool, id) && Seated(w, id) && Placed(ConnOf(w, id).point)
    requires Lives(ConnOf(w, id), peer, f)
    ensures var r, fd := Ran(w, id, Exchange.Resume(ConnOf(w, id), s, f)), w.pool.routines[id - 1].context.fd;
            fd in r.clients && fd in r.wires && TracedAt(r, fd, Seen(peer, Roused(w, id, s), f), f)
  {
    hide Lives, Control, Valid, Drive, Ledger, Patient, Prompt, Intended;
    assert Owned(w, id);
    OutcomeOfResume(w, id, s, f);
    var c, d := ConnOf(w, id), Exchange.Resume(ConnOf(w, id), s, f);
    var after, fd := Seen(peer, Roused(w, id, s), f), w.pool.routines[id - 1].context.fd;
    LivesOn(c, peer, Wakes(s), f);
    assert Then(c, Wakes(s), f) == d && Onward(peer, c, Wakes(s), f) == after;
    var r := Ran(w, id, d);
    if Finished(d.point) {
      assert Lived(d.wire, after, f);
      assert !Own(r, fd);
    } else {
      RanOwned(w, id, d);
      LivesOn(d, after, Ages(0), f);
    }
  }

  lemma RanOther(w: World, id: nat, d: Conn, g: int, peer: Peer, f: Callback)
    requires Base(w) && Accepts(w.pool, id) && RunsTo(w, id, d)
    requires g in w.wires && g != w.pool.routines[id - 1].context.fd && TracedAt(w, g, peer, f)
    ensures TracedAt(Ran(w, id, d), g, peer, f)
  {
    hide Lives, Lived, Control, Valid, Ledger;
    var r := Ran(w, id, d);
    if g in w.clients {
      assert Own(r, g) <==> Own(w, g);
      if Own(w, g) {
        var other := w.clients[g].id;
        OthersOwned(w, id, other, d);
        SuspendedInside(w, other);
        LivesOn(ConnOf(w, other), peer, Ages(d.env.now - w.now), f);
      }
    }
  }

  lemma ResumeTraced(w: World, p: Peers, id: nat, s: Exchange.Slice, f: Callback)
    requires Base(w) && Traced(w, p, f)
    ensures Traced(ResumeId(w, id, s, f), Watched(p, w, id, s, f), f)
  {
    hide Lives, Lived, Control, Valid, Ledger, Drive, TracedAt, Patient, Prompt;
    if Accepts(w.pool, id) {
      assert Owned(w, id);
      OutcomeOfResume(w, id, s, f);
      var fd := w.pool.routines[id - 1].context.fd;
      var d, q := Exchange.Resume(ConnOf(w, id), s, f), Watched(p, w, id, s, f);
      var r := Ran(w, id, d);
      OwnLives(w, p, id, f);
      forall g | g in r.wires ensures TracedAt(r, g, q.open[g], f) {
        if g == fd {
          RanSelf(w, id, p.open[fd], s, f);
        } else {
          RanOther(w, id, d, g, p.open[g], f);
        }
      }
    } else {
      LaterTraced(w, p, s.elapsed, f);
    }
  }

  lemma OwnLives(w: World, p: Peers, id: nat, f: Callback)
    requires Base(w) && Traced(w, p, f) && Accepts(w.pool, id)
    ensures Seated(w, id) && w.pool.routines[id - 1].context.fd in p.open
    ensures Lives(ConnOf(w, id), p.open[w.pool.routines[id - 1].context.fd], f)
  {
    hide Lives, Lived, Control, Valid, Ledger;
    assert Owned(w, id);
    assert TracedAt(w, w.pool.routines[id - 1].context.fd, p.open[w.pool.routines[id - 1].context.fd], f);
  }

  // ------------------------------------------------------- what a life means

  /** What the peer of a connection gets; unsent is what the coroutine still holds, ended
      that it has returned. Nothing wrong is sent; nothing is missing; and it comes. */
  predicate Answered(w: Wire, peer: Peer, unsent: string, ended: bool, f: Callback) {
    && w.taken + w.inbound == peer.input
    && w.outbound <= Responses(f, w.asked)
    && (!w.crossed ==> w.outbound <= Responses(f, Requests(w.taken, false, w.closed)))
    && (!w.crossed && !w.closed ==> w.outbound <= Responses(f, Requests(peer.input, false, false)))
    && (!w.crossed && !w.cut ==>
          w.asked == Requests(w.taken, false, w.closed) && w.outbound + unsent == Responses(f, w.asked))
    && (peer.patient && IsStream(peer.input) ==>
          && !w.crossed && !w.rejected
          && (!w.cut && w.inbound == "" ==> w.asked == Intended(peer.input)))
    && (peer.prompt ==> Unhurt(w))
    && (peer.prompt && peer.fed >= |peer.input| + |Responses(f, w.asked)| ==>
          w.outbound == Responses(f, w.asked) && unsent == "" && (ended || w.inbound == ""))
    && (peer.prompt && peer.patient && IsStream(peer.input)
          && peer.fed >= |peer.input| + |Responses(f, Intended(peer.input))| ==>
          w.inbound == "" && w.asked == Intended(peer.input) && w.outbound == Responses(f, Intended(peer.input)))
  }

  /** The connection is where a run of its own on its peer's input leads. */
  ghost predicate Stands(w: Wire, peer: Peer, unsent: string, ended: bool, f: Callback) {
    exists c: Conn :: Lives(c, peer, f) && c.wire == w && Unsent(c.point) == unsent && Finished(c.point) == ended
  }

  lemma StandsMeans(w: Wire, peer: Peer, unsent: string, ended: bool, f: Callback)
    requires Stands(w, peer, unsent, ended, f)
    ensures Answered(w, peer, unsent, ended, f)
  {
    hide Lives, Answered, Unsent;
    var c: Conn :| Lives(c, peer, f) && c.wire == w && Unsent(c.point) == unsent && Finished(c.point) == ended;
    LivesMeans(c, peer, f);
  }

  lemma LivesMeans(c: Conn, peer: Peer, f: Callback)
    requires Lives(c, peer, f)
    ensures Answered(c.wire, peer, Unsent(c.point), Finished(c.point), f)
  {
    hide Run, PatientRun, PromptRun, Responses, Requests, Stream, StreamText, Lawful, Unsent, Fed;
    var id: nat, now, moments :| LifeIs(c, peer, id, now, moments, f);
    RefinesSequential(id, peer.input, now, moments, f);
    if peer.patient && IsStream(peer.input) {
      PatientRoundTrip(Intended(peer.input), id, now, moments, f);
    }
    if peer.prompt {
      LawfulFresh(id, peer.input, now, f);
      FreshWire(id, peer.input, now);
      PromptIsThrough(Fresh(id, peer.input, now), moments, f);
    }
    if peer.prompt && peer.patient && IsStream(peer.input)
      && peer.fed >= |peer.input| + |Responses(f, Intended(peer.input))|
    {
      PatientIsServed(Intended(peer.input), id, now, moments, f);
    }
  }

  /** What a peer with one written request gets. */
  predicate Got(w: Wire, peer: Peer, unsent: string, r: Request, f: Callback) {
    && !w.crossed && !w.rejected
    && (!w.cut && w.inbound == "" ==> w.asked == [r] && w.outbound + unsent == ToString(f(r)))
    && (!w.cut && !w.closed && w.inbound != "" ==> w.asked == [])
    && (peer.prompt && peer.fed >= |RequestText(r)| + |ToString(f(r))| ==>
          w.inbound == "" && w.asked == [r] && w.outbound == ToString(f(r)))
  }

  lemma StandsGot(w: Wire, peer: Peer, unsent: string, ended: bool, r: Request, f: Callback)
    requires Stands(w, peer, unsent, ended, f) && Writable(r) && peer.input == RequestText(r)
    ensures Got(w, peer, unsent, r, f)
  {
    hide Run, PatientRun, PromptRun, RequestText, Writable, ToString, Unsent, Intended, Fed;
    var c: Conn :| Lives(c, peer, f) && c.wire == w && Unsent(c.point) == unsent && Finished(c.point) == ended;
    var id: nat, now, moments :| LifeIs(c, peer, id, now, moments, f);
    RequestRoundTrip(r, id, now, moments, f);
    if peer.prompt && peer.fed >= |RequestText(r)| + |ToString(f(r))| {
      RequestIsServed(r, id, now, moments, f);
    }
  }

  lemma LivedStands(w: Wire, peer: Peer, f: Callback)
    requires Lived(w, peer, f)
    ensures Stands(w, peer, "", true, f)
  {
    hide Lives;
    var c: Conn :| Lives(c, peer, f) && c.wire == w && Finished(c.point);
    assert Unsent(c.point) == "";
  }

  lemma UnusedStands(input: string, f: Callback)
    ensures Stands(UNUSED.(inbound := input), NewPeer(input), "", false, f)
  {
    hide Fresh, Lives;
    FreshUnused(input);
    LivesFresh(1, input, 0, f);
    assert Lives(Fresh(1, input, 0), NewPeer(input), f);
  }

  lemma FreshUnused(input: string)
    ensures var c := Fresh(1, input, 0);
            c.wire == UNUSED.(inbound := input) && Unsent(c.point) == "" && !Finished(c.point)
  {
  }

  /** What the coroutine of an open descriptor still has to send. */
  function Held(w: World, fd: int): string {
    if fd in w.clients && Own(w, fd) then Unsent(ConnOf(w, w.clients[fd].id).point) else ""
  }

  /** The coroutine of an open descriptor has returned. */
  predicate Over(w: World, fd: int) {
    fd in w.clients && !Own(w, fd)
  }

  lemma OwnGoesOn(w: World, fd: int)
    requires Base(w) && fd in w.clients && Own(w, fd)
    ensures !Finished(ConnOf(w, w.clients[fd].id).point)
  {
    hide Control, Valid, Ledger;
    assert Owned(w, w.clients[fd].id);
  }

  lemma TracedStands(w: World, p: Peers, f: Callback)
    requires Base(w) && Traced(w, p, f)
    ensures p.open.Keys == w.wires.Keys && |p.closed| == |w.gone|
    ensures forall fd | fd in w.wires :: Stands(w.wires[fd], p.open[fd], Held(w, fd), Over(w, fd), f)
    ensures forall i | 0 <= i < |w.gone| :: Stands(w.gone[i].wire, p.closed[i], "", true, f)
  {
    hide Lives, Lived, Base, UNUSED, Unsent;
    forall fd | fd in w.wires ensures Stands(w.wires[fd], p.open[fd], Held(w, fd), Over(w, fd), f) {
      assert TracedAt(w, fd, p.open[fd], f);
      if fd !in w.clients {
        UnusedStands(p.open[fd].input, f);
      } else if Own(w, fd) {
        OwnGoesOn(w, fd);
      } else {
        LivedStands(w.wires[fd], p.open[fd], f);
      }
    }
    forall i | 0 <= i < |w.gone| ensures Stands(w.gone[i].wire, p.closed[i], "", true, f) {
      LivedStands(w.gone[i].wire, p.closed[i], f);
    }
  }
}
