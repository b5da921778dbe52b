/** Which peers keep a worker within its scheduler invariant: those that send requests as
    clients write them and wait for each response, in particular those with a single
    request. */
module PeerRuns {
  import opened Text
  import opened Http
  import opened HttpLaws
  import opened Exchange
  import opened Refinement
  import opened RoundTrip
  import opened Patience
  import opened Coroutine
  import opened Scheduler
  import opened SchedulerLaws
  import opened Connections
  import opened WorkerRuns

  predicate Courteous(peer: Peer) {
    peer.patient && IsStream(peer.input)
  }

  predicate AllCourteous(p: Peers) {
    && (forall fd | fd in p.open :: Courteous(p.open[fd]))
    && (forall i | 0 <= i < |p.closed| :: Courteous(p.closed[i]))
  }

  // -------------------------------------------------- courtesy, looking back

  lemma LeftBack(p: Peers, fd: int)
    requires AllCourteous(Left(p, fd))
    ensures AllCourteous(p)
  {
    hide Courteous;
    if fd in p.open {
      var q := Left(p, fd);
      assert q.closed[|p.closed|] == p.open[fd];
      forall g | g in p.open ensures Courteous(p.open[g]) {
        assert g != fd ==> g in q.open && q.open[g] == p.open[g];
      }
      forall i | 0 <= i < |p.closed| ensures Courteous(p.closed[i]) {
        assert q.closed[i] == p.closed[i];
      }
    }
  }

  lemma WatchedBack(p: Peers, w: World, id: nat, s: Exchange.Slice, f: Callback)
    requires AllCourteous(Watched(p, w, id, s, f))
    ensures AllCourteous(p)
    ensures Seated(w, id) && Placed(ConnOf(w, id).point) && w.pool.routines[id - 1].context.fd in p.open ==>
      Patient(Roused(w, id, s), Intended(p.open[w.pool.routines[id - 1].context.fd].input), f)
  {
    hide Patient, IsStream, Roused, Intended;
    var q := Watched(p, w, id, s, f);
    forall g | g in p.open ensures Courteous(p.open[g]) {
      assert Courteous(q.open[g]);
    }
    if Seated(w, id) && Placed(ConnOf(w, id).point) && w.pool.routines[id - 1].context.fd in p.open {
      assert Courteous(q.open[w.pool.routines[id - 1].context.fd]);
    }
  }

  lemma StepBack(p: Peers, w: World, ev: Event, f: Callback)
    requires p.open.Keys == w.wires.Keys && AllCourteous(PeersStep(p, w, ev, f))
    ensures AllCourteous(p)
  {
    hide Courteous, Watched, Left, Handle;
    if !w.failed {
      match ev
      case Accepted(fd, input) =>
        if fd !in w.wires {
          forall g | g in p.open ensures Courteous(p.open[g]) {
            assert PeersStep(p, w, ev, f).open[g] == p.open[g];
          }
        }
      case Happened(fd, s) =>
        if fd in w.wires && Valid(w.pool) {
          var e := Enrol(w, fd);
          var q := Watched(p, e, e.clients[fd].id, s, f);
          if fd !in Handle(w, fd, s, f).wires {
            LeftBack(q, fd);
          }
          WatchedBack(p, e, e.clients[fd].id, s, f);
        }
      case Marked(_) =>
    }
  }

  lemma {:induction false} RunBack(p: Peers, w: World, evs: seq<Event>, f: Callback)
    requires Base(w) && Traced(w, p, f) && AllCourteous(PeersOf(p, w, evs, f))
    ensures AllCourteous(p)
    decreases |evs|
  {
    hide Base, TracedAt, Lived, Step, PeersStep, AllCourteous;
    if evs != [] {
      StepKeeps(w, p, evs[0], f);
      RunBack(PeersStep(p, w, evs[0], f), Step(w, evs[0], f), evs[1..], f);
      StepBack(p, w, evs[0], f);
    }
  }

  // ------------------------------------------------------ courtesy is enough

  /** The connection of a courteous peer is inside its current request. */
  lemma LivesPaced(c: Conn, peer: Peer, f: Callback)
    requires Lives(c, peer, f) && Courteous(peer)
    ensures Placed(c.point) && Lawful(c, f) && Paced(c, Intended(peer.input))
  {
    hide Run, PatientRun, StreamText, Stream, Lawful, Paced, Requests;
    var id: nat, now, moments :| LifeIs(c, peer, id, now, moments, f);
    LawfulFresh(id, peer.input, now, f);
    LawfulRun(Fresh(id, peer.input, now), moments, f);
    PacedFresh(id, Intended(peer.input), now);
    PacedRun(Fresh(id, peer.input, now), Intended(peer.input), moments, f);
  }

  /** It meets no malformed head when it is resumed. */
  lemma CourteousKeeps(c: Conn, peer: Peer, s: Exchange.Slice, f: Callback)
    requires Lives(c, peer, f) && Courteous(peer)
    ensures Placed(c.point) && Placed(Woken(c, s).point)
    ensures Patient(Woken(c, s), Intended(peer.input), f) ==> !LeavesStale(Woken(c, s), s.tail, f)
  {
    hide Lives, StreamText, Stream, Lawful, Drive, Patient, LeavesStale, Control;
    LivesPaced(c, peer, f);
    WokenPlaced(c, s);
    LawfulWoken(c, s, f);
    LawfulControl(Woken(c, s), f);
    if Patient(Woken(c, s), Intended(peer.input), f) {
      PacedDrive(Woken(c, s), Intended(peer.input), f);
      StaleDrive(Woken(c, s), s.tail, f);
    }
  }

  lemma CourteousStep(w: World, p: Peers, ev: Event, f: Callback)
    requires Base(w) && Traced(w, p, f) && !w.failed && AllCourteous(PeersStep(p, w, ev, f))
    ensures !LosesId(w, ev, f)
  {
    hide Base, Traced, Courteous, AllCourteous, Patient, LeavesStale, Left, Lives, Handle, Watched, Enrol;
    BaseOpen(w);
    if ev.Happened? && ev.fd in w.wires {
      var fd, s := ev.fd, ev.slice;
      EnrolBase(w, fd);
      EnrolTraced(w, p, fd, f);
      var e := Enrol(w, fd);
      var id := e.clients[fd].id;
      var q := Watched(p, e, id, s, f);
      if fd !in Handle(w, fd, s, f).wires {
        LeftBack(q, fd);
      }
      WatchedBack(p, e, id, s, f);
      if Seated(e, id) {
        OwnLives(e, p, id, f);
        var g := e.pool.routines[id - 1].context.fd;
        OneCourteous(p, g);
        CourteousKeeps(ConnOf(e, id), p.open[g], s, f);
      }
    }
  }

  lemma OneCourteous(p: Peers, fd: int)
    requires AllCourteous(p) && fd in p.open
    ensures Courteous(p.open[fd])
  {
  }

  lemma {:induction false} CourteousRun(w: World, p: Peers, evs: seq<Event>, f: Callback)
    requires Base(w) && Traced(w, p, f) && AllCourteous(PeersOf(p, w, evs, f))
    ensures Clean(w, evs, f)
    decreases |evs|
  {
    hide Base, Traced, Step, PeersStep, AllCourteous, LosesId;
    if evs != [] && !w.failed {
      StepKeeps(w, p, evs[0], f);
      RunBack(PeersStep(p, w, evs[0], f), Step(w, evs[0], f), evs[1..], f);
      CourteousStep(w, p, evs[0], f);
      CourteousRun(Step(w, evs[0], f), PeersStep(p, w, evs[0], f), evs[1..], f);
    }
  }

  /** When all peers send streams of written requests and wait for each response, every
      run is clean: at each moment every client owns a distinct suspended coroutine and
      is armed for what it waits for, and no connection loses a byte. */
  lemma CourteousIsClean(now: int, evs: seq<Event>, f: Callback)
    requires AllCourteous(PeersOf(NOBODY, Initial(now), evs, f))
    ensures Clean(Initial(now), evs, f) && AlwaysScheduled(Initial(now), evs, f)
    ensures forall fd | fd in RunAll(Initial(now), evs, f).wires :: !RunAll(Initial(now), evs, f).wires[fd].crossed
    ensures forall i | 0 <= i < |RunAll(Initial(now), evs, f).gone| ::
      !RunAll(Initial(now), evs, f).gone[i].wire.crossed
  {
    hide RunAll, PeersOf, Clean, AlwaysScheduled, Base, Traced, IsStream, Responses, Requests, Held;
    InitialHolds(now, f);
    ScheduledOpen(Initial(now));
    CourteousRun(Initial(now), NOBODY, evs, f);
    ScheduledIffClean(Initial(now), evs, f);
    EveryPeerIsServedInOrder(now, evs, f);
    var w, p := RunAll(Initial(now), evs, f), PeersOf(NOBODY, Initial(now), evs, f);
    forall fd | fd in w.wires ensures !w.wires[fd].crossed {
      assert Answered(w.wires[fd], p.open[fd], Held(w, fd), Over(w, fd), f);
      assert Courteous(p.open[fd]);
    }
    forall i | 0 <= i < |w.gone| ensures !w.gone[i].wire.crossed {
      assert Answered(w.gone[i].wire, p.closed[i], "", true, f);
      assert Courteous(p.closed[i]);
    }
  }

  // --------------------------------------------------------- single requests

  /** One written request and nothing else. */
  predicate IsSingle(input: string) {
    IsStream(input) && |Intended(input)| == 1
  }

  lemma WrittenIsSingle(r: Request)
    requires Writable(r)
    ensures IsSingle(RequestText(r)) && Intended(RequestText(r)) == [r]
  {
    hide RequestText, Writable, Requests;
    OneRequest(r);
    RequestsOfStream([r], false, false);
  }

  lemma SingleText(input: string)
    requires IsSingle(input)
    ensures Intended(input) == [Intended(input)[0]] && input == RequestText(Intended(input)[0])
  {
    hide RequestText, Requests, Writable;
    var rs := Intended(input);
    assert rs == [rs[0]] && rs[1..] == [];
    NoText();
    Units(RequestText(rs[0]));
  }

  predicate Alike(p: Peers) {
    && (forall fd | fd in p.open :: p.open[fd].patient && IsSingle(p.open[fd].input))
    && (forall i | 0 <= i < |p.closed| :: p.closed[i].patient && IsSingle(p.closed[i].input))
  }

  lemma SingleWaits(c: Conn, peer: Peer, s: Exchange.Slice, f: Callback)
    requires Lives(c, peer, f) && IsSingle(peer.input) && Placed(c.point)
    ensures Placed(Woken(c, s).point) && Patient(Woken(c, s), Intended(peer.input), f)
  {
    hide Lives, IsSingle, RequestText, Responses, Requests, Patient, IsStream;
    LivesMeans(c, peer, f);
    WokenPlaced(c, s);
    SingleText(peer.input);
    SingleIsPatient(Woken(c, s), Intended(peer.input)[0], f);
  }

  lemma AlikeStep(w: World, p: Peers, ev: Event, f: Callback)
    requires Base(w) && Traced(w, p, f) && Alike(p) && (ev.Accepted? ==> IsSingle(ev.input))
    ensures Alike(PeersStep(p, w, ev, f))
  {
    hide Base, Traced, Lives, Patient, Enrol, Handle, IsSingle, Intended, Roused;
    if !w.failed && ev.Happened? && ev.fd in w.wires && Valid(w.pool) {
      EnrolBase(w, ev.fd);
      EnrolTraced(w, p, ev.fd, f);
      var e := Enrol(w, ev.fd);
      AlikeWatched(e, p, e.clients[ev.fd].id, ev.slice, f);
    }
  }

  lemma AlikeWatched(w: World, p: Peers, id: nat, s: Exchange.Slice, f: Callback)
    requires Base(w) && Traced(w, p, f) && Alike(p)
    ensures Alike(Watched(p, w, id, s, f))
  {
    hide Base, Traced, Lives, Patient, IsSingle, Intended;
    if Seated(w, id) && Placed(ConnOf(w, id).point) {
      OwnLives(w, p, id, f);
      SingleWaits(ConnOf(w, id), p.open[w.pool.routines[id - 1].context.fd], s, f);
    }
  }

  lemma {:induction false} AlikeRun(w: World, p: Peers, evs: seq<Event>, f: Callback)
    requires Base(w) && Traced(w, p, f) && Alike(p)
    requires forall i | 0 <= i < |evs| :: evs[i].Accepted? ==> IsSingle(evs[i].input)
    ensures Alike(PeersOf(p, w, evs, f))
    decreases |evs|
  {
    hide Base, Traced, Step, PeersStep, Alike, IsSingle;
    if evs != [] {
      StepKeeps(w, p, evs[0], f);
      AlikeStep(w, p, evs[0], f);
      AlikeRun(Step(w, evs[0], f), PeersStep(p, w, evs[0], f), evs[1..], f);
    }
  }

  /** By the inputs alone: when every peer sends one written request, every run is clean,
      whatever the kernel, the clock and the other connections do. */
  lemma SinglesAreClean(now: int, evs: seq<Event>, f: Callback)
    requires forall i | 0 <= i < |evs| :: evs[i].Accepted? ==> IsSingle(evs[i].input)
    ensures Clean(Initial(now), evs, f) && AlwaysScheduled(Initial(now), evs, f)
    ensures AllCourteous(PeersOf(NOBODY, Initial(now), evs, f))
  {
    hide RunAll, PeersOf, Clean, AlwaysScheduled, Base, Traced, IsStream;
    InitialHolds(now, f);
    ScheduledOpen(Initial(now));
    AlikeRun(Initial(now), NOBODY, evs, f);
    assert Alike(PeersOf(NOBODY, Initial(now), evs, f));
    CourteousIsClean(now, evs, f);
  }

  // ------------------------------------------------------- what clients get

  /** One written request, sent to the worker in any chunks with any pauses, among any
      other connections: nothing reaches the callback before its last byte; with it
      exactly this request does, and its response is what the peer gets, up to what the
      coroutine still holds and in full when the descriptor has been closed. */
  lemma RequestIsAnswered(now: int, evs: seq<Event>, r: Request, f: Callback)
    requires Writable(r)
    ensures var w, p := RunAll(Initial(now), evs, f), PeersOf(NOBODY, Initial(now), evs, f);
            && p.open.Keys == w.wires.Keys && |p.closed| == |w.gone|
            && (forall fd | fd in w.wires && p.open[fd].input == RequestText(r) ::
                  Got(w.wires[fd], p.open[fd], Held(w, fd), r, f))
            && (forall i | 0 <= i < |w.gone| && p.closed[i].input == RequestText(r) ::
                  Got(w.gone[i].wire, p.closed[i], "", r, f))
  {
    hide RunAll, PeersOf, Stands, Held, Writable, RequestText, Got;
    EachRunsAlone(now, evs, f);
    var w, p := RunAll(Initial(now), evs, f), PeersOf(NOBODY, Initial(now), evs, f);
    forall fd | fd in w.wires && p.open[fd].input == RequestText(r)
      ensures Got(w.wires[fd], p.open[fd], Held(w, fd), r, f)
    {
      StandsGot(w.wires[fd], p.open[fd], Held(w, fd), Over(w, fd), r, f);
    }
    forall i | 0 <= i < |w.gone| && p.closed[i].input == RequestText(r)
      ensures Got(w.gone[i].wire, p.closed[i], "", r, f)
    {
      StandsGot(w.gone[i].wire, p.closed[i], "", true, r, f);
    }
  }

  /** When the callback's responses can be sent, a client whose connection was closed
      without timeout, error or crossing reads from it, response by response, the answers
      to the sequential server's requests, in order and nothing else. */
  lemma ClientReadsAnswers(now: int, evs: seq<Event>, f: Callback, i: nat)
    requires forall r :: Sendable(f(r))
    requires i < |RunAll(Initial(now), evs, f).gone|
    ensures var wire := RunAll(Initial(now), evs, f).gone[i].wire;
            !wire.crossed && !wire.cut ==> ReadAll(wire.outbound) == Each(f, Requests(wire.taken, false, wire.closed))
  {
    hide RunAll, PeersOf, Held, Requests, Responses, Sendable, ReadAll, IsStream;
    EveryPeerIsServedInOrder(now, evs, f);
    var w, p := RunAll(Initial(now), evs, f), PeersOf(NOBODY, Initial(now), evs, f);
    assert Answered(w.gone[i].wire, p.closed[i], "", true, f);
    Units(w.gone[i].wire.outbound);
    AnswersReadBack(f, w.gone[i].wire.asked);
  }
}
