/** Progress of a connection: resumptions that find the socket ready and the clock in time
    bring it through all that there is to read and to send, within as many answers of
    the kernel as there are bytes. */
module Progress {
  import opened Text
  import opened Http
  import opened HttpLaws
  import opened Exchange
  import opened Refinement
  import opened RoundTrip
  import opened Patience

  function Sum(ticks: seq<nat>): nat {
    if ticks == [] then 0 else ticks[0] + Sum(ticks[1..])
  }

  /** The coroutine about to run will not be late at any reading of the clock, and each
      of its reads and writes finds the socket ready for some bytes until the answers are
      used up. */
  predicate Prompt(c: Conn) {
    && !c.client.marked && c.env.now + Sum(c.env.ticks) - c.client.start <= LIMIT
    && (forall i :: 0 <= i < |c.env.answers| ==> c.env.answers[i].Ready? && c.env.answers[i].count >= 1)
  }

  /** The same for every resumption of a run. */
  predicate PromptRun(c: Conn, moments: seq<Moment>, f: Callback)
    requires Placed(c.point)
    decreases |moments|
  {
    moments == [] ||
    ((moments[0].Wakes? ==> Prompt(Woken(c, moments[0].slice))) && PromptRun(Then(c, moments[0], f), moments[1..], f))
  }

  function FedBy(m: Moment): nat {
    if m.Wakes? then |m.slice.answers| else 0
  }

  /** How many answers the resumptions of a run were given. */
  function Fed(moments: seq<Moment>): nat
    decreases |moments|
  {
    if moments == [] then 0 else Fed(moments[..|moments| - 1]) + FedBy(moments[|moments| - 1])
  }

  /** The coroutine has ended, or waits for bytes that do not come. */
  predicate Through(c: Conn) {
    Finished(c.point) || ((c.point.AtHead? || c.point.AtBody?) && c.wire.inbound == "")
  }

  /** The bytes that went through the socket so far. */
  function Moved(w: Wire): nat {
    |w.taken| + |w.outbound|
  }

  predicate Unhurt(w: Wire) {
    !w.cut && !w.closed
  }

  // --------------------------------------------------------------- one turn

  lemma PromptPop(c: Conn)
    requires Prompt(c)
    ensures Prompt(c.(env := PopEnv(c.env)))
  {
    var answers := PopEnv(c.env).answers;
    forall i | 0 <= i < |answers| ensures answers[i].Ready? && answers[i].count >= 1 {
      assert c.env.answers != [] ==> answers[i] == c.env.answers[i + 1];
    }
  }

  lemma PromptClock(c: Conn)
    requires Prompt(c)
    ensures var env := AfterClock(c.client, c.env);
            !Late(c.client, env.now) && Prompt(c.(env := env)) && Prompt(c.(env := PopEnv(env)))
  {
    hide PopEnv;
    var env := AfterClock(c.client, c.env);
    assert env.now + Sum(env.ticks) == c.env.now + Sum(c.env.ticks);
    var e := c.(env := env);
    assert Prompt(e);
    assert !Late(e.client, e.env.now);
    PromptPop(e);
    assert e.(env := PopEnv(env)) == c.(env := PopEnv(env));
  }

  lemma PromptWrite(c: Conn, io: Io)
    requires c.point.AtSend? && Placed(c.point) && Unhurt(c.wire) && io.Ready? && io.count >= 1
    ensures var d := OnWrite(c, io);
            && Unhurt(d.wire) && Moved(d.wire) >= Moved(c.wire) + 1 && d.env == c.env && d.parked == c.parked
            && d.client.marked == c.client.marked && d.client.start == c.client.start
  {
  }

  lemma PromptRead(c: Conn, io: Io, f: Callback)
    requires (c.point.AtHead? || c.point.AtBody?) && Placed(c.point) && Unhurt(c.wire)
    requires io.Ready? && io.count >= 1 && c.wire.inbound != ""
    ensures var d := OnRead(c, io, f);
            && Unhurt(d.wire) && Moved(d.wire) >= Moved(c.wire) + 1 && d.env == c.env && d.parked == c.parked
            && d.client.marked == c.client.marked && d.client.start == c.client.start
  {
    hide OnChunk;
    ChunkWire(c, Min(Min(io.count, BUFFER), |c.wire.inbound|), f);
  }

  lemma PromptTurn(c: Conn, f: Callback)
    requires Live(c) && Placed(c.point) && Prompt(c) && Unhurt(c.wire)
    ensures var d := Turn(c, f);
            && Prompt(d) && Unhurt(d.wire)
            && if c.env.answers == [] || Through(c) then d.parked && d.wire == c.wire && d.point == c.point
               else !d.parked && d.env.answers == c.env.answers[1..] && Moved(d.wire) >= Moved(c.wire) + 1
  {
    hide OnChunk, OnClosed, OnWritten, OnLate;
    PromptClock(c);
    var env := AfterClock(c.client, c.env);
    var e, io := c.(env := PopEnv(env)), PopAnswer(env);
    if c.env.answers != [] && !Through(c) {
      if c.point.AtSend? {
        PromptWrite(e, io);
      } else {
        PromptRead(e, io, f);
      }
    }
  }

  // -------------------------------------------------------------- whole runs

  /** One resumption uses up its answers, a byte each at least, or gets through. */
  lemma {:induction false} PromptDrive(c: Conn, f: Callback)
    requires Placed(c.point) && !c.parked && Prompt(c) && Unhurt(c.wire)
    ensures var d := Drive(c, f);
            && Unhurt(d.wire) && (Through(c) ==> Through(d))
            && (Through(d) || Moved(d.wire) >= Moved(c.wire) + |c.env.answers|)
    decreases |c.env.answers|, Rank(c.point), Live(c)
  {
    hide Turn, Prompt;
    if Live(c) {
      PromptTurn(c, f);
      var d := Turn(c, f);
      if d.parked {
        assert Drive(c, f) == Drive(d, f) == d;
      } else {
        PromptDrive(d, f);
      }
    }
  }

  lemma {:induction false} FedMore(m: Moment, moments: seq<Moment>)
    ensures Fed([m] + moments) == FedBy(m) + Fed(moments)
    decreases |moments|
  {
    var all := [m] + moments;
    var n := |moments| - 1;
    if moments == [] {
      assert all[..0] == [];
    } else {
      FedMore(m, moments[..n]);
      assert all[..|all| - 1] == [m] + moments[..n];
    }
  }

  lemma {:induction false} PromptMoves(c: Conn, moments: seq<Moment>, f: Callback)
    requires Placed(c.point) && Unhurt(c.wire) && PromptRun(c, moments, f)
    ensures var d := Run(c, moments, f);
            && Unhurt(d.wire) && (Through(c) ==> Through(d))
            && (Through(d) || Moved(d.wire) >= Moved(c.wire) + Fed(moments))
    decreases |moments|
  {
    hide Drive, Prompt;
    if moments != [] {
      var m := moments[0];
      if m.Wakes? {
        WokenPlaced(c, m.slice);
        PromptDrive(Woken(c, m.slice), f);
      }
      PromptMoves(Then(c, m, f), moments[1..], f);
      FedMore(m, moments[1..]);
      assert moments == [m] + moments[1..];
    }
  }

  /** Progress, for any peer: once prompt resumptions were given as many answers as there
      were bytes to come and bytes to send, all responses to the requests that were asked
      have been sent, nothing is held back, and the coroutine has ended or has read
      everything. */
  lemma PromptIsThrough(c: Conn, moments: seq<Moment>, f: Callback)
    requires Placed(c.point) && Lawful(c, f) && Unhurt(c.wire) && PromptRun(c, moments, f)
    ensures var d := Run(c, moments, f);
            && Unhurt(d.wire)
            && (Fed(moments) >= |c.wire.inbound| + |Responses(f, d.wire.asked)| - |c.wire.outbound| ==>
                  && d.wire.outbound == Responses(f, d.wire.asked) && Unsent(d.point) == ""
                  && (Finished(d.point) || d.wire.inbound == ""))
  {
    hide Run, Responses, Law, Bound, Control, PromptRun;
    PromptMoves(c, moments, f);
    StreamRun(c, moments, f);
    LawfulRun(c, moments, f);
    var d := Run(c, moments, f);
    assert |d.wire.taken| + |d.wire.inbound| == |c.wire.taken| + |c.wire.inbound| by {
      assert d.wire.taken + d.wire.inbound == c.wire.taken + c.wire.inbound;
    }
    if Through(d) || |d.wire.outbound| >= |Responses(f, d.wire.asked)| {
      AllSent(d, f);
    }
  }

  lemma AllSent(d: Conn, f: Callback)
    requires Lawful(d, f) && !d.wire.cut
    requires Through(d) || |d.wire.outbound| >= |Responses(f, d.wire.asked)|
    ensures d.wire.outbound == Responses(f, d.wire.asked) && Unsent(d.point) == ""
  {
    hide Responses, Law, Bound, Control;
    assert d.wire.outbound + Unsent(d.point) == Responses(f, d.wire.asked);
    Units(d.wire.outbound);
  }

  lemma {:induction false} ResponsesGrow(f: Callback, rs: seq<Request>, m: nat)
    requires m <= |rs|
    ensures |Responses(f, rs[..m])| <= |Responses(f, rs)|
  {
    hide Responses;
    assert rs == rs[..m] + rs[m..];
    ResponsesAppend(f, rs[..m], rs[m..]);
  }

  /** Progress for a patient peer, with a bound known in advance: as many answers as its
      requests and their responses have bytes bring it all its responses. */
  lemma PatientIsServed(rs: seq<Request>, id: nat, now: int, moments: seq<Moment>, f: Callback)
    requires Stream(rs, false) && PatientRun(Fresh(id, StreamText(rs), now), rs, moments, f)
    requires PromptRun(Fresh(id, StreamText(rs), now), moments, f)
    requires Fed(moments) >= |StreamText(rs)| + |Responses(f, rs)|
    ensures var w := Run(Fresh(id, StreamText(rs), now), moments, f).wire;
            Unhurt(w) && w.inbound == "" && w.asked == rs && w.outbound == Responses(f, rs)
  {
    hide Run, Responses, StreamText, Stream, PatientRun, PromptRun, Lawful;
    var c := Fresh(id, StreamText(rs), now);
    var d := Run(c, moments, f);
    LawfulFresh(id, StreamText(rs), now, f);
    FreshWire(id, StreamText(rs), now);
    PatientRoundTrip(rs, id, now, moments, f);
    PromptIsThrough(c, moments, f);
    assert d.wire.asked == rs[..|d.wire.asked|];
    ResponsesGrow(f, rs, |d.wire.asked|);
  }

  lemma FreshWire(id: nat, input: string, now: int)
    ensures var w := Fresh(id, input, now).wire;
            Unhurt(w) && w.taken == "" && w.inbound == input && w.outbound == ""
  {
  }

  /** Progress for one written request. */
  lemma RequestIsServed(r: Request, id: nat, now: int, moments: seq<Moment>, f: Callback)
    requires Writable(r) && PromptRun(Fresh(id, RequestText(r), now), moments, f)
    requires Fed(moments) >= |RequestText(r)| + |ToString(f(r))|
    ensures var w := Run(Fresh(id, RequestText(r), now), moments, f).wire;
            w.inbound == "" && w.asked == [r] && w.outbound == ToString(f(r))
  {
    hide Run, Responses, PatientRun, PromptRun, RequestText, Writable, ToString;
    OneRequest(r);
    Units(RequestText(r));
    FreshWire(id, RequestText(r), now);
    SingleRunIsPatient(Fresh(id, RequestText(r), now), r, moments, f);
    ResponsesFirst(f, [r]);
    NoResponses(f);
    assert [r][1..] == [];
    Units(ToString(f(r)));
    PatientIsServed([r], id, now, moments, f);
  }
}
