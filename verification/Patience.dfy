/** Peers that send a request only after they have seen the whole response to the one
    before: their connections never lose the sequential server, however the network
    cuts what they send. */
module Patience {
  import opened Text
  import opened Http
  import opened HttpLaws
  import opened Exchange
  import opened Refinement
  import opened Guards
  import opened RoundTrip

  /** How many bytes of its requests such a peer has sent once it has seen outbound. */
  function Sent(rs: seq<Request>, outbound: string, f: Callback): nat
    decreases |rs|
  {
    if rs == [] then 0
    else
      var first := ToString(f(rs[0]));
      |RequestText(rs[0])| + if first <= outbound then Sent(rs[1..], outbound[|first|..], f) else 0
  }

  /** While the coroutine runs, each read finds only what the peer has sent by then. */
  predicate Patient(c: Conn, rs: seq<Request>, f: Callback)
    requires Placed(c.point)
    decreases |c.env.answers|, Rank(c.point), Live(c)
  {
    Live(c) ==>
      && (ReadOf(c).Some? ==> |c.wire.taken| + |ReadOf(c).value| <= Sent(rs, c.wire.outbound, f))
      && Patient(Turn(c, f), rs, f)
  }

  /** The same for a whole run. */
  predicate PatientRun(c: Conn, rs: seq<Request>, moments: seq<Moment>, f: Callback)
    requires Placed(c.point)
    decreases |moments|
  {
    moments == [] ||
    ((moments[0].Wakes? ==> Patient(Woken(c, moments[0].slice), rs, f)) &&
     PatientRun(Then(c, moments[0], f), rs, moments[1..], f))
  }

  // -------------------------------------------------- streams and their parts

  lemma {:induction false} StreamSplit(rs: seq<Request>, m: nat)
    requires m <= |rs|
    ensures StreamText(rs) == StreamText(rs[..m]) + StreamText(rs[m..])
    decreases m
  {
    hide RequestText;
    if m == 0 {
      assert rs[..0] == [] && rs[0..] == rs;
    } else {
      StreamSplit(rs[1..], m - 1);
      assert rs[..m][1..] == rs[1..][..m - 1] && rs[1..][m - 1..] == rs[m..];
      Associate(RequestText(rs[0]), StreamText(rs[..m][1..]), StreamText(rs[m..]));
    }
  }

  lemma {:induction false} StreamPart(rs: seq<Request>, keep: bool, m: nat)
    requires Stream(rs, keep) && m <= |rs|
    ensures Stream(rs[..m], keep) && (m < |rs| ==> Writable(rs[m]))
    decreases m
  {
    hide Writable, AsksKeepAlive;
    if m > 0 {
      StreamPart(rs[1..], true, m - 1);
      assert rs[..m][1..] == rs[1..][..m - 1];
    }
  }

  /** One more request of the stream. */
  lemma StreamNext(rs: seq<Request>, m: nat)
    requires m < |rs|
    ensures StreamText(rs) == StreamText(rs[..m]) + (RequestText(rs[m]) + StreamText(rs[m + 1..]))
    ensures StreamText(rs[..m + 1]) == StreamText(rs[..m]) + RequestText(rs[m])
  {
    hide RequestText;
    StreamSplit(rs, m);
    assert rs[m..][1..] == rs[m + 1..];
    StreamSplit(rs[..m + 1], m);
    assert rs[..m + 1][..m] == rs[..m] && rs[..m + 1][m..] == [rs[m]];
    assert [rs[m]][1..] == [];
    Units(RequestText(rs[m]));
    assert StreamText([rs[m]]) == RequestText(rs[m]) + StreamText([]);
  }

  lemma ResponsesFirst(f: Callback, rs: seq<Request>)
    requires rs != []
    ensures Responses(f, rs) == ToString(f(rs[0])) + Responses(f, rs[1..])
  {
    hide ToString;
    assert rs == [rs[0]] + rs[1..];
    ResponsesAppend(f, [rs[0]], rs[1..]);
    assert [rs[0]][..0] == [];
    assert Responses(f, [rs[0]]) == Responses(f, []) + ToString(f(rs[0]));
    Units(ToString(f(rs[0])));
  }

  /** After m whole responses the peer has sent m + 1 requests. */
  lemma {:induction false} SentAfter(rs: seq<Request>, m: nat, f: Callback)
    requires m < |rs|
    ensures Sent(rs, Responses(f, rs[..m]), f) == |StreamText(rs[..m + 1])|
    decreases m
  {
    hide ToString, RequestText, Responses;
    var first := ToString(f(rs[0]));
    assert rs[..m + 1][1..] == rs[1..][..m];
    if m == 0 {
      NoResponses(f);
      assert rs[..1][1..] == [];
      assert StreamText(rs[..1]) == RequestText(rs[0]) + StreamText([]);
    } else {
      ResponsesFirst(f, rs[..m]);
      assert rs[..m][1..] == rs[1..][..m - 1];
      Taken(first, Responses(f, rs[1..][..m - 1]));
      SentAfter(rs[1..], m - 1, f);
    }
  }

  lemma Taken(a: string, b: string)
    ensures a <= a + b && (a + b)[|a|..] == b
  {
  }

  // --------------------------------------------------- where a patient one is

  /** The connection stands inside its current request, or at the end of it. */
  predicate Paced(c: Conn, rs: seq<Request>) {
    var m := |c.wire.asked|;
    && !c.wire.crossed && !c.wire.rejected && c.wire.taken + c.wire.inbound == StreamText(rs)
    && match c.point
       case AtHead(data) => m <= |rs| && c.wire.taken == StreamText(rs[..m]) + data
       case AtBody(_, _, toRead) => m < |rs| && |c.wire.taken| + toRead == |StreamText(rs[..m + 1])|
       case Threw => c.wire.cut
       case _ => c.wire.cut || c.wire.closed || (m <= |rs| && c.wire.taken == StreamText(rs[..m]))
  }

  /** A part of a written request is no whole message, and not malformed. */
  lemma PartOfRequest(a: string, b: string, r: Request)
    requires Writable(r) && a + b == RequestText(r)
    ensures MessageOf(a + b) == Whole(r, "")
    ensures var m := MessageOf(a);
            && (b == "" ==> m == Whole(r, ""))
            && (b != "" ==> m.Partial? || m.Short?)
  {
    hide RequestText, Writable, MessageOf;
    MessageOfWritten(r, "");
    Units(RequestText(r));
    Units(a);
    if b != "" {
      ProperPart(a, b, r);
    }
  }

  lemma ProperPart(a: string, b: string, r: Request)
    requires MessageOf(a + b) == Whole(r, "") && b != ""
    ensures MessageOf(a).Partial? || MessageOf(a).Short?
  {
    hide MessageBehind, RequestOf, EndAt;
    if MessageOf(a).Whole? {
      MessageMore(a, b);
    } else if FirstEnd(a) < |a| {
      HeadFound(a, b);
      var h := FirstEnd(a);
      SameHead(RequestOf(a[..h + 2]), a[h + 4..], a[h + 4..] + b);
    }
  }

  lemma SameHead(head: Result<Request>, rest: string, more: string)
    requires MessageBehind(head, more).Whole?
    ensures var m := MessageBehind(head, rest); m.Whole? || m.Short?
  {
    hide HeaderValue, Stoull;
  }

  /** A head that is complete while its body is not. */
  lemma ShortWaits(c: Conn, head: Result<Request>, body: string, more: string, r: Request, f: Callback)
    requires MessageBehind(head, body).Short? && MessageBehind(head, body + more) == Whole(r, "")
    ensures var d := AfterHead(c, head, body, f);
            d.point.AtBody? && d.point.toRead == |more| && d.wire.asked == c.wire.asked && d.wire.taken == c.wire.taken
            && d.wire.inbound == c.wire.inbound
  {
    hide HeaderValue, Stoull, AsksKeepAlive, ToString;
    var v := HeaderValue(head.value.headers, "Content-Length").value;
    var length := Stoull(v).value;
    assert |body + more| == length by {
      assert (body + more)[length..] == "";
    }
  }

  /** A request that is complete is asked. */
  lemma WholeAsks(c: Conn, head: Result<Request>, body: string, r: Request, f: Callback)
    requires MessageBehind(head, body) == Whole(r, "")
    ensures var d := AfterHead(c, head, body, f);
            d.point.AtSend? && d.wire.asked == c.wire.asked + [r] && d.wire.taken == c.wire.taken
            && d.wire.inbound == c.wire.inbound
  {
    hide HeaderValue, Stoull, AsksKeepAlive, ToString;
    if HeaderValue(head.value.headers, "Content-Length").Some? {
      var length := Stoull(HeaderValue(head.value.headers, "Content-Length").value).value;
      assert |body| == length by {
        assert body[length..] == "";
      }
      assert body[..length] == body;
    }
  }

  /** Where the bytes read so far end within the current request. */
  lemma Slot(before: string, full: string, left: string, request: string, behind: string) returns (more: string)
    requires before + full + left == before + (request + behind) && |full| <= |request|
    ensures full + more == request
  {
    more := request[|full|..];
    var all := before + full + left;
    assert all[|before|..][..|full|] == full;
    assert all[|before|..] == request + behind;
    assert (request + behind)[..|full|] == request[..|full|];
  }

  lemma HeadPaced(c: Conn, k: nat, rs: seq<Request>, f: Callback)
    requires c.point.AtHead? && Placed(c.point) && Paced(c, rs) && 0 < k <= |c.wire.inbound|
    requires var m := |c.wire.asked|;
             m < |rs| && Writable(rs[m]) && |c.wire.taken| + k <= |StreamText(rs[..m + 1])|
    ensures Paced(OnChunk(c, k, f), rs)
  {
    hide RequestText, Writable, AfterHead, MessageBehind, RequestOf, StreamText, EndAt, Overruns, Refuses;
    var m, data, chunk := |c.wire.asked|, c.point.data, c.wire.inbound[..k];
    var full := data + chunk;
    var before := StreamText(rs[..m]);
    SameStream(c.wire, k);
    StreamNext(rs, m);
    Associate(before, data, chunk);
    var more := Slot(before, full, c.wire.inbound[k..], RequestText(rs[m]), StreamText(rs[m + 1..]));
    PartOfRequest(full, more, rs[m]);
    ChunkGuards(c, k, f);
    WithinGuards(c.point, c.client.keepAlive, chunk);
    WindowExact(data, chunk);
    var h := FirstEnd(full);
    if h < |full| {
      HeadAsks(Take(c, k), full, more, rs[m], f);
    }
  }

  /** A chunk within the request is under neither guard. */
  lemma WithinGuards(p: Point, keep: bool, chunk: string)
    requires p.AtHead?
    requires var m := MessageOf(p.data + chunk); m.Partial? || m.Short? || (m.Whole? && m.rest == "")
    ensures !Overruns(p, keep, chunk) && !Refuses(p, chunk)
  {
    hide MessageOf;
  }

  lemma HeadAsks(c: Conn, full: string, more: string, r: Request, f: Callback)
    requires FirstEnd(full) < |full| && MessageOf(full + more) == Whole(r, "")
    requires more == "" ==> MessageOf(full) == Whole(r, "")
    requires more != "" ==> MessageOf(full).Partial? || MessageOf(full).Short?
    ensures var h := FirstEnd(full);
            var d := AfterHead(c, RequestOf(full[..h + 2]), full[h + 4..], f);
            && d.wire.taken == c.wire.taken && d.wire.inbound == c.wire.inbound
            && (more == "" ==> d.point.AtSend? && d.wire.asked == c.wire.asked + [r])
            && (more != "" ==> d.point.AtBody? && d.point.toRead == |more| && d.wire.asked == c.wire.asked)
  {
    hide AfterHead, MessageBehind, RequestOf, EndAt;
    var h := FirstEnd(full);
    HeadFound(full, more);
    if more == "" {
      WholeAsks(c, RequestOf(full[..h + 2]), full[h + 4..], r, f);
    } else {
      NotPartial(RequestOf(full[..h + 2]), full[h + 4..]);
      ShortWaits(c, RequestOf(full[..h + 2]), full[h + 4..], more, r, f);
    }
  }

  lemma NotPartial(head: Result<Request>, rest: string)
    ensures !MessageBehind(head, rest).Partial?
  {
    hide HeaderValue, Stoull;
  }

  lemma BodyPaced(c: Conn, k: nat, rs: seq<Request>, f: Callback)
    requires c.point.AtBody? && Placed(c.point) && Paced(c, rs) && 0 < k <= |c.wire.inbound|
    requires var m := |c.wire.asked|; |c.wire.taken| + k <= |StreamText(rs[..m + 1])|
    ensures Paced(OnChunk(c, k, f), rs)
  {
    hide ToString, StreamText;
    var m := |c.wire.asked|;
    SameStream(c.wire, k);
    StreamSplit(rs, m + 1);
    var read := c.wire.taken + c.wire.inbound[..k];
    if |read| == |StreamText(rs[..m + 1])| {
      SameLength(read, c.wire.inbound[k..], StreamText(rs[..m + 1]), StreamText(rs[m + 1..]));
    }
  }

  lemma SameLength(a: string, x: string, b: string, y: string)
    requires a + x == b + y && |a| == |b|
    ensures a == b
  {
    assert (a + x)[..|a|] == a && (b + y)[..|b|] == b;
  }

  /** What a patient peer has sent when the coroutine reads. */
  lemma AskedSoFar(c: Conn, rs: seq<Request>, f: Callback)
    requires Lawful(c, f) && Stream(rs, false) && Paced(c, rs) && (c.point.AtHead? || c.point.AtBody?)
    ensures var m := |c.wire.asked|;
            && m <= |rs| && c.wire.asked == rs[..m] && c.wire.outbound == Responses(f, rs[..m])
            && (m < |rs| ==> Writable(rs[m]) && Sent(rs, c.wire.outbound, f) == |StreamText(rs[..m + 1])|)
            && (m == |rs| ==> c.wire.inbound == "")
  {
    hide Responses, Requests, StreamText, Sent, Writable, Stream;
    var m := |c.wire.asked|;
    ReadingControl(c, f);
    ExactSoFar(c, f);
    RequestsOfStream(rs, false, false);
    RequestsMonotone(c.wire.taken, c.wire.inbound, false, false);
    Units(c.wire.outbound);
    assert c.wire.asked == rs[..m];
    if m < |rs| {
      StreamPart(rs, false, m);
      SentAfter(rs, m, f);
    } else {
      assert rs[..m] == rs;
    }
  }

  lemma ReadingControl(c: Conn, f: Callback)
    requires Lawful(c, f) && (c.point.AtHead? || c.point.AtBody?)
    ensures !c.wire.cut && !c.wire.closed && Unsent(c.point) == ""
  {
    hide Law, Output, Bound;
  }

  lemma PacedTurn(c: Conn, rs: seq<Request>, f: Callback)
    requires Live(c) && Placed(c.point) && Lawful(c, f) && Stream(rs, false) && Paced(c, rs)
    requires ReadOf(c).Some? ==> |c.wire.taken| + |ReadOf(c).value| <= Sent(rs, c.wire.outbound, f)
    ensures Paced(Turn(c, f), rs)
  {
    hide Turn, OnChunk, Lawful, Stream, Sent, ReadOf, Writable, StreamText, Responses;
    if ReadOf(c).Some? {
      ReadIsChunk(c, f);
      AskedSoFar(c, rs, f);
      var e := c.(env := PopEnv(AfterClock(c.client, c.env)));
      if c.point.AtHead? {
        HeadPaced(e, |ReadOf(c).value|, rs, f);
      } else {
        BodyPaced(e, |ReadOf(c).value|, rs, f);
      }
    } else {
      NoReadQuiet(c, f);
      LawfulControl(c, f);
      NoReadPaced(c, rs, f);
    }
  }

  lemma LawfulControl(c: Conn, f: Callback)
    requires Lawful(c, f)
    ensures Control(c)
  {
    hide Law, Output, Bound, Control;
  }

  lemma NoReadPaced(c: Conn, rs: seq<Request>, f: Callback)
    requires Live(c) && Control(c) && Paced(c, rs) && ReadOf(c).None? && SameReads(c, Turn(c, f))
    ensures Paced(Turn(c, f), rs)
  {
    hide StreamText, ToString, OnChunk;
    Units(c.wire.taken);
  }

  lemma {:induction false} PacedDrive(c: Conn, rs: seq<Request>, f: Callback)
    requires Placed(c.point) && Lawful(c, f) && Stream(rs, false) && Paced(c, rs) && Patient(c, rs, f)
    ensures Paced(Drive(c, f), rs)
    decreases |c.env.answers|, Rank(c.point), Live(c)
  {
    hide Turn, Lawful, Stream, Paced, Sent, ReadOf;
    if Live(c) {
      PacedTurn(c, rs, f);
      LawfulTurn(c, f);
      PacedDrive(Turn(c, f), rs, f);
    }
  }

  lemma {:induction false} PacedRun(c: Conn, rs: seq<Request>, moments: seq<Moment>, f: Callback)
    requires Placed(c.point) && Lawful(c, f) && Stream(rs, false) && Paced(c, rs) && PatientRun(c, rs, moments, f)
    ensures Paced(Run(c, moments, f), rs)
    decreases |moments|
  {
    hide Drive, Lawful, Stream, StreamText, Patient;
    if moments != [] {
      if moments[0].Wakes? {
        WokenPlaced(c, moments[0].slice);
        LawfulWoken(c, moments[0].slice, f);
        PacedDrive(Woken(c, moments[0].slice), rs, f);
      }
      LawfulThen(c, moments[0], f);
      PacedRun(Then(c, moments[0], f), rs, moments[1..], f);
    }
  }

  lemma PacedFresh(id: nat, rs: seq<Request>, now: int)
    ensures Paced(Fresh(id, StreamText(rs), now), rs)
  {
    hide StreamText;
    assert rs[..0] == [];
    NoText();
    Units(StreamText(rs));
  }

  lemma NoText()
    ensures StreamText([]) == ""
  {
  }

  // ------------------------------------------------------------ the theorems

  /** Any chunking, any pauses: a peer that sends its requests one by one, each after the
      response to the one before, never has a read cross a request's end or a head
      rejected; what it sees is a prefix of the responses to its requests in order; and
      once all is read, without a timeout or error, exactly these requests have reached
      the callback, with every field as written, and been answered up to the unsent
      rest. */
  lemma PatientRoundTrip(rs: seq<Request>, id: nat, now: int, moments: seq<Moment>, f: Callback)
    requires Stream(rs, false) && PatientRun(Fresh(id, StreamText(rs), now), rs, moments, f)
    ensures var c := Run(Fresh(id, StreamText(rs), now), moments, f);
            var w := c.wire;
            && !w.crossed && !w.rejected
            && (!w.closed ==> w.outbound <= Responses(f, rs))
            && (!w.cut && !w.closed ==> w.asked <= rs)
            && (!w.cut && w.inbound == "" ==> w.asked == rs && w.outbound + Unsent(c.point) == Responses(f, rs))
            && (!w.cut && !w.closed && Finished(c.point) ==> w.inbound == "")
  {
    hide Run, Responses, StreamText, Stream, PatientRun, Requests, Lawful, Paced;
    LawfulFresh(id, StreamText(rs), now, f);
    PacedFresh(id, rs, now);
    PacedRun(Fresh(id, StreamText(rs), now), rs, moments, f);
    LawfulRun(Fresh(id, StreamText(rs), now), moments, f);
    PacedMeans(Run(Fresh(id, StreamText(rs), now), moments, f), rs, f);
    StreamRoundTrip(rs, id, now, moments, f);
    RefinesSequential(id, StreamText(rs), now, moments, f);
    RequestsOfStream(rs, false, false);
  }

  /** A patient peer's connection ends, if neither cut nor closed, behind the last
      request only. */
  lemma PacedMeans(c: Conn, rs: seq<Request>, f: Callback)
    requires Lawful(c, f) && Paced(c, rs) && Stream(rs, false)
    ensures !c.wire.crossed && !c.wire.rejected
    ensures !c.wire.cut && !c.wire.closed && Finished(c.point) ==> c.wire.inbound == ""
  {
    hide Responses, Requests, StreamText, Stream, Output, Bound, Control;
    if !c.wire.cut && !c.wire.closed && Finished(c.point) {
      assert c.wire.asked + Future(c.point, c.client.keepAlive, c.wire.inbound, false)
          == Requests(c.wire.taken + c.wire.inbound, false, false);
      Units(c.wire.asked);
      RequestsOfStream(rs, false, false);
      assert rs[..|rs|] == rs;
      assert |c.wire.inbound| == |StreamText(rs)| - |c.wire.taken|;
    }
  }

  /** A peer with a single request has nobody to wait for. */
  lemma {:induction false} SingleIsPatient(c: Conn, r: Request, f: Callback)
    requires Placed(c.point) && c.wire.taken + c.wire.inbound == RequestText(r)
    ensures Patient(c, [r], f)
    decreases |c.env.answers|, Rank(c.point), Live(c)
  {
    hide Turn, RequestText, ToString;
    if Live(c) {
      StreamTurn(c, f);
      SingleIsPatient(Turn(c, f), r, f);
      assert [r][1..] == [];
      assert |RequestText(r)| == |c.wire.taken| + |c.wire.inbound|;
    }
  }

  lemma {:induction false} SingleRunIsPatient(c: Conn, r: Request, moments: seq<Moment>, f: Callback)
    requires Placed(c.point) && c.wire.taken + c.wire.inbound == RequestText(r)
    ensures PatientRun(c, [r], moments, f)
    decreases |moments|
  {
    hide Drive, RequestText, Patient;
    if moments != [] {
      if moments[0].Wakes? {
        WokenPlaced(c, moments[0].slice);
        SingleIsPatient(Woken(c, moments[0].slice), r, f);
        StreamDrive(Woken(c, moments[0].slice), f);
      }
      SingleRunIsPatient(Then(c, moments[0], f), r, moments[1..], f);
    }
  }

  /** One written request, cut into any chunks with any pauses: nothing reaches the
      callback before its last byte, and with the last byte exactly this request
      does. */
  lemma RequestRoundTrip(r: Request, id: nat, now: int, moments: seq<Moment>, f: Callback)
    requires Writable(r)
    ensures var c := Run(Fresh(id, RequestText(r), now), moments, f);
            && !c.wire.crossed && !c.wire.rejected
            && (!c.wire.cut && c.wire.inbound == "" ==>
                  c.wire.asked == [r] && c.wire.outbound + Unsent(c.point) == ToString(f(r)))
            && (!c.wire.cut && !c.wire.closed && c.wire.inbound != "" ==> c.wire.asked == [])
  {
    hide Run, Writable, RequestText, MessageOf, ToString, PatientRun, Requests;
    var input := RequestText(r);
    var c := Run(Fresh(id, input, now), moments, f);
    OneRequest(r);
    Units(input);
    SingleRunIsPatient(Fresh(id, input, now), r, moments, f);
    PatientRoundTrip([r], id, now, moments, f);
    ResponsesFirst(f, [r]);
    NoResponses(f);
    assert [r][1..] == [];
    Units(ToString(f(r)));
    if !c.wire.cut && !c.wire.closed && c.wire.inbound != "" {
      RefinesSequential(id, input, now, moments, f);
      MessageOfWritten(r, "");
      NothingBeforeEnd(c.wire.taken, c.wire.inbound, r);
    }
  }

  lemma OneRequest(r: Request)
    requires Writable(r)
    ensures Stream([r], false) && StreamText([r]) == RequestText(r)
  {
    hide RequestText, Writable;
    assert [r][1..] == [];
    assert Stream([], true);
    Units(RequestText(r));
    assert StreamText([r]) == RequestText(r) + StreamText([]);
  }

  /** A proper prefix of a written request holds no request yet. */
  lemma NothingBeforeEnd(taken: string, rest: string, r: Request)
    requires rest != "" && MessageOf(taken + rest) == Whole(r, "")
    ensures Requests(taken, false, false) == []
  {
    hide MessageBehind;
    if MessageOf(taken).Whole? {
      MessageMore(taken, rest);
    }
  }

  // ------------------------------------------------------- the client's side

  function Each(f: Callback, rs: seq<Request>): seq<Response> {
    seq(|rs|, i requires 0 <= i < |rs| => f(rs[i]))
  }

  lemma {:induction false} ResponsesPrinted(f: Callback, rs: seq<Request>)
    ensures Responses(f, rs) == PrintedAll(Each(f, rs))
    decreases |rs|
  {
    hide ToString, Responses;
    if rs == [] {
      NoResponses(f);
    } else {
      ResponsesFirst(f, rs);
      ResponsesPrinted(f, rs[1..]);
      assert Each(f, rs)[1..] == Each(f, rs[1..]);
    }
  }

  /** A client that reads the output response by response gets the responses to the
      requests, in order and nothing else. */
  lemma AnswersReadBack(f: Callback, rs: seq<Request>)
    requires forall i :: 0 <= i < |rs| ==> Sendable(f(rs[i]))
    ensures ReadAll(Responses(f, rs)) == Each(f, rs)
  {
    hide ReadAll, PrintedAll, Sendable, Responses;
    ResponsesPrinted(f, rs);
    ReadAllBack(Each(f, rs));
  }
}
