/** Requests that a client writes arrive as written, however the network cuts them. */
module RoundTrip {
  import opened Text
  import opened Http
  import opened HttpLaws
  import opened Exchange
  import opened Refinement

  /** The requests one after another on the wire. */
  function StreamText(rs: seq<Request>): string {
    if rs == [] then "" else RequestText(rs[0]) + StreamText(rs[1..])
  }

  /** Every request can be written, and every one but the last leaves the connection
      open. */
  predicate Stream(rs: seq<Request>, keep: bool) {
    rs != [] ==>
      && Writable(rs[0])
      && (|rs| > 1 ==> keep || AsksKeepAlive(rs[0]))
      && Stream(rs[1..], true)
  }

  lemma BodyText(r: Request, ext: string)
    ensures var body := if r.body.Some? then r.body.value else "";
            && RequestText(r) + ext == HeadText(r) + (CRLF + (body + ext))
            && (HeadText(r) + (CRLF + (body + ext)))[|HeadText(r)| + 2..] == body + ext
            && (HeadText(r) + (CRLF + (body + ext)))[..|HeadText(r)|] == HeadText(r)
            && (body + ext)[..|body|] == body && (body + ext)[|body|..] == ext
  {
    hide HeadText;
  }

  /** A written request is the first message of any stream that starts with it. */
  lemma MessageOfWritten(r: Request, ext: string)
    requires Writable(r)
    ensures MessageOf(RequestText(r) + ext) == Whole(r, ext)
  {
    hide HeadText, RequestText, RequestOf, HeaderValue, Stoull, Decimal;
    var body := if r.body.Some? then r.body.value else "";
    BodyText(r, ext);
    HeadTextEnds(r, body + ext);
    HeadRoundTrip(r);
    if r.body.Some? {
      StoullDecimal(|body|);
    }
  }

  /** Parsing inverts writing for whole streams. */
  lemma {:induction false} RequestsOfStream(rs: seq<Request>, keep: bool, eof: bool)
    requires Stream(rs, keep)
    ensures Requests(StreamText(rs), keep, eof) == rs
    decreases |rs|
  {
    hide MessageOf, RequestText, Writable, AsksKeepAlive;
    if rs == [] {
      NoHeadNoRequests("", keep, eof);
    } else {
      MessageOfWritten(rs[0], StreamText(rs[1..]));
      RequestsOfStream(rs[1..], true, eof);
      if |rs| == 1 {
        NoHeadNoRequests("", true, eof);
      }
      assert rs == [rs[0]] + rs[1..];
    }
  }

  /** Any chunking, any EAGAINs: once a stream of written requests is read, without a
      timeout or error and without a read across a request's end, exactly these
      requests have reached the callback, with every field as written, and the
      responses follow in their order. Until then it is a prefix of both. */
  lemma StreamRoundTrip(rs: seq<Request>, id: nat, now: int, moments: seq<Moment>, f: Callback)
    requires Stream(rs, false)
    ensures var c := Run(Fresh(id, StreamText(rs), now), moments, f);
            var w := c.wire;
            && (!w.crossed && !w.cut && !w.closed ==> w.asked <= rs)
            && (!w.crossed && !w.cut && w.inbound == "" ==>
                  w.asked == rs && w.outbound + Unsent(c.point) == Responses(f, rs))
  {
    hide Run, Requests, Responses, StreamText, Stream;
    var c := Run(Fresh(id, StreamText(rs), now), moments, f);
    RefinesSequential(id, StreamText(rs), now, moments, f);
    RequestsOfStream(rs, false, c.wire.closed);
    RequestsOfStream(rs, false, false);
    RequestsMonotone(c.wire.taken, c.wire.inbound, false, false);
    Units(c.wire.taken);
  }
}
