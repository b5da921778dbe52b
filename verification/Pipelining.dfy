/** When exactly the connection keeps to the sequential server: as long as no read
    takes bytes beyond the end of the current request. */
module Pipelining {
  import opened Text
  import opened Http
  import opened HttpLaws
  import opened Exchange
  import opened Refinement
  import opened Guards
  import opened RoundTrip

  const PROBE_LINE := "GET / HTTP/1.0"
  const PROBE := Request(GET, "/", HTTP_1_0, [], None, None)

  lemma ProbeText()
    ensures Writable(PROBE) && RequestText(PROBE) == PROBE_LINE + CRLF + CRLF
  {
    assert HeadText(PROBE) == PROBE_LINE + CRLF;
  }

  lemma ProbeRequests()
    ensures Requests(PROBE_LINE + CRLF + CRLF, true, false) == [PROBE]
  {
    hide MessageOf, RequestText, Writable;
    ProbeText();
    MessageOfWritten(PROBE, "");
    Units(PROBE_LINE + CRLF + CRLF);
    NoHeadNoRequests("", true, false);
  }

  /** A probe appended to bytes without a head end ends their head. */
  lemma ProbeEnds(body: string)
    requires FirstEnd(body) == |body|
    ensures FirstEnd(body + (PROBE_LINE + CRLF + CRLF)) == |body| + 14
  {
    var probe := PROBE_LINE + CRLF + CRLF;
    var all := body + probe;
    assert forall j :: 0 <= j < 14 ==> probe[j] != '\r' && probe[j] != '\n';
    assert EndAt(all, |body| + 14);
    forall k | 0 <= k < |body| + 14 ensures !EndAt(all, k) {
      if k + 4 <= |body| {
        assert !EndAt(body, k);
      } else if k < |body| {
        assert all[|body|] == probe[0];
      } else {
        assert all[k] == probe[k - |body|];
      }
    }
  }

  /** Only an empty prefix leaves the probe line a plain GET of "/". */
  lemma ProbeLine(body: string, target: string)
    requires StartLineOf(body + PROBE_LINE + "\r") == Ok(StartLine(GET, target, HTTP_1_0))
    ensures body == ""
  {
    var line := body + PROBE_LINE + "\r";
    var m := Find(line, ' ');
    assert line[..m] == "GET";
    var rest := line[m + 1..];
    var t := Find(rest, ' ');
    assert ButLast(rest, t + 1) == "HTTP/1.0";
    assert t == |rest| - 10;
    assert line[|body| + 3] == ' ';
    assert forall k :: m < k <= m + t ==> line[k] == rest[k - m - 1];
  }

  lemma ProbeHead(body: string)
    requires RequestOf(body + PROBE_LINE + CRLF) == Ok(PROBE)
    ensures body == ""
  {
    hide StartLineOf;
    var x := body + PROBE_LINE + CRLF;
    var start := StartLineOf(LineOf(x));
    var block := BlockOf(AfterLine(x));
    assert block.Ok? && block.value.headers == [] && block.value.rest == None;
    EmptyBlock(AfterLine(x));
    assert x[|x| - 1] == '\n';
    assert LineOf(x) == body + PROBE_LINE + "\r";
    ProbeLine(body, start.value.target);
  }

  lemma EmptyBlock(data: string)
    requires BlockOf(data) == Ok(Block([], None))
    ensures data == ""
  {
  }

  /** Bytes in front of a stream are never without effect: some continuation tells
      them from nothing. */
  lemma TailMatters(body: string) returns (ext: string, eof: bool)
    requires body != ""
    ensures Requests(body + ext, true, eof) != Requests(ext, true, eof)
  {
    hide MessageBehind, RequestOf;
    if Requests(body, true, true) != [] {
      ext, eof := "", true;
      Units(body);
      NoHeadNoRequests("", true, true);
    } else {
      ext, eof := PROBE_LINE + CRLF + CRLF, false;
      ProbeRequests();
      if FirstEnd(body) < |body| {
        FailedStays(body, ext);
      } else if Requests(body + ext, true, false) == [PROBE] {
        ProbeEnds(body);
        ProbeMessage(body);
      }
    }
  }

  lemma FailedStays(body: string, ext: string)
    requires FirstEnd(body) < |body| && Requests(body, true, true) == []
    ensures Requests(body + ext, true, false) == []
  {
    hide RequestOf, Stoull, HeaderValue;
    HeadFound(body, ext);
  }

  lemma ProbeAlone(all: string, head: string)
    requires FirstEnd(all) < |all| && head == all[..FirstEnd(all) + 2]
    requires Requests(all, true, false) == [PROBE]
    ensures RequestOf(head) == Ok(PROBE)
  {
    hide RequestOf, FirstEnd, AsksKeepAlive, Stoull;
    var m := MessageOf(all);
    assert m.Whole? && m.request == Requests(all, true, false)[0];
  }

  lemma ProbeMessage(body: string)
    requires var ext := PROBE_LINE + CRLF + CRLF;
             FirstEnd(body + ext) == |body| + 14 && Requests(body + ext, true, false) == [PROBE]
    ensures body == ""
  {
    hide RequestOf, FirstEnd, Requests, PROBE, PROBE_LINE;
    ProbeSize();
    HeadPart(body, PROBE_LINE);
    ProbeAlone(body + (PROBE_LINE + CRLF + CRLF), body + PROBE_LINE + CRLF);
    ProbeHead(body);
  }

  lemma ProbeSize()
    ensures |PROBE_LINE| == 14
  {
  }

  lemma HeadPart(body: string, line: string)
    ensures (body + (line + CRLF + CRLF))[..|body| + |line| + 2] == body + line + CRLF
  {
  }

  // ------------------------------------------------------- one read, exactly

  /** Chunks stay so small that what a head leaves behind fits in the last one. */
  lemma HeadLeaves(data: string, chunk: string)
    requires FirstEnd(data) == |data| && FirstEnd(data + chunk) < |data + chunk|
    ensures |data + chunk| - (FirstEnd(data + chunk) + 4) < |chunk|
  {
    forall k: nat | k + 4 <= |data| ensures !EndAt(data + chunk, k) {
      assert !EndAt(data, k);
    }
  }

  lemma LostBodyUnbalanced(w: Wire, d: Conn, r: Request, rest: string, length: nat, keep: bool)
    requires d.wire.asked == w.asked && d.wire.taken == w.taken && !d.wire.closed
    requires |rest| > length
    requires w.asked + BodyRequests(r, rest, length, keep, false) == Requests(w.taken, false, false)
    requires d.point.AtBody? && d.point.toRead > 0
    ensures !Balanced(d.wire, d.client.keepAlive, d.point)
  {
    hide Requests;
    Units(w.taken);
    Units(d.point.body);
    var none := Future(d.point, d.client.keepAlive, "", false);
    assert none == [];
    assert |BodyRequests(r, rest, length, keep, false)| > 0;
    assert |w.asked + none| < |Requests(w.taken + "", false, false)|;
  }

  lemma LostTailUnbalanced(c: Conn, r: Request, body: string, f: Callback)
    requires !c.wire.closed && body != "" && c.client.keepAlive
    requires forall ext, eof ::
      c.wire.asked + ([r] + Next(body + ext, true, eof)) == Requests(c.wire.taken + ext, false, eof)
    ensures var d := Answer(c, r, f); !Balanced(d.wire, d.client.keepAlive, d.point)
  {
    hide Requests, ToString;
    var d := Answer(c, r, f);
    var ext, eof := TailMatters(body);
    if Balanced(d.wire, d.client.keepAlive, d.point) {
      assert d.wire.asked + Future(d.point, true, ext, eof) == Requests(d.wire.taken + ext, false, eof);
      assert c.wire.asked + ([r] + Next(body + ext, true, eof)) == Requests(c.wire.taken + ext, false, eof);
      Cancel(c.wire.asked, [r], Next(ext, true, eof), Next(body + ext, true, eof));
    }
  }

  lemma Cancel<T>(a: seq<T>, b: seq<T>, x: seq<T>, y: seq<T>)
    requires (a + b) + x == a + (b + y)
    ensures x == y
  {
    assert x == ((a + b) + x)[|a| + |b|..];
    assert y == (a + (b + y))[|a| + |b|..];
  }

  /** The head was read with a tail: the connection still does what the sequential
      server does exactly if the tail reaches no further than the request. */
  lemma AfterHeadExact(c: Conn, head: Result<Request>, body: string, f: Callback)
    requires !c.wire.closed && !c.wire.crossed && |body| < TWO_64
    requires HeadBalanced(c.wire, c.client.keepAlive, head, body)
    ensures var d := AfterHead(c, head, body, f);
            Balanced(d.wire, d.client.keepAlive, d.point) <==>
              !TailOverruns(MessageBehind(head, body), c.client.keepAlive)
  {
    hide Requests, Balanced, HeaderValue, Stoull, ToString, AsksKeepAlive, RequestOf, MessageBehind, TailOverruns;
    AfterHeadGuards(c, head, body, f);
    AfterHeadBalanced(c, head, body, f);
    var d := AfterHead(c, head, body, f);
    if d.wire.crossed {
      match HeaderValue(head.value.headers, "Content-Length")
      case None => LostTail(c, head.value, body, f);
      case Some(v) => LostBody(c, head.value, body, Stoull(v).value, f);
    }
  }

  lemma LostTail(c: Conn, r: Request, body: string, f: Callback)
    requires !c.wire.closed && !c.wire.crossed && HeadBalanced(c.wire, c.client.keepAlive, Ok(r), body)
    requires HeaderValue(r.headers, "Content-Length") == None && AfterHead(c, Ok(r), body, f).wire.crossed
    ensures var d := AfterHead(c, Ok(r), body, f); !Balanced(d.wire, d.client.keepAlive, d.point)
  {
    hide Requests, Balanced, HeaderValue, Stoull, ToString, AsksKeepAlive;
    var e := c.(client := c.client.(keepAlive := true));
    forall ext, eof
      ensures c.wire.asked + ([r] + Next(body + ext, true, eof)) == Requests(c.wire.taken + ext, false, eof)
    {
      assert c.wire.asked + HeadRequests(Ok(r), body + ext, c.client.keepAlive, eof)
          == Requests(c.wire.taken + ext, false, eof);
    }
    LostTailUnbalanced(Cross(e, true), r, body, f);
  }

  lemma LostBody(c: Conn, r: Request, body: string, length: nat, f: Callback)
    requires !c.wire.closed && !c.wire.crossed && |body| < TWO_64
    requires HeadBalanced(c.wire, c.client.keepAlive, Ok(r), body)
    requires var v := HeaderValue(r.headers, "Content-Length"); v.Some? && Stoull(v.value) == Some(length)
    requires AfterHead(c, Ok(r), body, f).wire.crossed
    ensures var d := AfterHead(c, Ok(r), body, f); !Balanced(d.wire, d.client.keepAlive, d.point)
  {
    hide Requests, Balanced, HeaderValue, Stoull, ToString, AsksKeepAlive;
    var d := AfterHead(c, Ok(r), body, f);
    Units(body);
    Units(c.wire.taken);
    assert c.wire.asked + HeadRequests(Ok(r), body + "", c.client.keepAlive, false)
        == Requests(c.wire.taken + "", false, false);
    LostBodyUnbalanced(c.wire, d, r, body, length, c.client.keepAlive || AsksKeepAlive(r));
  }

  /** One read, exactly: a connection in step with the sequential server stays in step
      if and only if the chunk does not reach beyond the current request into bytes that
      will be missed. */
  lemma ReadExact(c: Conn, k: nat, f: Callback)
    requires (c.point.AtHead? || c.point.AtBody?) && Placed(c.point) && 0 < k <= |c.wire.inbound| && k <= BUFFER
    requires !c.wire.closed && !c.wire.crossed && Balanced(c.wire, c.client.keepAlive, c.point)
    ensures var d := OnChunk(c, k, f);
            Balanced(d.wire, d.client.keepAlive, d.point) <==>
              !Overruns(c.point, c.client.keepAlive, c.wire.inbound[..k])
  {
    hide Balanced, RequestOf, AfterHead, Requests, ToString, EndAt, Overruns;
    ChunkGuards(c, k, f);
    if c.point.AtHead? {
      HeadReadExact(c, k, f);
    } else {
      BodyReadExact(c, k, f);
    }
  }

  lemma HeadReadExact(c: Conn, k: nat, f: Callback)
    requires c.point.AtHead? && Placed(c.point) && 0 < k <= |c.wire.inbound| && k <= BUFFER
    requires !c.wire.closed && !c.wire.crossed && Balanced(c.wire, c.client.keepAlive, c.point)
    ensures var d := OnChunk(c, k, f);
            Balanced(d.wire, d.client.keepAlive, d.point) <==> !d.wire.crossed
  {
    hide RequestOf, AfterHead, Requests, ToString, EndAt, HeadRequests, TailOverruns, MessageBehind;
    HeadChunkBalanced(c, k, f);
    var data, chunk := c.point.data, c.wire.inbound[..k];
    var full := data + chunk;
    var h := FirstEnd(full);
    WindowExact(data, chunk);
    if h < |full| {
      HeadTaken(c, k);
      HeadEndBalanced(Take(c, k).wire, c.client.keepAlive, full);
      HeadLeaves(data, chunk);
      AfterHeadGuards(Take(c, k), RequestOf(full[..h + 2]), full[h + 4..], f);
      AfterHeadExact(Take(c, k), RequestOf(full[..h + 2]), full[h + 4..], f);
    }
  }

  lemma HeadTaken(c: Conn, k: nat)
    requires c.point.AtHead? && k <= |c.wire.inbound| && !c.wire.closed
    requires Balanced(c.wire, c.client.keepAlive, c.point)
    ensures Balanced(Take(c, k).wire, c.client.keepAlive, AtHead(c.point.data + c.wire.inbound[..k]))
  {
    hide Requests;
    var data, chunk, keep := c.point.data, c.wire.inbound[..k], c.client.keepAlive;
    forall ext, eof ensures Future(AtHead(data + chunk), keep, ext, eof) == Future(c.point, keep, chunk + ext, eof) {
      Associate(data, chunk, ext);
    }
    TakeBalanced(c, k, AtHead(data + chunk));
  }

  lemma BodyReadExact(c: Conn, k: nat, f: Callback)
    requires c.point.AtBody? && Placed(c.point) && 0 < k <= |c.wire.inbound| && k <= BUFFER
    requires !c.wire.closed && !c.wire.crossed && Balanced(c.wire, c.client.keepAlive, c.point)
    ensures var d := OnChunk(c, k, f);
            Balanced(d.wire, d.client.keepAlive, d.point) <==> !d.wire.crossed
  {
    hide Requests, ToString, BodyRequests;
    BodyChunkBalanced(c, k, f);
    if k > c.point.toRead {
      var chunk := c.wire.inbound[..k];
      assert c.wire.asked + Future(c.point, c.client.keepAlive, chunk, false)
          == Requests(c.wire.taken + chunk, false, false);
      LostBodyUnbalanced(Take(c, k).wire, OnChunk(c, k, f), c.point.request, c.point.body + chunk,
                         |c.point.body| + c.point.toRead, c.client.keepAlive);
    }
  }

  // ------------------------------------------------------------ an example

  const KEEP := Request(GET, "/", HTTP_1_0, [Header("Connection", "Keep-Alive")], None, None)

  lemma KeepWritable()
    ensures Writable(KEEP) && AsksKeepAlive(KEEP) && |RequestText(KEEP)| == 42
    ensures HeaderValue(KEEP.headers, "Content-Length") == None
  {
    assert HeaderLines(KEEP.headers) == HeaderLine(KEEP.headers[0]) + HeaderLines([]);
    assert "Connection"[1] == 'o' && |"Content-Length"| != |"Connection"|;
  }

  lemma WholeChunk(c: Conn, f: Callback)
    requires c.point == AtHead("") && c.wire.inbound != "" && FirstEnd(c.wire.inbound) < |c.wire.inbound|
    ensures var all := c.wire.inbound;
            var h := FirstEnd(all);
            OnChunk(c, |all|, f) == AfterHead(Take(c, |all|), RequestOf(all[..h + 2]), all[h + 4..], f)
  {
    hide AfterHead, RequestOf, FirstEnd;
    var all := c.wire.inbound;
    assert all[..|all|] == all && "" + all == all;
    WindowExact("", all);
  }

  lemma KeptHead(c: Conn, r: Request, tail: string, f: Callback)
    requires HeaderValue(r.headers, "Content-Length") == None && AsksKeepAlive(r) && tail != ""
    ensures AfterHead(c, Ok(r), tail, f) == Answer(Cross(c.(client := c.client.(keepAlive := true)), true), r, f)
  {
    hide HeaderValue, AsksKeepAlive, ToString;
  }

  /** A head that asks for keep-alive, read with a tail in one chunk: the tail is
      dropped. */
  lemma TailDropped(c: Conn, r: Request, tail: string, f: Callback)
    requires c.point == AtHead("") && Writable(r) && r.body == None && AsksKeepAlive(r) && tail != ""
    requires c.wire.inbound == RequestText(r) + tail && |c.wire.inbound| <= BUFFER
    ensures var d := OnChunk(c, |c.wire.inbound|, f);
            && d.point == AtSend(ToString(f(r)), 0)
            && d.client == c.client.(keepAlive := true, state := WritingResponse)
            && d.wire.crossed && d.wire.rejected == c.wire.rejected && d.parked == c.parked && d.env == c.env
            && d.wire.inbound == "" && d.wire.asked == c.wire.asked + [r] && d.wire.outbound == c.wire.outbound
  {
    hide HeadText, RequestOf, HeaderValue, Stoull, ToString, AsksKeepAlive, OnChunk, AfterHead, RequestText, FirstEnd;
    BodyText(r, tail);
    Units(tail);
    HeadTextEnds(r, tail);
    HeadRoundTrip(r);
    WholeChunk(c, f);
    KeptHead(Take(c, |c.wire.inbound|), r, tail, f);
  }

  lemma FirstTurn(c: Conn, r: Request, tail: string, f: Callback)
    requires c.point == AtHead("") && Writable(r) && r.body == None && AsksKeepAlive(r) && tail != ""
    requires c.wire.inbound == RequestText(r) + tail && |c.wire.inbound| <= BUFFER
    requires Live(c) && Placed(c.point) && !Late(c.client, c.env.now) && c.env.ticks == []
    requires c.env.answers != [] && c.env.answers[0] == Ready(BUFFER)
    ensures Turn(c, f) == OnChunk(c.(env := PopEnv(c.env)), |c.wire.inbound|, f)
  {
    hide OnChunk, RequestText;
  }

  lemma SendTurn(c: Conn, f: Callback)
    requires c.point.AtSend? && Live(c) && Placed(c.point) && c.point.written == 0 && c.client.keepAlive
    requires !Late(c.client, c.env.now) && c.env.ticks == []
    requires c.env.answers != [] && c.env.answers[0] == Ready(|c.point.text|)
    ensures var d := Turn(c, f);
            && d.point == AtHead("") && d.wire.outbound == c.wire.outbound + c.point.text
            && d.wire.asked == c.wire.asked && d.wire.crossed == c.wire.crossed && d.wire.inbound == c.wire.inbound
            && d.env == PopEnv(c.env) && !d.parked && d.client.keepAlive && d.client.id == c.client.id
            && d.client.start == c.client.start && d.client.marked == c.client.marked
            && d.client.state == ReadingRequest
            && d.wire.rejected == c.wire.rejected
  {
    var text := c.point.text;
    assert text[0..|text|] == text;
  }

  lemma IdleTurn(c: Conn, f: Callback)
    requires c.point.AtHead? && Live(c) && Placed(c.point)
    requires !Late(c.client, c.env.now) && c.env.ticks == [] && c.env.answers == []
    ensures Drive(c, f) == c.(parked := true)
  {
    assert Turn(c, f) == c.(parked := true);
  }

  /** Two requests in one chunk: the sequential server answers both, the connection
      answers the first, forgets the second and waits for more. */
  lemma PipeliningLoses(f: Callback)
    ensures var input := RequestText(KEEP) + RequestText(KEEP);
            var slice := Slice(0, [], [Ready(BUFFER), Ready(|ToString(f(KEEP))|)], 0);
            var c := Run(Fresh(1, input, 0), [Wakes(slice)], f);
            && Requests(input, false, false) == [KEEP, KEEP]
            && c.wire.asked == [KEEP] && c.wire.outbound == ToString(f(KEEP))
            && c.wire.inbound == "" && c.point == AtHead("") && c.parked && c.wire.crossed
  {
    hide ToString, RequestText, Writable, AsksKeepAlive, Turn, OnChunk, KEEP, HeaderValue;
    KeepWritable();
    var input := RequestText(KEEP) + RequestText(KEEP);
    var slice := Slice(0, [], [Ready(BUFFER), Ready(|ToString(f(KEEP))|)], 0);
    var c0 := Woken(Fresh(1, input, 0), slice);
    FirstTurn(c0, KEEP, RequestText(KEEP), f);
    TailDropped(c0.(env := PopEnv(c0.env)), KEEP, RequestText(KEEP), f);
    var c1 := Turn(c0, f);
    SendTurn(c1, f);
    var c2 := Turn(c1, f);
    IdleTurn(c2, f);
    assert Drive(c0, f) == Drive(c1, f) == Drive(c2, f);
    OneSlice(Fresh(1, input, 0), slice, f);
    TwoKeeps();
  }

  lemma OneSlice(c: Conn, s: Slice, f: Callback)
    requires Placed(c.point)
    ensures Run(c, [Wakes(s)], f) == Drive(Woken(c, s), f)
  {
    hide Drive;
    DrivePlaced(Woken(c, s), f);
    assert [Wakes(s)][1..] == [];
    assert Run(Resume(c, s, f), [], f) == Resume(c, s, f);
  }

  lemma TwoKeeps()
    ensures Requests(RequestText(KEEP) + RequestText(KEEP), false, false) == [KEEP, KEEP]
  {
    hide RequestText, Writable, AsksKeepAlive, Requests, KEEP;
    KeepWritable();
    var rs := [KEEP, KEEP];
    assert rs[1..] == [KEEP] && rs[1..][1..] == [];
    assert StreamText([]) == "";
    assert StreamText(rs[1..]) == RequestText(KEEP) + "";
    assert StreamText(rs) == RequestText(KEEP) + (RequestText(KEEP) + "");
    Units(RequestText(KEEP));
    assert Stream([], true);
    assert Stream(rs[1..], true);
    assert Stream(rs, false);
    RequestsOfStream(rs, false, false);
  }
}
