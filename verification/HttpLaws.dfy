/** What the HTTP parser and printer promise together: each inverts the other. */
module HttpLaws {
  import opened Text
  import opened Http

  // ------------------------------------------------------------- parameters

  /** The text of one parameter. */
  function Pair(p: Parameter): string {
    p.name + "=" + p.value
  }

  /** name=value&name=value&... */
  function Join(ps: seq<Parameter>): string
    requires ps != []
    decreases |ps|, 0
  {
    Pair(ps[0]) + More(ps[1..])
  }

  function More(ps: seq<Parameter>): string
    decreases |ps|, 1
  {
    if ps == [] then "" else "&" + Join(ps)
  }

  predicate WellNamed(ps: seq<Parameter>) {
    forall i :: 0 <= i < |ps| ==> Free(ps[i].name, '=') && Free(ps[i].value, '&')
  }

  /** The piece stands at that position of data. */
  predicate Holds(data: string, at: nat, piece: string) {
    at + |piece| <= |data| && data[at..at + |piece|] == piece
  }

  lemma FindHeld(data: string, at: nat, piece: string, c: char)
    requires Holds(data, at, piece) && Free(piece, c)
    requires at + |piece| == |data| || data[at + |piece|] == c
    ensures FindFrom(data, c, at) == at + |piece|
  {
    forall k | at <= k < at + |piece| ensures data[k] != c {
      assert data[k] == piece[k - at];
    }
  }

  lemma Places(data: string, pre: string, p: Parameter, rest: string)
    requires data == pre + (Pair(p) + rest)
    ensures Holds(data, |pre|, p.name)
    ensures |data| == |pre| + |Pair(p)| + |rest| && |pre| + |p.name| < |data| && data[|pre| + |p.name|] == '='
    ensures Holds(data, |pre| + |p.name| + 1, p.value)
    ensures rest != "" ==> data[|pre| + |Pair(p)|] == rest[0]
  {
  }

  lemma ParametersStep(data: string, from: nat)
    requires from <= |data| && FindFrom(data, '=', from) < |data|
    ensures ParametersFrom(data, from) == [ParameterAt(data, from)] + ParametersFrom(data, AfterParameter(data, from))
  {
  }

  lemma PairFound(data: string, at: nat, p: Parameter)
    requires Free(p.name, '=') && Free(p.value, '&')
    requires Holds(data, at, p.name) && at + |p.name| < |data| && data[at + |p.name|] == '='
    requires Holds(data, at + |p.name| + 1, p.value)
    requires var a := at + |Pair(p)|; a < |data| ==> data[a] == '&'
    ensures FindFrom(data, '=', at) == at + |p.name|
    ensures FindFrom(data, '&', at + |p.name| + 1) == at + |Pair(p)|
  {
    FindHeld(data, at, p.name, '=');
    FindHeld(data, at + |p.name| + 1, p.value, '&');
  }

  lemma ParameterFound(data: string, at: nat, p: Parameter)
    requires Holds(data, at, p.name) && Holds(data, at + |p.name| + 1, p.value)
    requires FindFrom(data, '=', at) == at + |p.name| < |data|
    requires FindFrom(data, '&', at + |p.name| + 1) == at + |Pair(p)|
    ensures ParameterAt(data, at) == p && AfterParameter(data, at) == at + |Pair(p)| + 1
  {
  }

  lemma PairAt(data: string, at: nat, p: Parameter)
    requires Free(p.name, '=') && Free(p.value, '&')
    requires Holds(data, at, p.name) && at + |p.name| < |data| && data[at + |p.name|] == '='
    requires Holds(data, at + |p.name| + 1, p.value)
    requires var a := at + |Pair(p)|; a < |data| ==> data[a] == '&'
    ensures ParametersFrom(data, at) == [p] + ParametersFrom(data, at + |Pair(p)| + 1)
  {
    PairFound(data, at, p);
    ParameterFound(data, at, p);
    ParametersStep(data, at);
  }

  /** A parameter printed behind pre is read back, and the scan goes on behind
      the '&', or stops when there is none. */
  lemma PairRead(data: string, pre: string, p: Parameter, rest: string)
    requires data == pre + (Pair(p) + rest)
    requires Free(p.name, '=') && Free(p.value, '&')
    requires rest == "" || rest[0] == '&'
    ensures ParametersFrom(data, |pre|) == [p] + ParametersFrom(data, |pre| + |Pair(p)| + 1)
  {
    hide ParametersFrom, Free;
    Places(data, pre, p, rest);
    PairAt(data, |pre|, p);
  }

  lemma Regroup(pre: string, pair: string, more: string)
    ensures pre + (pair + ("&" + more)) == (pre + pair + "&") + more
  {
  }

  /** Parsing inverts printing. */
  lemma {:induction false} ParseJoinFrom(data: string, pre: string, p: Parameter, ps: seq<Parameter>)
    requires data == pre + (Pair(p) + More(ps))
    requires Free(p.name, '=') && Free(p.value, '&') && WellNamed(ps)
    ensures ParametersFrom(data, |pre|) == [p] + ps
    decreases |ps|
  {
    PairRead(data, pre, p, More(ps));
    if ps != [] {
      Regroup(pre, Pair(p), Join(ps));
      Behead(ps);
      ParseJoinFrom(data, pre + Pair(p) + "&", ps[0], ps[1..]);
    }
  }

  lemma Behead(ps: seq<Parameter>)
    requires ps != [] && WellNamed(ps)
    ensures WellNamed(ps[1..]) && ps == [ps[0]] + ps[1..]
  {
  }

  lemma ParseJoin(ps: seq<Parameter>)
    requires ps != [] && WellNamed(ps)
    ensures ParametersIn(Join(ps)) == Some(ps)
  {
    Behead(ps);
    Units(Join(ps));
    ParseJoinFrom(Join(ps), "", ps[0], ps[1..]);
  }

  /** What is left of data behind a joined list: nothing, or '&' and a tail
      without '='. */
  predicate Ignored(rest: string) {
    rest == "" || (rest[0] == '&' && Free(rest, '='))
  }

  /** The text at a position is one parameter and what follows it. */
  lemma ParameterText(data: string, from: nat)
    requires from <= |data| && FindFrom(data, '=', from) < |data|
    ensures var p, next := ParameterAt(data, from), AfterParameter(data, from);
            && Free(p.name, '=') && Free(p.value, '&')
            && data[from..] == Pair(p) + data[next - 1..]
            && (next <= |data| ==> data[next - 1..] == "&" + data[next..])
  {
  }

  lemma {:induction false} JoinParseFrom(data: string, from: nat) returns (rest: string)
    requires from <= |data| && FindFrom(data, '=', from) < |data|
    ensures ParametersFrom(data, from) != [] && WellNamed(ParametersFrom(data, from))
    ensures data[from..] == Join(ParametersFrom(data, from)) + rest && Ignored(rest)
    decreases |data| - from
  {
    var p, next := ParameterAt(data, from), AfterParameter(data, from);
    ParameterText(data, from);
    var ps := ParametersFrom(data, next);
    if ps == [] {
      rest := data[next - 1..];
      Units(Pair(p));
    } else {
      rest := JoinParseFrom(data, next);
      Reassemble(Pair(p), Join(ps), rest);
    }
    Ahead(p, ps);
  }

  lemma Reassemble(pair: string, more: string, rest: string)
    ensures pair + ("&" + (more + rest)) == (pair + ("&" + more)) + rest
  {
  }

  lemma Ahead(p: Parameter, ps: seq<Parameter>)
    requires Free(p.name, '=') && Free(p.value, '&') && WellNamed(ps)
    ensures WellNamed([p] + ps) && Join([p] + ps) == Pair(p) + More(ps)
  {
    assert ([p] + ps)[1..] == ps;
  }

  /** Printing inverts parsing, on every input: a parameter list is found exactly
      when there is an '=', and its printed form is the input up to an ignored tail. */
  lemma JoinParse(data: string) returns (rest: string)
    ensures ParametersIn(data) == None <==> Free(data, '=')
    ensures ParametersIn(data).Some? ==>
      && ParametersIn(data).value != [] && WellNamed(ParametersIn(data).value)
      && data == Join(ParametersIn(data).value) + rest && Ignored(rest)
  {
    rest := "";
    if FindFrom(data, '=', 0) < |data| {
      rest := JoinParseFrom(data, 0);
      assert data[0..] == data;
    }
  }

  // ---------------------------------------------------------------- headers

  /** Names without ':' or LF, values without LF. */
  predicate WellFormed(headers: seq<Header>) {
    forall i :: 0 <= i < |headers| ==> WellFormedHeader(headers[i])
  }

  predicate WellFormedHeader(h: Header) {
    Free(h.name, ':') && Free(h.name, '\n') && Free(h.value, '\n')
  }

  /** The printed header without its LF. */
  function Line(h: Header): string {
    h.name + ": " + h.value + "\r"
  }

  lemma LineIs(line: string, rest: string)
    requires Free(line, '\n')
    ensures var data := line + "\n" + rest;
            LineOf(data) == line && AfterLine(data) == rest && Terminated(data)
  {
    var data := line + "\n" + rest;
    CutAt(data, line, '\n', rest);
  }

  lemma HeaderOfLine(h: Header)
    requires WellFormedHeader(h)
    ensures HeaderOf(Line(h)) == Ok(h) && Free(Line(h), '\n') && Line(h) != "\r"
  {
    var line := Line(h);
    assert line == h.name + [':'] + (" " + h.value + "\r");
    CutAt(line, h.name, ':', " " + h.value + "\r");
    assert line[|h.name| + 2..|line| - 1] == h.value;
    assert |line| >= 3;
  }

  /** Blank line and whatever follows, or the end of the data. */
  function Closing(rest: Option<string>): string {
    match rest case None => "" case Some(tail) => CRLF + tail
  }

  lemma ClosingBlock(rest: Option<string>)
    ensures BlockOf(Closing(rest)) == Ok(Block([], rest))
  {
    if rest.Some? {
      LineIs("\r", rest.value);
      assert Closing(rest) == "\r" + "\n" + rest.value;
    }
  }

  lemma HeaderSplit(h: Header, more: string)
    ensures HeaderLine(h) + more == Line(h) + "\n" + more
  {
    assert HeaderLine(h) == Line(h) + "\n";
  }

  /** Every printed header block is read back exactly. */
  lemma {:induction false} BlockRoundTrip(headers: seq<Header>, rest: Option<string>)
    requires WellFormed(headers)
    ensures BlockOf(HeaderLines(headers) + Closing(rest)) == Ok(Block(headers, rest))
    decreases |headers|
  {
    if headers == [] {
      Units(Closing(rest));
      ClosingBlock(rest);
    } else {
      var h, more := headers[0], HeaderLines(headers[1..]) + Closing(rest);
      Associate(HeaderLine(h), HeaderLines(headers[1..]), Closing(rest));
      HeaderSplit(h, more);
      HeaderOfLine(h);
      LineIs(Line(h), more);
      BlockRoundTrip(headers[1..], rest);
      BlockStep(h, more);
      assert headers == [h] + headers[1..];
    }
  }

  lemma BlockStep(h: Header, more: string)
    requires WellFormedHeader(h)
    ensures BlockOf(Line(h) + "\n" + more) == Prepend([h], BlockOf(more))
  {
    HeaderOfLine(h);
    LineIs(Line(h), more);
  }

  // --------------------------------------------------- where the head ends

  /** No CR LF CR LF starts inside a line that is followed by another line. */
  lemma {:induction false} EndSkipsLine(line: string, next: string, more: string)
    requires Free(line, '\n') && Free(next, '\n') && next != ""
    ensures var below := next + CRLF + more;
            forall k :: 0 <= k < |line| + 2 ==> !EndAt(line + CRLF + below, k)
  {
    var below := next + CRLF + more;
    var data := line + CRLF + below;
    forall k | 0 <= k < |line| + 2 ensures !EndAt(data, k) {
      if k + 1 < |line| {
        assert data[k + 1] == line[k + 1];
      } else if k + 1 == |line| {
        assert data[k + 1] == '\r';
      } else if k == |line| + 1 {
        assert data[k] == '\n';
      } else {
        assert data[k + 3] == below[1];
        assert below[1] == if |next| == 1 then '\r' else next[1];
      }
    }
  }

  lemma EndShift(line: string, below: string, end: nat)
    requires FirstEnd(below) == end < |below|
    requires forall k :: 0 <= k < |line| + 2 ==> !EndAt(line + CRLF + below, k)
    ensures FirstEnd(line + CRLF + below) == |line| + 2 + end
  {
    var data := line + CRLF + below;
    assert EndAt(data, |line| + 2 + end);
    forall k | |line| + 2 <= k < |line| + 2 + end ensures !EndAt(data, k) {
      assert !EndAt(below, k - |line| - 2);
    }
  }

  lemma EndOfLast(line: string, tail: string)
    requires Free(line, '\n')
    ensures FirstEnd(line + CRLF + (CRLF + tail)) == |line|
  {
    var data := line + CRLF + (CRLF + tail);
    assert EndAt(data, |line|);
    forall k | 0 <= k < |line| ensures !EndAt(data, k) {
      if k + 1 < |line| {
        assert data[k + 1] == line[k + 1];
      } else {
        assert data[k + 1] == '\r';
      }
    }
  }

  lemma HeaderText(h: Header, below: string)
    ensures HeaderLine(h) + below == h.name + ": " + h.value + CRLF + below
  {
  }

  lemma PlainHeader(h: Header)
    requires WellFormedHeader(h)
    ensures var text := h.name + ": " + h.value; Free(text, '\n') && text != ""
  {
  }

  /** The blank line behind the headers is the first CR LF CR LF of the text. */
  lemma {:induction false} HeadEnds(first: string, headers: seq<Header>, tail: string)
    requires Free(first, '\n') && WellFormed(headers)
    ensures FirstEnd(first + CRLF + (HeaderLines(headers) + (CRLF + tail))) == |first| + |HeaderLines(headers)|
    decreases |headers|
  {
    if headers == [] {
      Units(CRLF + tail);
      EndOfLast(first, tail);
    } else {
      var h := headers[0];
      var text := h.name + ": " + h.value;
      var more := HeaderLines(headers[1..]) + (CRLF + tail);
      PlainHeader(h);
      HeadEnds(text, headers[1..], tail);
      Associate(HeaderLine(h), HeaderLines(headers[1..]), CRLF + tail);
      HeaderText(h, more);
      EndSkipsLine(first, text, more);
      EndShift(first, text + CRLF + more, |text| + |HeaderLines(headers[1..])|);
    }
  }

  // ---------------------------------------------------------------- requests

  function TargetText(r: Request): string {
    if r.parameters.Some? && r.parameters.value != [] then r.target + "?" + Join(r.parameters.value) else r.target
  }

  function StartText(r: Request): string {
    MethodName(r.method_) + " " + (TargetText(r) + " " + VersionName(r.version))
  }

  /** Request line and headers, each with its CR LF. */
  function HeadText(r: Request): string {
    StartText(r) + CRLF + HeaderLines(r.headers)
  }

  /** A request as a client writes it. */
  function RequestText(r: Request): string {
    HeadText(r) + (CRLF + if r.body.Some? then r.body.value else "")
  }

  /** The requests that the server's subset of HTTP can express. */
  predicate Writable(r: Request) {
    && Free(TargetText(r), ' ') && Free(TargetText(r), '\n')
    && WellFormed(r.headers)
    && (r.method_ == GET ==> Free(r.target, '?'))
    && (r.method_ == POST ==> r.parameters == None)
    && (r.parameters.Some? ==> r.parameters.value != [] && WellNamed(r.parameters.value))
    && HeaderValue(r.headers, "Content-Length") == (if r.body.Some? then Some(Decimal(|r.body.value|)) else None)
    && (r.body.Some? ==> |r.body.value| < TWO_64)
  }

  lemma NamesRead(m: Method, v: Version)
    ensures GetMethod(MethodName(m)) == Some(m) && GetVersion(VersionName(v)) == Some(v)
    ensures Free(MethodName(m), ' ')
  {
  }

  lemma StartLineRead(m: Method, target: string, v: Version)
    requires Free(target, ' ')
    ensures StartLineOf(MethodName(m) + " " + (target + " " + VersionName(v)) + "\r") == Ok(StartLine(m, target, v))
  {
    hide MethodName, VersionName, GetMethod, GetVersion;
    var rest := target + " " + (VersionName(v) + "\r");
    var line := MethodName(m) + " " + (target + " " + VersionName(v)) + "\r";
    NamesRead(m, v);
    assert line == MethodName(m) + [' '] + rest;
    CutAt(line, MethodName(m), ' ', rest);
    CutAt(rest, target, ' ', VersionName(v) + "\r");
    assert ButLast(rest, |target| + 1) == VersionName(v);
  }

  lemma TargetRead(r: Request)
    requires Writable(r) && r.method_ == GET
    ensures WithParameters(StartLine(GET, TargetText(r), r.version), Block(r.headers, None)) == r.(body := None)
  {
    var text := TargetText(r);
    if r.parameters.Some? {
      var query := Join(r.parameters.value);
      CutAt(text, r.target, '?', query);
      ParseJoin(r.parameters.value);
    }
  }

  lemma StartFree(r: Request)
    requires Writable(r)
    ensures Free(StartText(r), '\n')
  {
  }

  /** The constructor reads back every printed head. */
  lemma HeadRoundTrip(r: Request)
    requires Writable(r)
    ensures RequestOf(HeadText(r)) == Ok(r.(body := None))
  {
    var line := StartText(r) + "\r";
    assert HeadText(r) == line + "\n" + HeaderLines(r.headers);
    StartFree(r);
    LineIs(line, HeaderLines(r.headers));
    StartLineRead(r.method_, TargetText(r), r.version);
    BlockRoundTrip(r.headers, None);
    Units(HeaderLines(r.headers));
    if r.method_ == GET {
      TargetRead(r);
    }
  }

  /** The end of the head is where the client put it, whatever follows. */
  lemma HeadTextEnds(r: Request, tail: string)
    requires Writable(r)
    ensures FirstEnd(HeadText(r) + (CRLF + tail)) == |HeadText(r)| - 2
  {
    StartFree(r);
    HeadEnds(StartText(r), r.headers, tail);
    Associate(StartText(r) + CRLF, HeaderLines(r.headers), CRLF + tail);
  }

  // --------------------------------------------------------------- responses

  /** A Content-Length is decimal digits and nothing else (RFC 7230 section 3.3.2). */
  function LengthOf(value: string): Option<nat> {
    if value != "" && forall k :: 0 <= k < |value| ==> IsDigit(value[k]) then Some(DigitsValue(value, 0)) else None
  }

  /** What a client makes of a kept-alive stream of responses: the first of them, and
      the bytes behind it. The body is as long as Content-Length says; a response
      without that header has none. */
  function ReadResponse(text: string): Option<(Response, string)> {
    var line := LineOf(text);
    var v := Find(line, ' ');
    if v == |line| then None
    else
      var rest := line[v + 1..];
      var c := Find(rest, ' ');
      match (GetVersion(line[..v]), Stoull(rest[..c]), BlockOf(AfterLine(text)))
      case (Some(version), Some(code), Ok(Block(headers, Some(behind)))) => Framed(version, code, headers, behind)
      case _ => None
  }

  function Framed(version: Version, code: nat, headers: seq<Header>, behind: string): Option<(Response, string)> {
    var i := HeaderIndex(headers, "Content-Length");
    if i == |headers| then Some((Response(version, code, headers, None), behind))
    else
      match LengthOf(headers[i].value)
      case Some(n) =>
        if n > |behind| then None
        else Some((Response(version, code, headers[..i] + headers[i + 1..], Some(behind[..n])), behind[n..]))
      case None => None
  }

  /** Headers that can be printed, none of them Content-Length, which is set
      automatically. */
  predicate Sendable(r: Response) {
    && WellFormed(r.headers)
    && (forall i :: 0 <= i < |r.headers| ==> !Iequals(r.headers[i].name, "Content-Length"))
    && r.code < 0x1_0000
  }

  function Payload(r: Response): string {
    if r.body.Some? then r.body.value else ""
  }

  lemma DecimalFree(n: nat, c: char)
    requires !IsDigit(c)
    ensures Free(Decimal(n), c)
  {
  }

  lemma PrintedWellFormed(r: Response)
    requires Sendable(r)
    ensures WellFormed(PrintedHeaders(r))
  {
    if r.body.Some? {
      DecimalFree(|r.body.value|, '\n');
    }
  }

  /** The two blanks of a status line cut it into its three words. */
  lemma TwoCuts(line: string, a: string, b: string, c: string)
    requires line == a + " " + b + " " + c
    requires Free(a, ' ') && Free(b, ' ')
    ensures Find(line, ' ') == |a| < |line| && line[..|a|] == a
    ensures var rest := line[|a| + 1..]; Find(rest, ' ') == |b| < |rest| && rest[..|b|] == b
  {
    var rest := b + [' '] + c;
    assert line == a + [' '] + rest;
    CutAt(line, a, ' ', rest);
    CutAt(rest, b, ' ', c);
  }

  lemma FreeAppend(a: string, b: string, c: char)
    requires Free(a, c) && Free(b, c)
    ensures Free(a + b, c)
  {
  }

  lemma StatusLineFree(r: Response)
    ensures Free(StatusLine(r), '\n') && Free(StatusLine(r) + "\r", '\n')
  {
    var version, code, message := VersionName(r.version), Decimal(r.code), StatusMessage(r.code);
    DecimalFree(r.code, '\n');
    FreeAppend(version, " ", '\n');
    FreeAppend(version + " ", code, '\n');
    FreeAppend(version + " " + code, " ", '\n');
    FreeAppend(version + " " + code + " ", message, '\n');
    FreeAppend(StatusLine(r), "\r", '\n');
  }

  lemma StatusLineRead(r: Response)
    requires Sendable(r)
    ensures var line := StatusLine(r) + "\r";
            var v := Find(line, ' ');
            && v < |line| && GetVersion(line[..v]) == Some(r.version)
            && var rest := line[v + 1..]; Stoull(rest[..Find(rest, ' ')]) == Some(r.code)
  {
    var a, b, c := VersionName(r.version), Decimal(r.code), StatusMessage(r.code);
    DecimalFree(r.code, ' ');
    Associate(a + " " + b + " ", c, "\r");
    TwoCuts(StatusLine(r) + "\r", a, b, c + "\r");
    StoullDecimal(r.code);
  }

  lemma ToStringLines(r: Response, more: string)
    ensures ToString(r) + more ==
      (StatusLine(r) + "\r") + "\n" + (HeaderLines(PrintedHeaders(r)) + (CRLF + (Payload(r) + more)))
  {
    hide StatusLine, HeaderLines, PrintedHeaders, Payload;
    PayloadLast(r);
    Lines(StatusLine(r), HeaderLines(PrintedHeaders(r)), Payload(r), more);
  }

  lemma PayloadLast(r: Response)
    ensures ToString(r) == StatusLine(r) + CRLF + HeaderLines(PrintedHeaders(r)) + CRLF + Payload(r)
  {
    hide StatusLine, HeaderLines, PrintedHeaders;
  }

  lemma Lines(first: string, lines: string, payload: string, more: string)
    ensures (first + CRLF + lines + CRLF + payload) + more ==
      (first + "\r") + "\n" + (lines + (CRLF + (payload + more)))
  {
  }

  lemma FramedBack(r: Response, more: string)
    requires Sendable(r)
    ensures Framed(r.version, r.code, PrintedHeaders(r), Payload(r) + more) == Some((r, more))
  {
    var printed, n := PrintedHeaders(r), |r.headers|;
    assert forall i :: 0 <= i < n ==> printed[i] == r.headers[i];
    var i := HeaderIndex(printed, "Content-Length");
    if r.body.Some? {
      assert Iequals(printed[n].name, "Content-Length");
      assert i == n;
      assert printed[..n] + printed[n + 1..] == r.headers;
      DigitsValueDecimal(|r.body.value|);
      assert (r.body.value + more)[..|r.body.value|] == r.body.value;
      assert (r.body.value + more)[|r.body.value|..] == more;
    } else {
      Units(more);
      Units(r.headers);
    }
  }

  /** Every sendable response is read back from the front of a stream, whatever follows,
      and exactly what follows is left. */
  lemma ResponseRoundTrip(r: Response, more: string)
    requires Sendable(r)
    ensures ReadResponse(ToString(r) + more) == Some((r, more))
  {
    hide ToString, HeaderLines, PrintedHeaders, Framed, StatusLine, Payload, BlockOf;
    var line, lines := StatusLine(r) + "\r", HeaderLines(PrintedHeaders(r)) + (CRLF + (Payload(r) + more));
    ToStringLines(r, more);
    StatusLineFree(r);
    LineIs(line, lines);
    PrintedWellFormed(r);
    BlockRoundTrip(PrintedHeaders(r), Some(Payload(r) + more));
    StatusLineRead(r);
    FramedBack(r, more);
  }

  /** Responses are a prefix code: a stream that starts with one starts with no other,
      and is not a part of another. */
  lemma PrefixCode(a: Response, b: Response, x: string, y: string)
    requires Sendable(a) && Sendable(b) && ToString(a) + x == ToString(b) + y
    ensures a == b && x == y
  {
    hide ToString, ReadResponse, Sendable;
    ResponseRoundTrip(a, x);
    ResponseRoundTrip(b, y);
  }

  /** Two different responses never look the same on the wire. */
  lemma ToStringInjective(a: Response, b: Response)
    requires Sendable(a) && Sendable(b) && ToString(a) == ToString(b)
    ensures a == b
  {
    hide ToString, Sendable;
    PrefixCode(a, b, "", "");
  }

  /** Responses one after another. */
  function PrintedAll(rs: seq<Response>): string {
    if rs == [] then "" else ToString(rs[0]) + PrintedAll(rs[1..])
  }

  /** What a client reads from a connection, response after response. */
  function ReadAll(text: string): seq<Response>
    decreases |text|
  {
    match ReadResponse(text)
    case Some((r, rest)) => if |rest| < |text| then [r] + ReadAll(rest) else []
    case None => []
  }

  lemma ReadOne(r: Response, more: string)
    requires Sendable(r)
    ensures ReadAll(ToString(r) + more) == [r] + ReadAll(more)
  {
    hide ReadResponse, ToString, Sendable;
    ResponseRoundTrip(r, more);
    assert |more| < |ToString(r) + more|;
  }

  /** The client reads back exactly what was printed, in order. */
  lemma {:induction false} ReadAllBack(rs: seq<Response>)
    requires forall i :: 0 <= i < |rs| ==> Sendable(rs[i])
    ensures ReadAll(PrintedAll(rs)) == rs
    decreases |rs|
  {
    hide ReadResponse, Sendable, ToString, ReadAll;
    if rs == [] {
      NothingToRead();
    } else {
      ReadOne(rs[0], PrintedAll(rs[1..]));
      ReadAllBack(rs[1..]);
      assert rs == [rs[0]] + rs[1..];
    }
  }

  lemma NothingToRead()
    ensures ReadAll("") == []
  {
  }

  /** The first CR LF CR LF ends the head, and behind it stand the payload bytes. */
  lemma HeadOfResponse(r: Response)
    requires Sendable(r)
    ensures var text := ToString(r);
            var head := FirstEnd(text) + 4;
            head <= |text| && text[head..] == Payload(r)
  {
    StatusLineFree(r);
    PrintedWellFormed(r);
    HeadEnds(StatusLine(r), PrintedHeaders(r), Payload(r));
    Tail(StatusLine(r), HeaderLines(PrintedHeaders(r)), Payload(r));
  }

  lemma Tail(first: string, lines: string, payload: string)
    ensures var text := first + CRLF + lines + CRLF + payload;
            text == first + CRLF + (lines + (CRLF + payload)) && text[|first| + |lines| + 4..] == payload
  {
  }

  lemma LengthHeader(r: Response)
    requires Sendable(r)
    ensures HeaderValue(PrintedHeaders(r), "Content-Length") ==
      if r.body.Some? then Some(Decimal(|r.body.value|)) else None
  {
    var printed, last := PrintedHeaders(r), |r.headers|;
    assert forall i :: 0 <= i < last ==> printed[i] == r.headers[i];
    if r.body.Some? {
      assert printed[last].name == "Content-Length" && Iequals(printed[last].name, "Content-Length");
    }
  }

  /** The response carries one Content-Length, which is the number of bytes behind
      the head, exactly when it has a body; without a body nothing follows. */
  lemma ResponseFraming(r: Response)
    requires Sendable(r) && (r.body.Some? ==> |r.body.value| < TWO_64)
    ensures var text := ToString(r);
            var behind := |text| - (FirstEnd(text) + 4);
            var length := HeaderValue(PrintedHeaders(r), "Content-Length");
            match r.body
            case Some(b) => behind == |b| && length.Some? && Stoull(length.value) == Some(behind)
            case None => behind == 0 && length == None
  {
    HeadOfResponse(r);
    LengthHeader(r);
    if r.body.Some? {
      StoullDecimal(|r.body.value|);
    }
  }
}
