/** HTTP requests and responses: the parser, the printer and the header scan of
    src/http/HTTP.cpp, in the form of functions and of the loops that compute them. */
module Http {
  import opened Text

  datatype Method = GET | POST
  datatype Version = HTTP_1_0 | HTTP_1_1
  datatype Header = Header(name: string, value: string)
  datatype Parameter = Parameter(name: string, value: string)

  datatype Request = Request(
    method_: Method,
    target: string,
    version: Version,
    headers: seq<Header>,
    body: Option<string>,
    parameters: Option<seq<Parameter>>)

  datatype Response = Response(
    version: Version,
    code: nat,
    headers: seq<Header>,
    body: Option<string>)

  /** Malformed is the ParsingException that the server catches; OutOfRange is
      the std::out_of_range of substr, which it does not. */
  datatype ParseError = Malformed | OutOfRange
  datatype Result<+T> = Ok(value: T) | Err(error: ParseError)

  function MethodName(m: Method): string {
    match m case GET => "GET" case POST => "POST"
  }

  function GetMethod(s: string): Option<Method> {
    if s == "GET" then Some(GET) else if s == "POST" then Some(POST) else None
  }

  function VersionName(v: Version): string {
    match v case HTTP_1_0 => "HTTP/1.0" case HTTP_1_1 => "HTTP/1.1"
  }

  function GetVersion(s: string): Option<Version> {
    if s == "HTTP/1.0" then Some(HTTP_1_0) else if s == "HTTP/1.1" then Some(HTTP_1_1) else None
  }

  // ---------------------------------------------------------------- parsing

  /** line.substr(from, line.size() - from - 1): everything but the last byte.
      The unsigned count wraps when nothing is left, and the result is empty. */
  function ButLast(line: string, from: nat): string
    requires from <= |line|
  {
    if from == |line| then "" else line[from..|line| - 1]
  }

  /** std::getline: the line, and what follows its LF. */
  function LineOf(data: string): string {
    data[..Find(data, '\n')]
  }

  function AfterLine(data: string): (rest: string)
    ensures data != "" ==> |rest| < |data|
    ensures data == "" ==> rest == ""
  {
    var n := Find(data, '\n');
    if n < |data| then data[n + 1..] else ""
  }

  predicate Terminated(data: string) {
    Find(data, '\n') < |data|
  }

  datatype StartLine = StartLine(method_: Method, target: string, version: Version)

  function StartLineOf(line: string): Result<StartLine> {
    var m := Find(line, ' ');
    if m == |line| then Err(Malformed)
    else
      match GetMethod(line[..m])
      case None => Err(Malformed)
      case Some(method_) =>
        var rest := line[m + 1..];
        var t := Find(rest, ' ');
        if t == |rest| then Err(Malformed)
        else
          match GetVersion(ButLast(rest, t + 1))
          case None => Err(Malformed)
          case Some(version) => Ok(StartLine(method_, rest[..t], version))
  }

  function HeaderOf(line: string): Result<Header> {
    var c := Find(line, ':');
    if c == |line| then Err(Malformed)
    else if c + 2 > |line| then Err(OutOfRange)
    else Ok(Header(line[..c], ButLast(line, c + 2)))
  }

  /** The header lines and, when a blank line "CR" ends them, the bytes behind it.
      A blank line that is the unterminated end of the data makes tellg fail, and
      substr(npos) then throws. */
  datatype Block = Block(headers: seq<Header>, rest: Option<string>)

  function BlockOf(data: string): Result<Block>
    decreases |data|
  {
    if data == "" then Ok(Block([], None))
    else if LineOf(data) == "\r" then
      if Terminated(data) then Ok(Block([], Some(AfterLine(data)))) else Err(OutOfRange)
    else
      match HeaderOf(LineOf(data))
      case Err(e) => Err(e)
      case Ok(h) =>
        Prepend([h], BlockOf(AfterLine(data)))
  }

  /** Position of the first header with that name, whatever its case. */
  function HeaderIndex(headers: seq<Header>, name: string): (i: nat)
    ensures i <= |headers|
    ensures i < |headers| ==> Iequals(headers[i].name, name)
    ensures forall j :: 0 <= j < i ==> !Iequals(headers[j].name, name)
  {
    if headers == [] || Iequals(headers[0].name, name) then 0 else 1 + HeaderIndex(headers[1..], name)
  }

  /** Request::getHeader; None is its ParsingException. */
  function HeaderValue(headers: seq<Header>, name: string): Option<string> {
    var i := HeaderIndex(headers, name);
    if i < |headers| then Some(headers[i].value) else None
  }

  /** The name and the value of the parameter that starts at a position. */
  function ParameterAt(data: string, from: nat): Parameter
    requires from <= |data| && FindFrom(data, '=', from) < |data|
  {
    var e := FindFrom(data, '=', from);
    Parameter(data[from..e], data[e + 1..FindFrom(data, '&', e + 1)])
  }

  /** Where the next parameter starts; beyond the data when there is none. */
  function AfterParameter(data: string, from: nat): (next: nat)
    requires from <= |data| && FindFrom(data, '=', from) < |data|
    ensures from < next <= |data| + 1
  {
    FindFrom(data, '&', FindFrom(data, '=', from) + 1) + 1
  }

  /** name=value pairs separated by '&', from a position on; a tail without '='
      is dropped. */
  function ParametersFrom(data: string, from: nat): seq<Parameter>
    requires from <= |data| + 1
    decreases |data| + 1 - from
  {
    if from > |data| || FindFrom(data, '=', from) == |data| then []
    else [ParameterAt(data, from)] + ParametersFrom(data, AfterParameter(data, from))
  }

  function ParametersOf(data: string): seq<Parameter> {
    ParametersFrom(data, 0)
  }

  function ParametersIn(data: string): Option<seq<Parameter>> {
    var ps := ParametersOf(data);
    if ps == [] then None else Some(ps)
  }

  function WithParameters(start: StartLine, b: Block): Request {
    var plain := Request(start.method_, start.target, start.version, b.headers, b.rest, None);
    match start.method_
    case GET =>
      var q := Find(start.target, '?');
      if q == |start.target| then plain
      else plain.(target := start.target[..q], parameters := ParametersIn(start.target[q + 1..]))
    case POST =>
      if HeaderValue(b.headers, "Content-Type") == Some("application/x-www-form-urlencoded") && b.rest.Some?
      then plain.(parameters := ParametersIn(b.rest.value))
      else plain
  }

  /** The constructor Request(data). */
  function RequestOf(data: string): Result<Request> {
    match StartLineOf(LineOf(data))
    case Err(e) => Err(e)
    case Ok(start) =>
      match BlockOf(AfterLine(data))
      case Err(e) => Err(e)
      case Ok(b) => Ok(WithParameters(start, b))
  }

  // ------------------------------------------------------- the source's loops

  /** parseParameters: the scan position only moves forward. */
  method ParseParameters(data: string) returns (parameters: Option<seq<Parameter>>)
    ensures parameters == ParametersIn(data)
  {
    var params: seq<Parameter> := [];
    var from := 0;
    Units(ParametersOf(data));
    while from <= |data| && FindFrom(data, '=', from) != |data|
      invariant 0 <= from <= |data| + 1
      invariant ParametersOf(data) == params + ParametersFrom(data, from)
      decreases |data| + 1 - from
    {
      var found := ParameterAt(data, from);
      var next := AfterParameter(data, from);
      Associate(params, [found], ParametersFrom(data, next));
      params := params + [found];
      from := next;
    }
    Units(params);
    return if params == [] then None else Some(params);
  }

  function Prepend(headers: seq<Header>, r: Result<Block>): Result<Block> {
    match r case Err(e) => Err(e) case Ok(b) => Ok(Block(headers + b.headers, b.rest))
  }

  lemma PrependStep(headers: seq<Header>, h: Header, r: Result<Block>)
    ensures Prepend(headers, Prepend([h], r)) == Prepend(headers + [h], r)
  {
    if r.Ok? {
      assert headers + ([h] + r.value.headers) == headers + [h] + r.value.headers;
    }
  }

  /** The header loop of the constructor, and the body it leaves. */
  method ParseBlock(data: string) returns (r: Result<Block>)
    ensures r == BlockOf(data)
  {
    var rest := data;
    var headers: seq<Header> := [];
    ghost var left := BlockOf(data);
    assert left.Ok? ==> [] + left.value.headers == left.value.headers;
    while rest != "" && LineOf(rest) != "\r"
      invariant left == BlockOf(rest)
      invariant BlockOf(data) == Prepend(headers, left)
      decreases |rest|
    {
      var h := HeaderOf(LineOf(rest));
      if h.Err? {
        return Err(h.error);
      }
      left := BlockOf(AfterLine(rest));
      PrependStep(headers, h.value, left);
      headers := headers + [h.value];
      rest := AfterLine(rest);
    }
    assert headers + [] == headers;
    if rest == "" {
      return Ok(Block(headers, None));
    }
    if !Terminated(rest) {
      return Err(OutOfRange);
    }
    return Ok(Block(headers, Some(AfterLine(rest))));
  }

  /** Request::Request: start line, headers, then the parameters of a GET target
      or of a POST form. */
  method ParseRequest(data: string) returns (r: Result<Request>)
    ensures r == RequestOf(data)
  {
    var start := StartLineOf(LineOf(data));
    if start.Err? {
      return Err(start.error);
    }
    var block := ParseBlock(AfterLine(data));
    if block.Err? {
      return Err(block.error);
    }
    var headers, body := block.value.headers, block.value.rest;
    var request := Request(start.value.method_, start.value.target, start.value.version, headers, body, None);
    if request.method_ == GET {
      var q := Find(request.target, '?');
      if q != |request.target| {
        var ps := ParseParameters(request.target[q + 1..]);
        request := request.(target := request.target[..q], parameters := ps);
      }
    } else {
      var kind := HeaderValue(headers, "Content-Type");
      if kind == Some("application/x-www-form-urlencoded") && body.Some? {
        var ps := ParseParameters(body.value);
        request := request.(parameters := ps);
      }
    }
    return Ok(request);
  }

  // --------------------------------------------------------------- printing

  const CRLF := "\r\n"

  function StatusMessage(code: nat): string {
    if code == 200 then "OK"
    else if code == 302 then "Found"
    else if code == 400 then "Bad Request"
    else if code == 404 then "Not Found"
    else "Unsupported error code"
  }

  function HeaderLine(h: Header): string {
    h.name + ": " + h.value + CRLF
  }

  function HeaderLines(headers: seq<Header>): string {
    if headers == [] then "" else HeaderLine(headers[0]) + HeaderLines(headers[1..])
  }

  /** The headers as printed: Content-Length is appended for a body. */
  function PrintedHeaders(r: Response): seq<Header> {
    r.headers + if r.body.Some? then [Header("Content-Length", Decimal(|r.body.value|))] else []
  }

  function StatusLine(r: Response): string {
    VersionName(r.version) + " " + Decimal(r.code) + " " + StatusMessage(r.code)
  }

  /** Response::to_string. */
  function ToString(r: Response): (text: string)
    ensures text != ""
  {
    StatusLine(r) + CRLF + HeaderLines(PrintedHeaders(r)) + CRLF + if r.body.Some? then r.body.value else ""
  }

  lemma {:induction false} HeaderLinesAppend(a: seq<Header>, b: seq<Header>)
    ensures HeaderLines(a + b) == HeaderLines(a) + HeaderLines(b)
  {
    if a == [] {
      assert a + b == b;
    } else {
      assert (a + b)[1..] == a[1..] + b;
      HeaderLinesAppend(a[1..], b);
    }
  }

  lemma HeaderLinesSnoc(headers: seq<Header>, i: nat)
    requires i < |headers|
    ensures HeaderLines(headers[..i + 1]) == HeaderLines(headers[..i]) + HeaderLine(headers[i])
  {
    assert headers[..i + 1] == headers[..i] + [headers[i]];
    HeaderLinesAppend(headers[..i], [headers[i]]);
    assert HeaderLines([headers[i]]) == HeaderLine(headers[i]) + HeaderLines([]);
  }

  /** The header loop of to_string. */
  method PrintHeaders(headers: seq<Header>) returns (text: string)
    ensures text == HeaderLines(headers)
  {
    text := "";
    for i := 0 to |headers|
      invariant text == HeaderLines(headers[..i])
    {
      HeaderLinesSnoc(headers, i);
      text := text + HeaderLine(headers[i]);
    }
    assert headers[..|headers|] == headers;
  }

  /** The stream that to_string fills. */
  method PrintResponse(r: Response) returns (text: string)
    ensures text == ToString(r)
  {
    var lines := PrintHeaders(r.headers);
    if r.body.Some? {
      HeaderLinesSnoc(PrintedHeaders(r), |r.headers|);
      assert PrintedHeaders(r)[..|r.headers|] == r.headers;
      assert PrintedHeaders(r)[..|r.headers| + 1] == PrintedHeaders(r);
      lines := lines + HeaderLine(Header("Content-Length", Decimal(|r.body.value|)));
    } else {
      assert PrintedHeaders(r) == r.headers;
    }
    assert lines == HeaderLines(PrintedHeaders(r));
    text := StatusLine(r) + CRLF + lines + CRLF;
    if r.body.Some? {
      text := text + r.body.value;
    } else {
      assert text + "" == text;
    }
  }
}
