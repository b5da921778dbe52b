/** Which texts the constructor of a request accepts, and what they mean, in literal
    words: the grammar behind the parser, in both directions. */
module ParserLaws {
  import opened Text
  import opened TextLaws
  import opened Http

  // --------------------------------------------------------------- the lines

  /** The line is the first of the text, and more is behind its LF. */
  predicate Cut(data: string, line: string, more: string) {
    Free(line, '\n') && (data == line + "\n" + more || (data == line && more == ""))
  }

  lemma CutExact(data: string, line: string, more: string)
    requires Cut(data, line, more)
    ensures LineOf(data) == line && AfterLine(data) == more
    ensures Terminated(data) <==> data == line + "\n" + more
  {
    if data == line + "\n" + more {
      CutAt(data, line, '\n', more);
    } else {
      assert Find(data, '\n') == |data|;
      assert data[..|data|] == data;
    }
  }

  lemma FirstCut(data: string)
    ensures Cut(data, LineOf(data), AfterLine(data))
  {
    var n := Find(data, '\n');
    if n < |data| {
      assert data == data[..n] + "\n" + data[n + 1..];
    } else {
      assert data[..n] == data;
    }
  }

  // ---------------------------------------------------------- the start line

  /** The words of a start line, and one more byte, which is not looked at. */
  predicate StartIs(line: string, s: StartLine, last: char) {
    && Free(s.target, ' ')
    && line == (if s.method_ == GET then "GET" else "POST") + " " +
               (s.target + " " + ((if s.version == HTTP_1_0 then "HTTP/1.0" else "HTTP/1.1") + [last]))
  }

  lemma StartReads(line: string, s: StartLine, last: char)
    requires StartIs(line, s, last)
    ensures StartLineOf(line) == Ok(s)
  {
    var word := if s.method_ == GET then "GET" else "POST";
    var name := if s.version == HTTP_1_0 then "HTTP/1.0" else "HTTP/1.1";
    var rest := s.target + [' '] + (name + [last]);
    assert line == word + [' '] + rest;
    CutAt(line, word, ' ', rest);
    CutAt(rest, s.target, ' ', name + [last]);
    assert ButLast(rest, |s.target| + 1) == name;
  }

  lemma Rejoin(line: string, m: nat, t: nat)
    requires m < |line| && line[m] == ' ' && t < |line| - m - 1 && line[m + 1 + t] == ' ' && m + t + 2 < |line|
    ensures var rest := line[m + 1..];
            line == line[..m] + " " + (rest[..t] + " " + (ButLast(rest, t + 1) + [rest[|rest| - 1]]))
  {
    var rest := line[m + 1..];
    assert ButLast(rest, t + 1) + [rest[|rest| - 1]] == rest[t + 1..];
    assert rest == rest[..t] + " " + rest[t + 1..];
    assert line == line[..m] + " " + rest;
  }

  lemma StartWords(line: string)
    requires StartLineOf(line).Ok?
    ensures var m := Find(line, ' ');
            && m < |line|
            && var rest := line[m + 1..];
               var t := Find(rest, ' ');
               && t < |rest| && StartLineOf(line).value.target == rest[..t]
               && line[..m] == (if StartLineOf(line).value.method_ == GET then "GET" else "POST")
               && ButLast(rest, t + 1) ==
                    (if StartLineOf(line).value.version == HTTP_1_0 then "HTTP/1.0" else "HTTP/1.1")
  {
    hide ButLast;
  }

  lemma StartRead(line: string) returns (last: char)
    requires StartLineOf(line).Ok?
    ensures StartIs(line, StartLineOf(line).value, last)
  {
    hide StartLineOf, ButLast;
    StartWords(line);
    var m := Find(line, ' ');
    var rest := line[m + 1..];
    var t := Find(rest, ' ');
    NotEmpty(rest, t + 1);
    Rejoin(line, m, t);
    last := rest[|rest| - 1];
  }

  lemma NotEmpty(line: string, from: nat)
    requires from <= |line| && ButLast(line, from) != ""
    ensures from < |line|
  {
  }

  /** A start line is accepted exactly if it is GET or POST, a target without blanks,
      HTTP/1.0 or HTTP/1.1 and one more byte; all others are malformed. */
  lemma StartLineExact(line: string, s: StartLine)
    ensures StartLineOf(line) == Ok(s) <==> exists last :: StartIs(line, s, last)
    ensures StartLineOf(line).Err? ==> StartLineOf(line) == Err(Malformed)
  {
    if StartLineOf(line) == Ok(s) {
      var last := StartRead(line);
    }
    if last :| StartIs(line, s, last) {
      StartReads(line, s, last);
    }
  }

  // ------------------------------------------------------------ a header line

  /** A name, a colon, a byte that is not looked at, the value, and another such byte
      unless nothing is left. */
  predicate HeaderIs(line: string, h: Header) {
    && Free(h.name, ':') && |line| >= |h.name| + 2
    && line[..|h.name|] == h.name && line[|h.name|] == ':'
    && h.value == if |line| == |h.name| + 2 then "" else line[|h.name| + 2..|line| - 1]
  }

  /** A header line is malformed exactly without a colon, too short exactly with nothing
      behind its first colon, and else read as it should be. */
  lemma HeaderExact(line: string, h: Header)
    ensures HeaderOf(line) == Ok(h) <==> HeaderIs(line, h)
    ensures HeaderOf(line) == Err(Malformed) <==> Free(line, ':')
    ensures HeaderOf(line) == Err(OutOfRange) <==>
      line != "" && line[|line| - 1] == ':' && Free(line[..|line| - 1], ':')
  {
    var c := Find(line, ':');
    if HeaderIs(line, h) {
      assert line == h.name + [':'] + line[|h.name| + 1..];
      CutAt(line, h.name, ':', line[|h.name| + 1..]);
    }
    if c < |line| {
      assert line[c] == ':' && !Free(line, ':');
      assert Free(line[..c], ':');
    }
    if line != "" && line[|line| - 1] == ':' && Free(line[..|line| - 1], ':') {
      assert line == line[..|line| - 1] + [':'] + "";
      CutAt(line, line[..|line| - 1], ':', "");
    }
  }

  // ---------------------------------------------------------- the header block

  /** Header lines, and then nothing, or a line of CR and the body. */
  ghost predicate BlockIs(data: string, headers: seq<Header>, rest: Option<string>)
    decreases |headers|
  {
    if headers == [] then
      (data == "" && rest == None) || (rest.Some? && data == "\r\n" + rest.value)
    else
      data != "" && exists line, more ::
        Cut(data, line, more) && line != "\r" && HeaderIs(line, headers[0]) && BlockIs(more, headers[1..], rest)
  }

  lemma {:induction false} BlockReads(data: string, headers: seq<Header>, rest: Option<string>)
    requires BlockIs(data, headers, rest)
    ensures BlockOf(data) == Ok(Block(headers, rest))
    decreases |headers|
  {
    hide HeaderOf, HeaderIs, LineOf, AfterLine, Terminated;
    if headers == [] {
      if data != "" {
        Units(rest.value);
        assert data == "\r" + "\n" + rest.value;
        CutExact(data, "\r", rest.value);
      }
    } else {
      var line, more :|
        Cut(data, line, more) && line != "\r" && HeaderIs(line, headers[0]) && BlockIs(more, headers[1..], rest);
      CutExact(data, line, more);
      HeaderExact(line, headers[0]);
      BlockReads(more, headers[1..], rest);
      assert headers == [headers[0]] + headers[1..];
    }
  }

  lemma {:induction false} BlockRead(data: string)
    requires BlockOf(data).Ok?
    ensures BlockIs(data, BlockOf(data).value.headers, BlockOf(data).value.rest)
    decreases |data|
  {
    hide HeaderOf, HeaderIs, LineOf, AfterLine, Terminated;
    if data != "" {
      FirstCut(data);
      CutExact(data, LineOf(data), AfterLine(data));
      if LineOf(data) == "\r" {
        assert data == "\r\n" + AfterLine(data);
      } else {
        var h := HeaderOf(LineOf(data)).value;
        HeaderExact(LineOf(data), h);
        BlockRead(AfterLine(data));
        var b := BlockOf(AfterLine(data)).value;
        assert ([h] + b.headers)[1..] == b.headers;
      }
    }
  }

  /** A block of headers is accepted exactly if it is header lines, ended by the end of
      the text or by a line of CR, and read as they stand. */
  lemma BlockExact(data: string, b: Block)
    ensures BlockOf(data) == Ok(b) <==> BlockIs(data, b.headers, b.rest)
  {
    hide BlockOf, BlockIs;
    if BlockOf(data) == Ok(b) {
      BlockRead(data);
    }
    if BlockIs(data, b.headers, b.rest) {
      BlockReads(data, b.headers, b.rest);
    }
  }

  /** Before any blank line, and behind header lines only, stands a line without a
      colon. */
  ghost predicate BlockFails(data: string)
    decreases |data|
  {
    data != "" && exists line, more ::
      |more| < |data| && Cut(data, line, more) && line != "\r" &&
      (Free(line, ':') || ((exists h :: HeaderIs(line, h)) && BlockFails(more)))
  }

  lemma {:induction false} BlockFailsExact(data: string)
    ensures BlockOf(data) == Err(Malformed) <==> BlockFails(data)
    decreases |data|
  {
    hide HeaderOf, HeaderIs, LineOf, AfterLine, Terminated;
    if data != "" {
      var line, more := LineOf(data), AfterLine(data);
      FirstCut(data);
      OnlyCut(data);
      if line != "\r" {
        BlockFailsExact(more);
        HeaderExact(line, Header("", ""));
        if HeaderOf(line).Ok? {
          HeaderExact(line, HeaderOf(line).value);
        }
        forall h | HeaderIs(line, h) ensures HeaderOf(line) == Ok(h) {
          HeaderExact(line, h);
        }
      }
    }
  }

  lemma OnlyCut(data: string)
    ensures forall line, more | Cut(data, line, more) :: line == LineOf(data) && more == AfterLine(data)
    ensures data != "" ==> |AfterLine(data)| < |data|
  {
    forall line, more | Cut(data, line, more) ensures line == LineOf(data) && more == AfterLine(data) {
      CutExact(data, line, more);
    }
  }

  // ------------------------------------------------------- finding a header

  /** The first header of this name, in any case, has this value. */
  ghost predicate FirstIs(headers: seq<Header>, name: string, value: string) {
    exists i :: IsFirstNamed(headers, name, i) && headers[i].value == value
  }

  predicate IsFirstNamed(headers: seq<Header>, name: string, i: int) {
    && 0 <= i < |headers| && SameButCase(headers[i].name, name)
    && forall j :: 0 <= j < i ==> !SameButCase(headers[j].name, name)
  }

  predicate NoneNamed(headers: seq<Header>, name: string) {
    forall i :: 0 <= i < |headers| ==> !SameButCase(headers[i].name, name)
  }

  lemma HeaderValueExact(headers: seq<Header>, name: string, value: string)
    ensures HeaderValue(headers, name) == Some(value) <==> FirstIs(headers, name, value)
    ensures HeaderValue(headers, name) == None <==> NoneNamed(headers, name)
  {
    hide SameButCase, Iequals;
    forall i | 0 <= i < |headers| ensures Iequals(headers[i].name, name) <==> SameButCase(headers[i].name, name) {
      IequalsExact(headers[i].name, name);
    }
    var i := HeaderIndex(headers, name);
    if i < |headers| {
      assert IsFirstNamed(headers, name, i);
    }
  }

  // -------------------------------------------------------------- a request

  /** What the words of the start line and the block make of a request. A GET target is
      cut at its first '?', behind which its parameters are; a form that is posted has
      them in its body. */
  ghost predicate PartsAre(target: string, r: Request) {
    match r.method_
    case GET =>
      || (Free(target, '?') && r.target == target && r.parameters == None)
      || (|target| > |r.target| && target[..|r.target|] == r.target && target[|r.target|] == '?' && Free(r.target, '?')
          && r.parameters == ParametersIn(target[|r.target| + 1..]))
    case POST =>
      && r.target == target
      && r.parameters ==
           if FirstIs(r.headers, "content-type", "application/x-www-form-urlencoded") && r.body.Some?
           then ParametersIn(r.body.value) else None
  }

  lemma CaseOfType(headers: seq<Header>, value: string)
    ensures HeaderValue(headers, "Content-Type") == Some(value) <==> FirstIs(headers, "content-type", value)
  {
    hide SameButCase;
    HeaderValueExact(headers, "Content-Type", value);
    TypeSpelling();
    forall s ensures SameButCase(s, "Content-Type") <==> SameButCase(s, "content-type") {
      OtherSpelling(s, "Content-Type", "content-type");
    }
    forall i ensures IsFirstNamed(headers, "Content-Type", i) <==> IsFirstNamed(headers, "content-type", i) {
    }
  }

  lemma TypeSpelling()
    ensures SameButCase("Content-Type", "content-type")
  {
  }

  lemma OtherSpelling(s: string, a: string, b: string)
    requires SameButCase(a, b)
    ensures SameButCase(s, a) <==> SameButCase(s, b)
  {
    IequalsExact(s, a);
    IequalsExact(s, b);
    IequalsExact(a, b);
  }

  lemma PartsExact(s: StartLine, b: Block, r: Request)
    ensures WithParameters(s, b) == r <==>
      && r.method_ == s.method_ && r.version == s.version && r.headers == b.headers && r.body == b.rest
      && PartsAre(s.target, r)
  {
    hide ParametersIn, FirstIs, HeaderValue;
    CaseOfType(b.headers, "application/x-www-form-urlencoded");
    if s.method_ == GET {
      var q := Find(s.target, '?');
      if PartsAre(s.target, r) && r.method_ == GET && !Free(s.target, '?') {
        assert s.target == r.target + ['?'] + s.target[|r.target| + 1..];
        CutAt(s.target, r.target, '?', s.target[|r.target| + 1..]);
      }
      if q < |s.target| {
        assert Free(s.target[..q], '?') && !Free(s.target, '?');
      }
    }
  }

  /** The whole text of a request. */
  ghost predicate RequestIs(data: string, r: Request) {
    exists line, more, target, last ::
      && Cut(data, line, more) && StartIs(line, StartLine(r.method_, target, r.version), last)
      && BlockIs(more, r.headers, r.body) && PartsAre(target, r)
  }

  /** The parser, exactly: a request is read from a text if and only if the text is that
      request. */
  lemma RequestExact(data: string, r: Request)
    ensures RequestOf(data) == Ok(r) <==> RequestIs(data, r)
  {
    hide StartLineOf, StartIs, BlockOf, BlockIs, PartsAre, WithParameters, LineOf, AfterLine, Cut;
    if RequestOf(data) == Ok(r) {
      RequestRead(data);
    }
    if RequestIs(data, r) {
      var line, more, target, last :|
        && Cut(data, line, more) && StartIs(line, StartLine(r.method_, target, r.version), last)
        && BlockIs(more, r.headers, r.body) && PartsAre(target, r);
      var s := StartLine(r.method_, target, r.version);
      CutExact(data, line, more);
      StartReads(line, s, last);
      BlockReads(more, r.headers, r.body);
      PartsExact(s, Block(r.headers, r.body), r);
    }
  }

  lemma RequestRead(data: string)
    requires RequestOf(data).Ok?
    ensures RequestIs(data, RequestOf(data).value)
  {
    hide StartLineOf, StartIs, BlockOf, BlockIs, PartsAre, WithParameters, LineOf, AfterLine, Cut;
    var line, more := LineOf(data), AfterLine(data);
    FirstCut(data);
    var last := StartRead(line);
    BlockRead(more);
    var s, b := StartLineOf(line).value, BlockOf(more).value;
    PartsExact(s, b, WithParameters(s, b));
    assert StartIs(line, StartLine(s.method_, s.target, s.version), last);
  }

  /** Which texts are malformed: those with another start line, and those with a header
      line without a colon. What is neither read nor malformed is cut short. */
  lemma RequestRefused(data: string)
    ensures RequestOf(data) == Err(Malformed) <==>
      (forall s, last :: !StartIs(LineOf(data), s, last)) || BlockFails(AfterLine(data))
    ensures Cut(data, LineOf(data), AfterLine(data))
  {
    hide StartLineOf, StartIs, BlockOf, BlockFails, WithParameters, LineOf, AfterLine, Cut;
    var line := LineOf(data);
    FirstCut(data);
    BlockFailsExact(AfterLine(data));
    if StartLineOf(line).Ok? {
      var last := StartRead(line);
    } else {
      StartLineExact(line, StartLine(GET, "", HTTP_1_0));
      forall s, last ensures !StartIs(line, s, last) {
        StartLineExact(line, s);
      }
    }
  }

  /** No other method than GET and POST, in this very case, is served. */
  lemma OtherMethods(data: string, r: Request)
    requires RequestOf(data) == Ok(r)
    ensures if r.method_ == GET then "GET " <= data else "POST " <= data
  {
    hide RequestOf, BlockIs, PartsAre;
    RequestExact(data, r);
    var line, more, target, last :|
      && Cut(data, line, more) && StartIs(line, StartLine(r.method_, target, r.version), last)
      && BlockIs(more, r.headers, r.body) && PartsAre(target, r);
  }

  // ---------------------------------------------------------------- printing

  /** The status line in full. */
  lemma StatusLineExact(r: Response)
    ensures r.code == 200 ==> StatusLine(r) == VersionName(r.version) + " " + "200" + " " + "OK"
    ensures r.code == 302 ==> StatusLine(r) == VersionName(r.version) + " " + "302" + " " + "Found"
    ensures r.code == 400 ==> StatusLine(r) == VersionName(r.version) + " " + "400" + " " + "Bad Request"
    ensures r.code == 404 ==> StatusLine(r) == VersionName(r.version) + " " + "404" + " " + "Not Found"
    ensures r.code !in {200, 302, 400, 404} ==>
      StatusLine(r) == VersionName(r.version) + " " + Decimal(r.code) + " " + "Unsupported error code"
    ensures VersionName(r.version) == (if r.version == HTTP_1_0 then "HTTP/1.0" else "HTTP/1.1")
  {
    hide Decimal;
    Codes();
  }

  lemma DecimalStep(n: nat, d: nat)
    requires 0 < n && d < 10
    ensures Decimal(10 * n + d) == Decimal(n) + [Digit(d)]
  {
    assert (10 * n + d) / 10 == n && (10 * n + d) % 10 == d;
  }

  lemma Codes()
    ensures Decimal(200) == "200" && Decimal(302) == "302" && Decimal(400) == "400" && Decimal(404) == "404"
  {
    forall d: nat | d < 10 ensures Decimal(d) == [Digit(d)] {
    }
    hide Decimal;
    DecimalStep(2, 0);
    DecimalStep(20, 0);
    DecimalStep(3, 0);
    DecimalStep(30, 2);
    DecimalStep(4, 0);
    DecimalStep(40, 0);
    DecimalStep(40, 4);
    assert Digit(0) == '0' && Digit(2) == '2' && Digit(3) == '3' && Digit(4) == '4';
  }

  /** The text of a response, byte for byte. */
  lemma ToStringExact(r: Response)
    ensures ToString(r) ==
      StatusLine(r) + "\r\n" + Headings(r.headers) +
      (match r.body
       case None => "\r\n"
       case Some(b) => "Content-Length: " + Decimal(|b|) + "\r\n" + "\r\n" + b)
  {
    hide StatusLine, Decimal;
    HeadingsAre(r.headers);
    if r.body.Some? {
      var h := Header("Content-Length", Decimal(|r.body.value|));
      HeaderLinesAppend(r.headers, [h]);
      assert [h][1..] == [];
      assert HeaderLines([h]) == HeaderLine(h) + HeaderLines([]);
    } else {
      Units(r.headers);
    }
  }

  /** Each header with colon, blank and line end, the last one at the end. */
  function Headings(headers: seq<Header>): string
    decreases |headers|
  {
    if headers == [] then ""
    else
      var h := headers[|headers| - 1];
      Headings(headers[..|headers| - 1]) + (h.name + ": " + h.value + "\r\n")
  }

  lemma {:induction false} HeadingsAre(headers: seq<Header>)
    ensures HeaderLines(headers) == Headings(headers)
    decreases |headers|
  {
    if headers != [] {
      var init, h := headers[..|headers| - 1], headers[|headers| - 1];
      HeadingsAre(init);
      assert headers == init + [h];
      HeaderLinesAppend(init, [h]);
      assert [h][1..] == [];
      assert HeaderLines([h]) == HeaderLine(h) + HeaderLines([]);
    }
  }
}
