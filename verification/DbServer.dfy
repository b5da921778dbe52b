/** onRequest of src/file/DbServer.cpp: the key that a request names, looked up and
    answered, and what a client of the whole server gets. */
module DbServer {
  import opened Text
  import opened Http
  import opened HttpLaws
  import opened Exchange
  import opened Connections
  import opened WorkerRuns
  import opened PeerRuns
  import opened Index

  function Error404(): Response {
    Response(HTTP_1_1, 404, [Header("Connection", "close")], None)
  }

  function Found(data: string): Response {
    Response(HTTP_1_1, 200, [Header("Connection", "Keep-Alive"), Header("Content-Type", "application/json")],
             Some("{\"data\": \"" + data + "\"}"))
  }

  /** What operator>> makes of the value is the parameter read. */
  function OnRequest(db: seq<Record>, entries: seq<Entry>, r: Request, read: string -> Key): Option<Response>
    requires Ascending(db) && entries != [] && Ordered(entries)
    requires forall e | e in entries :: e.offset <= |db|
  {
    if r.parameters == None || |r.parameters.value| != 1 then Some(Error404())
    else if r.parameters.value[0].name != "key" then Some(Error404())
    else
      match GetData(db, entries, read(r.parameters.value[0].value))
      case Undefined => None
      case Answer(None) => Some(Error404())
      case Answer(Some(data)) => Some(Found(data))
  }

  /** 200 with the data in its body. */
  predicate Carries(r: Response, data: string) {
    && r.code == 200 && r.version == HTTP_1_1 && r.body == Some("{\"data\": \"" + data + "\"}")
    && r.headers == [Header("Connection", "Keep-Alive"), Header("Content-Type", "application/json")]
  }

  /** 404 without a body, and the connection is to be closed. */
  predicate IsMissing(r: Response) {
    r.code == 404 && r.version == HTTP_1_1 && r.body == None && r.headers == [Header("Connection", "close")]
  }

  lemma FoundCarries(data: string)
    ensures Carries(Found(data), data) && IsMissing(Error404())
  {
  }

  /** Only one record's data is carried. */
  lemma CarriesOne(r: Response, a: string, b: string)
    requires Carries(r, a) && Carries(r, b)
    ensures a == b
  {
    var left, right := "{\"data\": \"", "\"}";
    assert r.body.value == left + a + right == left + b + right;
    assert a == (left + a + right)[|left|..|left| + |a|];
    assert b == (left + b + right)[|left|..|left| + |b|];
  }

  /** The request names a record by the one parameter it has. */
  predicate Names(r: Request, read: string -> Key, record: Record) {
    && r.parameters.Some? && |r.parameters.value| == 1 && r.parameters.value[0].name == "key"
    && read(r.parameters.value[0].value) == record.key
  }

  /** A record below the greatest key of the index is served to every request that
      names it. */
  lemma NamedIsServed(db: seq<Record>, entries: seq<Entry>, step: nat, r: Request, read: string -> Key, i: nat)
    requires Built(entries, db, step) && step > 0 && Ascending(db) && i < |db| && db[i].key < Greatest(entries)
    requires Names(r, read, db[i])
    ensures Ordered(entries) && forall e | e in entries :: e.offset <= |db|
    ensures OnRequest(db, entries, r, read).Some? && Carries(OnRequest(db, entries, r, read).value, db[i].data)
  {
    hide Built, Scan, Found, Error404, GetData, Carries;
    FoundCarries(db[i].data);
    LookupExact(db, entries, step, db[i].key);
    ScanFinds(db, i, db[i].key);
  }

  /** A request is answered by a record only if it names that record, by nothing defined
      exactly if it names the greatest key of the index, and else by 404. */
  lemma ServesOnlyNamed(db: seq<Record>, entries: seq<Entry>, step: nat, r: Request, read: string -> Key)
    requires Built(entries, db, step) && step > 0 && Ascending(db)
    ensures entries != [] && Ordered(entries) && forall e | e in entries :: e.offset <= |db|
    ensures OnRequest(db, entries, r, read) == None <==> Names(r, read, Record(Greatest(entries), ""))
    ensures var answer := OnRequest(db, entries, r, read);
            answer.Some? ==>
              || IsMissing(answer.value)
              || exists j :: 0 <= j < |db| && Names(r, read, db[j]) && Carries(answer.value, db[j].data)
    ensures (forall j :: 0 <= j < |db| ==> !Names(r, read, db[j])) && !Names(r, read, Record(Greatest(entries), "")) ==>
      OnRequest(db, entries, r, read).Some? && IsMissing(OnRequest(db, entries, r, read).value)
  {
    hide Built, Scan, Found, Error404, GetData, Carries, IsMissing;
    FoundCarries("");
    LookupExact(db, entries, step, 0);
    if r.parameters.Some? && |r.parameters.value| == 1 && r.parameters.value[0].name == "key" {
      var key := read(r.parameters.value[0].value);
      LookupExact(db, entries, step, key);
      if key < Greatest(entries) && Scan(db, key).Some? {
        var j := Source(db, key);
        FoundCarries(db[j].data);
        assert Names(r, read, db[j]);
      }
    }
  }

  lemma Source(db: seq<Record>, key: Key) returns (j: nat)
    requires Ascending(db) && Scan(db, key).Some?
    ensures j < |db| && db[j].key == key && Scan(db, key) == Some(db[j].data)
  {
    if Present(db, key) {
      j := Where(db, key);
      ScanFinds(db, j, key);
    } else {
      ScanMisses(db, key);
      assert false;
    }
  }

  /** GET /?key=value, with no headers. */
  function KeyRequest(value: string): Request {
    Request(GET, "/", HTTP_1_1, [], None, Some([Parameter("key", value)]))
  }

  lemma KeyWritable(key: Key)
    ensures Writable(KeyRequest(Decimal(key)))
  {
    var r, digits := KeyRequest(Decimal(key)), Decimal(key);
    assert Join(r.parameters.value) == "key=" + digits + "";
    assert TargetText(r) == "/?key=" + digits;
  }

  /** What a client that asked for a record has read: unless the exchange was cut, once its
      request is read, the one response with that record's data, as far as it is sent; and
      for certain after as many answers as request and response have bytes. */
  ghost predicate HasRecord(w: Wire, peer: Peer, unsent: string, text: string, data: string, f: Callback) {
    && (!w.cut && w.inbound == "" ==>
          exists response :: Carries(response, data) && ReadResponse(w.outbound + unsent) == Some((response, "")))
    && (!w.cut && !w.closed && w.inbound != "" ==> w.outbound == "")
    && exists response :: Carries(response, data) &&
         (peer.prompt && peer.fed >= |text| + |ToString(response)| ==> ReadResponse(w.outbound) == Some((response, "")))
  }

  lemma GotRecord(w: Wire, peer: Peer, unsent: string, r: Request, response: Response, data: string, f: Callback)
    requires Got(w, peer, unsent, r, f) && f(r) == response && Carries(response, data) && Sendable(response)
    requires w.outbound <= Responses(f, w.asked)
    ensures HasRecord(w, peer, unsent, RequestText(r), data, f)
  {
    hide ToString, ReadResponse, Carries, RequestText, Sendable;
    ResponseRoundTrip(response, "");
    Units(ToString(response));
  }

  lemma CarriesSendable(r: Response, data: string)
    requires Carries(r, data)
    ensures Sendable(r)
  {
    assert |"Connection"| != |"Content-Length"| && |"Content-Type"| != |"Content-Length"|;
  }

  /** From the client's bytes to the file and back, through the whole worker: a client
      that asks for a record's key, in any chunks with any pauses and among any other
      clients, reads back the response with that record's data, and nothing else. */
  lemma ClientGetsRecord(db: seq<Record>, entries: seq<Entry>, step: nat, i: nat, read: string -> Key,
                         f: Callback, now: int, evs: seq<Event>)
    requires Built(entries, db, step) && step > 0 && Ascending(db) && i < |db| && db[i].key < Greatest(entries)
    requires read(Decimal(db[i].key)) == db[i].key
    requires Ordered(entries) && (forall e | e in entries :: e.offset <= |db|)
    requires forall r | OnRequest(db, entries, r, read).Some? :: f(r) == OnRequest(db, entries, r, read).value
    ensures var w, p := RunAll(Initial(now), evs, f), PeersOf(NOBODY, Initial(now), evs, f);
            var text := RequestText(KeyRequest(Decimal(db[i].key)));
            && p.open.Keys == w.wires.Keys && |p.closed| == |w.gone|
            && (forall fd | fd in w.wires && p.open[fd].input == text ::
                  && Got(w.wires[fd], p.open[fd], Held(w, fd), KeyRequest(Decimal(db[i].key)), f)
                  && HasRecord(w.wires[fd], p.open[fd], Held(w, fd), text, db[i].data, f))
            && (forall j | 0 <= j < |w.gone| && p.closed[j].input == text ::
                  && Got(w.gone[j].wire, p.closed[j], "", KeyRequest(Decimal(db[i].key)), f)
                  && HasRecord(w.gone[j].wire, p.closed[j], "", text, db[i].data, f))
  {
    hide Built, OnRequest, RunAll, PeersOf, RequestText, Writable, Ordered, Ascending, Got, Held, HasRecord, Carries,
         Answered, Over;
    var r := KeyRequest(Decimal(db[i].key));
    KeyWritable(db[i].key);
    KeyNames(db, read, i);
    NamedIsServed(db, entries, step, r, read, i);
    CarriesSendable(f(r), db[i].data);
    RequestIsAnswered(now, evs, r, f);
    EveryPeerIsServedInOrder(now, evs, f);
    var w, p := RunAll(Initial(now), evs, f), PeersOf(NOBODY, Initial(now), evs, f);
    forall fd | fd in w.wires && p.open[fd].input == RequestText(r)
      ensures HasRecord(w.wires[fd], p.open[fd], Held(w, fd), RequestText(r), db[i].data, f)
    {
      AnsweredPrefix(w.wires[fd], p.open[fd], Held(w, fd), Over(w, fd), f);
      GotRecord(w.wires[fd], p.open[fd], Held(w, fd), r, f(r), db[i].data, f);
    }
    forall j | 0 <= j < |w.gone| && p.closed[j].input == RequestText(r)
      ensures HasRecord(w.gone[j].wire, p.closed[j], "", RequestText(r), db[i].data, f)
    {
      AnsweredPrefix(w.gone[j].wire, p.closed[j], "", true, f);
      GotRecord(w.gone[j].wire, p.closed[j], "", r, f(r), db[i].data, f);
    }
  }

  lemma AnsweredPrefix(w: Wire, peer: Peer, unsent: string, ended: bool, f: Callback)
    requires Answered(w, peer, unsent, ended, f)
    ensures w.outbound <= Responses(f, w.asked)
  {
    hide Responses, Requests, IsStream;
  }

  lemma KeyNames(db: seq<Record>, read: string -> Key, i: nat)
    requires i < |db| && read(Decimal(db[i].key)) == db[i].key
    ensures Names(KeyRequest(Decimal(db[i].key)), read, db[i])
  {
  }
}
