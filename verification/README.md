# Verification of the coroutine HTTP server, its shared memory and its file index

This Dafny project models the parts of the repository that carry its guarantees and
proves what they are for.

* **The worker.** `src/http/Worker.cpp` runs one coroutine per client. A coroutine
  suspends inside `readHead`, `readBody` or `sendResponse` and is resumed by an event, a
  timeout pass or the shutdown loop. `Exchange` describes one connection as a machine
  whose suspended stack is a value (`Point`), and, next to it, the sequential server
  (`Requests`, `Responses`) that such a connection must look like. `Refinement`,
  `Guards`, `RoundTrip`, `Patience`, `Progress` and `Pipelining` relate the two, and
  `ConnectionLaws` states each decision in literal words.
  `Scheduler`, `SchedulerLaws`, `Shutdown`, `Connections`, `WorkerRuns`, `Timeouts` and
  `PeerRuns` put any number of connections, the coroutine pool (`Coroutine`) and epoll
  interest together and follow whole runs: each connection runs as if it were alone, so
  what holds of one on its own holds in the worker.
* **The same code with its loops and fields.** `ClientStates` (the three non-blocking
  loops, over a `Kernel` object) and `Worker` (the client map and the event, timeout and
  shutdown loops) are imperative; the contract of every method says which steps of the
  machine it makes, that of every loop which events in which order, so that the theorems
  about runs hold of `Worker.Run`.
* **HTTP text.** `Text`, `TextLaws`, `Http`, `HttpLaws` and `ParserLaws`: the parser, the
  printer, the search for the end of a head, the grammar behind the parser in literal
  words, and round trips in both directions (RFC 7230 sections 3.1.1, 3.1.2,
  3.2, 3.3.2 and 3.3.3, in the subset that the code accepts).
* **Shared memory.** `SharedMemory` interleaves any number of processes at every point
  between `sem_wait` and `sem_post`; `AllocatorLaws`, `MapLaws` and `SharedRuns` prove
  exclusion, tiling, linearizability, conservation and progress over all runs. `Shmem`
  has the classes as objects, and `Solo` shows that a process running alone does exactly
  what their methods do.
* **The index.** `Index` and `DbServer`: construction, bracketing, block search, and when
  a lookup is a linear search; the record generator; and what a client of the whole server
  gets. `Server` is the round-robin distribution of accepted sockets.

The kernel is an oracle. A resumption is given the answers to its reads and writes
(`Io`: ready with a number of bytes, EAGAIN, closed, failed) and the passing of time, and
theorems hold for all of them. `formResponse` is any total function. All that a peer will
ever send is one string, and the answers decide how much of it has arrived; when the
answers of a resumption are used up, the kernel says EAGAIN.

Where the code does less than one would hope, the model keeps the code and the theorem
says exactly when it does what it should:

* Bytes that arrive in the same read but belong to the next request are lost
  (`src/http/ClientState.cpp:67,86,119`). `Pipelining.ReadExact` is the exact condition for
  one read, on what is known before it, and `Pipelining.PipeliningLoses` a concrete run.
  Peers that wait for each response never meet it (`Patience.PatientRoundTrip`).
* A head that does not parse on a kept-alive connection leaves a client whose coroutine
  id is already free (`src/http/ClientState.cpp:104-106`, `src/http/Worker.cpp:100-105`).
  `WorkerRuns.ScheduledIffClean` is the exact condition for whole runs, on what each
  event finds before it, `WorkerRuns.StaleHappens` a concrete run and
  `WorkerRuns.NewcomerShares` its consequence. Peers that wait, and all peers with a
  single written request, never meet it (`PeerRuns.CourteousIsClean`,
  `PeerRuns.SinglesAreClean`).
* The index ends with an entry past the last record only when the last *key* is not
  divisible by the step (`src/file/Index.cpp:13`), and looking up its greatest key
  dereferences the end of the map (`src/file/Index.cpp:23-24`). `Index.LookupExact` is the
  exact condition; `Index.LastKeyUndefined` and `Index.LastKeyMissed` are examples.

Run `dafny verify dfyconfig.toml` to check everything.

## Model

| member | source | states |
|---|---|---|
| Text.FindFrom | src/http/HTTP.cpp:128-129 | the first position of the character at or after a position, or the length |
| Text.SearchEnd | src/http/ClientState.cpp:55-57 | the first CR LF CR LF that starts at or after a position, or the end |
| Text.FirstEndStable | src/http/ClientState.cpp:54-59 | an end of head that is found is not moved by any later bytes |
| Text.WindowExact | src/http/ClientState.cpp:52-59 | searching only the new chunk and three bytes before it finds the first CR LF CR LF of everything received, for every chunking |
| Text.StoullDecimal | src/http/ClientState.cpp:117 | stoull reads back every decimal length below 2^64 |
| TextLaws.IequalsExact | src/http/HTTP.cpp:11-16 | names agree exactly if at each position the characters are equal or ASCII letters whose codes differ by 32 |
| TextLaws.StoullReads | src/http/ClientState.cpp:117 | stoull of blanks, sign, digits and anything else is the value of the digits, modulo 2^64 after a minus, and out of range from 2^64 on |
| TextLaws.StoullRefuses | src/http/ClientState.cpp:117 | every string is such a numeral or an invalid_argument |
| TextLaws.SizeTExact | src/http/ClientState.cpp:67 | what is missing of a body, or 2^64 less what is too much |
| Http.AfterParameter | src/http/HTTP.cpp:126-136 | the scan position strictly increases, so the loop ends |
| Http.HeaderIndex | src/http/HTTP.cpp:114-121 | the first header whose name agrees up to case, none when there is none |
| Http.ParseParameters | src/http/HTTP.cpp:123-141 | the loop computes the specified list, and no list when it is empty |
| Http.ParseBlock | src/http/HTTP.cpp:82-93 | the header loop and the body behind it compute the specified block, with both kinds of failure |
| Http.ParseRequest | src/http/HTTP.cpp:55-112 | the constructor computes the specified request or error on every input |
| ParserLaws.StartLineExact | src/http/HTTP.cpp:59-80 | a start line is accepted exactly if it is GET or POST, a target without blanks, HTTP/1.0 or HTTP/1.1 and one more byte, and read as that; all others are malformed |
| ParserLaws.HeaderExact | src/http/HTTP.cpp:83-88 | a header line is malformed exactly without a colon, too short exactly with nothing behind its first colon, and else split where it should be |
| ParserLaws.BlockExact | src/http/HTTP.cpp:82-93 | a block is accepted exactly if it is header lines ended by the end of the text or a line of CR, and read as they stand |
| ParserLaws.BlockFailsExact | src/http/HTTP.cpp:82-88 | it is malformed exactly if behind header lines only stands one without a colon |
| ParserLaws.HeaderValueExact | src/http/HTTP.cpp:114-121 | the value found is that of the first header with the name in any case, and none exactly without such a header |
| ParserLaws.PartsExact | src/http/HTTP.cpp:95-111 | a GET target is cut at its first question mark and what is behind read as parameters; a posted form has them in its body, exactly with the content type in question |
| ParserLaws.RequestExact | src/http/HTTP.cpp:55-112 | the parser, exactly: a request is read from a text if and only if the text is that request |
| ParserLaws.RequestRefused | src/http/HTTP.cpp:55-112 | a text is malformed if and only if its start line is no start line or a header line has no colon |
| ParserLaws.OtherMethods | src/http/HTTP.cpp:22-30 | a request that is read starts with GET or POST, as its method says |
| Http.PrintHeaders | src/http/HTTP.cpp:163-165 | the printing loop writes one line per header in order |
| Http.PrintResponse | src/http/HTTP.cpp:158-175 | to_string prints status line, headers, Content-Length, blank line and body |
| ParserLaws.StatusLineExact | src/http/HTTP.cpp:143-162 | the status line in literal words for each code |
| ParserLaws.ToStringExact | src/http/HTTP.cpp:158-175 | the text of a response byte for byte: status line, each header, Content-Length with a body, blank line and body |
| HttpLaws.ParseJoin | src/http/HTTP.cpp:123-141 | every non-empty list with names free of '=' and values free of '&' survives joining and parsing |
| HttpLaws.JoinParse | src/http/HTTP.cpp:123-141 | conversely, on every input: parameters are found exactly when there is an '=', and rejoined they are the input up to a tail without '=' |
| HttpLaws.BlockRoundTrip | src/http/HTTP.cpp:82-93 | every well-formed header list and body is read back as written |
| HttpLaws.HeadEnds | src/http/ClientState.cpp:55-61 | the blank line behind well-formed headers is the first CR LF CR LF, whatever follows |
| HttpLaws.HeadRoundTrip | src/http/HTTP.cpp:55-112 | every writable head is parsed to exactly its method, target, version, headers and GET parameters |
| HttpLaws.HeadTextEnds | src/http/ClientState.cpp:55-61 | the end of a written head is found where the client put it, whatever follows |
| HttpLaws.ResponseRoundTrip | src/http/HTTP.cpp:158-175 | a reader that takes as many body bytes as Content-Length says recovers every sendable response from the front of a stream, and leaves exactly what follows |
| HttpLaws.PrefixCode | src/http/HTTP.cpp:158-175 | sendable responses are a prefix code: two streams that start with one agree in it and in the rest |
| HttpLaws.ReadAllBack | src/http/HTTP.cpp:158-175 | a kept-alive stream of responses is read back exactly, in order |
| HttpLaws.ToStringInjective | src/http/HTTP.cpp:158-175 | two sendable responses with the same text are equal |
| HttpLaws.HeadOfResponse | src/http/HTTP.cpp:163-174 | the first CR LF CR LF of the text ends the head, and the body is what stands behind it |
| HttpLaws.LengthHeader | src/http/HTTP.cpp:167-169 | the printed Content-Length is the length of the body, and absent without a body |
| HttpLaws.ResponseFraming | src/http/HTTP.cpp:158-175 | behind the head stand exactly as many bytes as Content-Length says, and none without a body (RFC 7230 section 3.3.3) |
| Refinement.AfterHeadSilent | src/http/ClientState.cpp:99-128 | behind a head no byte is read or written; the coroutine ends exactly after a malformed one, throws after one cut short, and else waits for a body, throws, or asks one more request and is about to send its printed response |
| Exchange.Turn | src/http/ClientState.cpp:34-60 | a loop iteration makes progress in the oracle's answers or in the point, so a resumption ends |
| Refinement.RestIsSuffix | src/http/ClientState.cpp:115-126 | what the sequential reading of one request leaves is a proper suffix of its input |
| Refinement.AfterHeadBalanced | src/http/ClientState.cpp:92-129 | a complete head keeps the connection in step with the sequential server, for every header combination, unless the tail crosses the request's end |
| Refinement.HeadChunkBalanced | src/http/ClientState.cpp:34-61 | so does a chunk of the head, for every way of cutting |
| Refinement.BodyChunkBalanced | src/http/ClientState.cpp:67-88 | so does a chunk of the body |
| Refinement.ClosedBalanced | src/http/ClientState.cpp:74-77 | a closed connection answers a request without its body, as the sequential server does at the end of its input |
| Refinement.WrittenBalanced | src/http/ClientState.cpp:131-152 | so does a short or full write |
| Refinement.ControlTurn | src/http/Worker.cpp:122-144 | the process state always matches the place where the coroutine waits, and a rejected head ends it |
| Refinement.OutputTurn | src/http/ClientState.cpp:131-152 | what is written and what is unsent are together the responses to the requests asked, in order |
| Refinement.LawfulTurn | src/http/ClientState.cpp:30-152 | one iteration keeps all of this, whatever the kernel answers |
| Refinement.LawfulRun | src/http/Worker.cpp:96-144 | any sequence of resumptions keeps it |
| Refinement.RequestsMonotone | src/http/ClientState.cpp:92-129 | more input only appends requests to the sequential server's list |
| Refinement.StreamRun | src/http/ClientState.cpp:39-52 | no byte of the peer is lost, added or reordered between socket and buffers |
| Refinement.ExactSoFar | src/http/Worker.cpp:122-144 | without timeout, error or crossing, the requests asked are exactly the sequential ones and the output is exactly theirs up to the unsent rest |
| Refinement.RefinesSequential | src/http/Worker.cpp:96-144 | for every input, chunking, short write, EAGAIN, timeout and error: what is written is a prefix of the printed responses to the requests in order, and, when no read crosses a request's end, of the sequential server's output |
| RoundTrip.MessageOfWritten | src/http/ClientState.cpp:92-129 | a written request is the first message of any stream that starts with it |
| RoundTrip.RequestsOfStream | src/http/Worker.cpp:124-142 | reading inverts writing for whole kept-alive streams of requests |
| RoundTrip.StreamRoundTrip | src/http/Worker.cpp:122-144 | for any peer, as long as no read crossed: a stream of written requests, in any chunks with any pauses, reaches the callback as exactly these requests and is answered in order |
| Guards.ChunkGuards | src/http/ClientState.cpp:52-61 | a read crosses into the next request, or rejects a head, exactly under a guard on the point, the keep-alive flag and the chunk, before it |
| Guards.TurnGuards | src/http/ClientState.cpp:34-88 | the same for a whole iteration: by the bytes it will read, if it reads any |
| Patience.SentAfter | src/http/Worker.cpp:124-142 | a peer that waits has sent exactly one request more than it has seen whole responses |
| Patience.PartOfRequest | src/http/ClientState.cpp:92-129 | no part of a written request is a whole request or a malformed one |
| Patience.PacedTurn | src/http/ClientState.cpp:30-152 | one iteration keeps a patient peer's connection inside its current request, whatever the kernel answers |
| Patience.PatientRoundTrip | src/http/Worker.cpp:122-144 | a peer that sends each request after the response to the one before never has a read cross or a head rejected; its requests arrive as written, in any chunks with any pauses, and are answered in order |
| Patience.RequestRoundTrip | src/http/ClientState.cpp:92-129 | one written request in any chunks reaches the callback with its last byte, not before, with every field as written |
| Patience.AnswersReadBack | src/http/HTTP.cpp:158-175 | a client that reads the output response by response gets the responses in order and nothing else |
| Progress.PromptTurn | src/http/ClientState.cpp:34-152 | an iteration that finds the clock in time and the socket ready moves a byte at least, unless the coroutine waits for bytes that do not come |
| Progress.PromptDrive | src/http/Worker.cpp:122-144 | one resumption uses up its answers, a byte each at least, or gets through all there is |
| Progress.PromptIsThrough | src/http/Worker.cpp:122-144 | progress for any peer: once prompt resumptions were given as many answers as there are bytes to come and to send, every request asked has its whole response, nothing is held back, and the coroutine has ended or read everything |
| Progress.PatientIsServed | src/http/Worker.cpp:122-144 | for a patient peer, with a bound known in advance: as many answers as its requests and their responses have bytes bring it exactly all its responses |
| ConnectionLaws.KeepExact | src/http/ClientState.cpp:107-114 | a head keeps the connection open exactly if it was kept already or the first Connection header, in any case, says exactly Keep-Alive |
| ConnectionLaws.KeepOverRuns | src/http/Worker.cpp:124-142 | over any run keep-alive is on exactly if a request so far said so; the coroutine waits behind a response only then and ends by itself only else |
| ConnectionLaws.RequestsGoOn | src/http/Worker.cpp:124-142 | the sequential server reads on behind a request exactly if it said Keep-Alive |
| ConnectionLaws.OneRequestEnds | src/http/Worker.cpp:138-142 | when the response to one request is out, the connection waits for another if the request said Keep-Alive, and has ended if not |
| ConnectionLaws.TurnCuts | src/http/ClientState.cpp:20-152 | an exchange is cut exactly by a mark, by an age of more than ten seconds at a clock reading, or by a failing read or write; it counts as closed exactly by an end of stream in time; and where the coroutine goes then |
| ConnectionLaws.ReadOfExact | src/http/ClientState.cpp:38-39 | a read takes at most 400 bytes, as many as are ready and come |
| ConnectionLaws.NoRequestExact | src/http/ClientState.cpp:99-106 | the sequential server rejects an input exactly if its first head is no request |
| ConnectionLaws.RefusedHead | src/http/ClientState.cpp:99-106 | a peer whose first head is no request, in any chunks with any pauses: nothing is asked, nothing is sent, and the coroutine ends with the head |
| ConnectionLaws.OtherMethodRefused | src/http/HTTP.cpp:22-30 | in particular any other method than GET and POST |
| ConnectionLaws.BodyExact | src/http/ClientState.cpp:115-124 | the length of a body is that of the first Content-Length header, in any case, and there is none without |
| ConnectionLaws.AfterHeadExactly | src/http/ClientState.cpp:115-128 | behind a head the connection asks at once without a length or with the whole body, waits for what is missing, wraps when too much was read, and throws at a length that is no number |
| Pipelining.TailMatters | src/http/ClientState.cpp:119-126 | no non-empty tail is without effect on a sequential server |
| Pipelining.AfterHeadExact | src/http/ClientState.cpp:107-128 | a head read with a tail leaves the connection in step if and only if the tail does not reach beyond the request into bytes that a Content-Length or a kept-alive connection will miss |
| Pipelining.ReadExact | src/http/ClientState.cpp:52-61 | a read keeps the connection in step with the sequential server if and only if its chunk does not reach beyond the current request in that way |
| Pipelining.PipeliningLoses | src/http/ClientState.cpp:67-86 | a concrete run: two requests in one chunk, the second is dropped |
| Coroutine.CreateValid | src/coroutine/coroutine.cpp:64-80 | create keeps the pool invariant, hands out a resumable id and leaves all others alone |
| Coroutine.ResumeValid | src/coroutine/coroutine.cpp:82-147 | so does resume: the queue stays duplicate-free and holds exactly the finished ids |
| Coroutine.RaisedExactlyOnce | src/coroutine/coroutine.cpp:82-103 | resume rethrows an exception exactly when the routine throws it in that very slice, and refuses exactly what is finished or unknown; a predecessor's exception is never seen |
| Coroutine.UnfinishedBound | src/coroutine/coroutine.cpp:64-80 | the vector is full of unfinished routines when the queue is empty |
| Coroutine.MemoryIsPeak | src/coroutine/coroutine.cpp:64-80 | over any run from any state the vector's length is the greatest number of routines unfinished together, or what it was |
| Coroutine.MemoryBound | src/coroutine/coroutine.cpp:64-80 | from an empty pool it is exactly that peak |
| Coroutine.ReuseIsFifo | src/coroutine/coroutine.cpp:72-79 | over any run ids are reused in the order of finishing, each finish at most once |
| Coroutine.FinishedStays | src/coroutine/coroutine.cpp:88-90 | over any run a finished id is refused until create reuses it |
| Coroutine.Ordinator.Create | src/coroutine/coroutine.cpp:64-80 | the object's new state and id are those of the pool model |
| Coroutine.Ordinator.Enter | src/coroutine/coroutine.cpp:82-93 | accepts exactly known unfinished ids and makes them current |
| Coroutine.Ordinator.Yield | src/coroutine/coroutine.cpp:105-113 | keeps the routine's stack and clears current |
| Coroutine.Ordinator.Finish | src/coroutine/coroutine.cpp:130-147 | keeps an exception, flags the routine and queues its id |
| Coroutine.Ordinator.IsFinished | src/coroutine/coroutine.cpp:120-125 | the flag of the id |
| Scheduler.EnrolBase | src/http/Worker.cpp:67-71 | creating a client for a new descriptor keeps the basic invariant |
| Scheduler.OutcomeOfResume | src/http/Worker.cpp:96-98 | a resumed routine runs on its own client and socket until it waits or ends, with its client's identity unchanged |
| Scheduler.ResumeIdBase | src/http/Worker.cpp:96-99 | resuming any id, stale or not, keeps the basic invariant and every client |
| Scheduler.SettleBase | src/http/Worker.cpp:99-120 | closing or re-arming keeps it |
| Scheduler.HandleBase | src/http/Worker.cpp:64-76 | every handled event keeps it: what is suspended is a client's, and served descriptors are open or closed, once |
| SchedulerLaws.StaleDrive | src/http/ClientState.cpp:104-114 | a coroutine is left over by its run exactly when, seen before, one of its reads will complete a malformed head on a kept-alive connection in time |
| SchedulerLaws.HandleScheduled | src/http/Worker.cpp:64-120 | after an event every client owns a suspended coroutine of its own and is armed for what it waits for, if and only if the event does not meet such a head; only then is a finished coroutine left with its client |
| SchedulerLaws.EndOfService | src/http/Worker.cpp:99-105 | a returned coroutine leaves a kept-alive client in time only after a rejected head |
| SchedulerLaws.AcceptExact | src/http/Worker.cpp:30-38 | an accepted socket waits under EPOLLIN with all its input to come and no client yet |
| SchedulerLaws.EnrolExact | src/http/ClientState.cpp:12-18 | a new client starts its ten seconds now, unmarked, not kept, reading its first request |
| SchedulerLaws.ThrowExact | src/http/Worker.cpp:96-98 | an exception of serveClient leaves run, and nothing else does |
| Connections.LivesOn | src/coroutine/coroutine.cpp:82-113 | one more resumption, pause or mark continues a connection's own run, patient and prompt if it still is, with the answers it was given counted |
| Connections.ResumeTraced | src/http/Worker.cpp:96-98 | resuming any id, stale or not, moves only its own connection; for all others only time passes |
| Connections.SettleTraced | src/http/Worker.cpp:99-120 | closing or re-arming one descriptor touches no other connection, and only ended ones are closed |
| Connections.StandsMeans | src/http/Worker.cpp:122-144 | what a run of its own means for a peer: input, order, prefix, exactness, no crossing for a patient one, and progress |
| Shutdown.DriveLate | src/http/ClientState.cpp:34-37 | the coroutine of a client that is late at its first clock reading, or marked, returns at once from wherever it waits, without reading or writing |
| Shutdown.DriveMarked | src/http/ClientState.cpp:20-27 | for a marked client that is always so |
| Shutdown.HandleLate | src/http/Worker.cpp:96-105 | handling a client that is late by the clock closes exactly that descriptor, once, without I/O, and throws nothing |
| Shutdown.HandleMarked | src/http/Worker.cpp:96-105 | handling a marked client closes exactly that descriptor, once, without I/O, and throws nothing |
| Shutdown.DrainScheduled | src/http/Worker.cpp:79-89 | from a scheduled world one pass empties the map: each client is closed once, in order, without I/O, without an exception |
| Shutdown.DrainAllMarked | src/http/Worker.cpp:79-89 | once all are marked a pass empties the map even when ids are shared |
| Shutdown.PassMarks | src/http/Worker.cpp:80-88 | after one pass from any world, whoever is left is marked |
| Shutdown.TwoPasses | src/http/Worker.cpp:79-89 | so two passes are always enough |
| WorkerRuns.StepKeeps | src/http/Worker.cpp:40-90 | every event of a run keeps the basic invariant, and every connection in a run of its own |
| WorkerRuns.EachRunsAlone | src/http/Worker.cpp:40-144 | non-interference: after any run each connection, open or closed, stands where a run of its own on its peer's input leads, whatever the others did |
| WorkerRuns.EveryPeerIsServedInOrder | src/http/Worker.cpp:40-144 | over any interleaving of clients, events, timeouts and shutdown, for every open and closed connection: the bytes read and to come are the input it was accepted with; the output is a prefix of the responses in order, and unless a read crossed, of the sequential server's on that input; without timeout or error too, the requests asked are exactly the sequential ones and nothing is missing but what the coroutine still holds, nothing at all once closed; a patient peer is never crossed; and with prompt resumptions everything comes within as many answers as there are bytes; each served descriptor is open or was closed, once |
| WorkerRuns.StepScheduled | src/http/Worker.cpp:64-76 | one event keeps the scheduler invariant if and only if it does not meet, in bytes still to be read, a malformed head on a kept-alive connection in time |
| WorkerRuns.ScheduledIffClean | src/http/Worker.cpp:40-120 | over whole runs the scheduler invariant holds throughout if and only if no event meets such a head |
| WorkerRuns.ScheduledDistinct | src/http/Worker.cpp:67-70 | then clients have distinct coroutine ids |
| WorkerRuns.ShutdownClosesAll | src/http/Worker.cpp:79-89 | after any clean run one pass closes everything without I/O, and each descriptor was closed as often as it was served |
| WorkerRuns.NewcomerShares | src/http/Worker.cpp:67-71 | a client left with a finished coroutine shares its id with the next one |
| WorkerRuns.StaleHappens | src/http/Worker.cpp:100-105 | a concrete run that leaves such a client |
| Timeouts.HandleLeaves | src/http/Worker.cpp:96-120 | handling one client leaves the others, their sockets and their coroutines as they were |
| Timeouts.SettleExact | src/http/Worker.cpp:99-120 | a client is closed exactly if its coroutine has finished and it is not kept, marked, or more than ten seconds old; else it is armed for reading or writing |
| Timeouts.QuietPassClosesLate | src/http/Worker.cpp:52-62 | a timeout pass that throws nothing closes every client that is marked or more than ten seconds old at the clock reading of its turn, so in particular all that were so when it began, each without I/O |
| Timeouts.LateClientsAreClosed | src/http/Worker.cpp:52-62 | that holds after any clean run of the worker, for every client more than ten seconds old |
| PeerRuns.CourteousIsClean | src/http/Worker.cpp:40-144 | if all peers send written requests and wait for each response, the scheduler invariant holds throughout and no connection loses a byte |
| PeerRuns.WrittenIsSingle | src/http/HTTP.cpp:55-112 | every writable request, written out, is such an input, and means itself |
| PeerRuns.SinglesAreClean | src/http/Worker.cpp:40-144 | by the inputs alone: if every peer sends one written request, that holds of every run |
| PeerRuns.RequestIsAnswered | src/http/Worker.cpp:40-144 | one written request to the worker, in any chunks and among any other connections, arrives whole and as written and is answered by exactly its response, and is so for certain after as many answers as request and response have bytes |
| PeerRuns.ClientReadsAnswers | src/http/Worker.cpp:122-144 | on a closed, uncut, uncrossed connection the client reads back exactly the answers to the sequential server's requests, in order |
| ClientStates.Kernel.Read | src/http/ClientState.cpp:38-50 | a non-blocking read takes a prefix of what is to come, or nothing |
| ClientStates.Kernel.Write | src/http/ClientState.cpp:138-149 | a non-blocking write sends a prefix, or nothing |
| ClientStates.HeadChunk | src/http/ClientState.cpp:52-61 | the windowed search of the loop is the machine's step on a chunk |
| ClientStates.ClientState.constructor | src/http/ClientState.cpp:12-18 | a new client's fields |
| ClientStates.ClientState.TimedOut | src/http/ClientState.cpp:20-27 | true exactly if marked or more than 10 000 000 000 ns after the start; a marked client does not look at the clock |
| ClientStates.ClientState.Receive | src/http/ClientState.cpp:35-50 | the common start of both read loops does what the machine does, in all five outcomes |
| ClientStates.ClientState.ReadHead | src/http/ClientState.cpp:30-62 | the loop runs as the machine does to a yield, an end, an exception or the first CR LF CR LF |
| ClientStates.ClientState.ReadBody | src/http/ClientState.cpp:64-90 | the same for the body, with the unsigned count that may wrap |
| ClientStates.ClientState.ReadAnnounced | src/http/ClientState.cpp:115-128 | Content-Length decides between no body, a body and an exception |
| ClientStates.ClientState.ReadRest | src/http/ClientState.cpp:92-129 | parsing, keep-alive and body after a head, as the machine does |
| ClientStates.ClientState.SendResponse | src/http/ClientState.cpp:131-152 | the write loop runs as the machine does to a yield, an end, an exception or the last byte |
| Worker.ServeClient | src/http/Worker.cpp:122-144 | the coroutine, entered where it was suspended, runs exactly as the machine up to its next yield or end and touches no other descriptor |
| Worker.Respond | src/http/Worker.cpp:130-134 | one request becomes one printed response about to be sent |
| Worker.Worker.constructor | src/http/Worker.cpp:15-22 | a new worker is in the initial state and satisfies the invariant |
| Worker.Worker.AddClient | src/http/Worker.cpp:30-38 | the descriptor is opened and armed for EPOLLIN, and nothing else changes |
| Worker.Worker.Enlist | src/http/Worker.cpp:67-71 | a client and a coroutine for a descriptor without one |
| Worker.Worker.Resume | src/coroutine/coroutine.cpp:82-103 | resuming an id changes pool, client and socket as the scheduler model says, or throws |
| Worker.Worker.HandleClient | src/http/Worker.cpp:96-120 | resume, then close or re-arm, exactly as modelled, with the flag to erase |
| Worker.Worker.HandleEvent | src/http/Worker.cpp:64-76 | the body of the event loop is one Handle step |
| Worker.Worker.TimeoutPass | src/http/Worker.cpp:52-62 | handles the clients in some order, each at most once, and all of them unless one throws |
| Worker.Worker.EventPass | src/http/Worker.cpp:64-76 | handles exactly the listed events of open descriptors, in order, up to one that throws |
| Worker.Worker.ServeRound | src/http/Worker.cpp:45-76 | EINTR does nothing, a quiet period handles every client once, events are handled as listed, an added socket is opened |
| Worker.Worker.DrainOnce | src/http/Worker.cpp:80-88 | a shutdown pass marks and handles every client once unless one throws, marks everybody left, and empties the map if all were marked |
| Worker.Worker.DrainAll | src/http/Worker.cpp:79-89 | the shutdown loop is at most two such passes and ends with no clients, unless an exception leaves it |
| Worker.Worker.Run | src/http/Worker.cpp:40-90 | the whole of run: the events of the rounds, all of them and in order, each as its kind asks, then the shutdown passes; unless an exception leaves it, no client is left and everything served is closed, once each |
| WorkerRuns.TwoParts | src/http/Worker.cpp:40-90 | a run in two parts is one run, so the theorems about runs hold of the rounds together with the shutdown passes |
| AllocatorLaws.StepBalanced | include/shmem/SemaphoreMutex.hpp:30-37 | a process enters a critical section exactly when it takes the semaphore and leaves it exactly when it posts, on every path |
| AllocatorLaws.BalancedMutex | include/shmem/SemaphoreMutex.hpp:30-37 | each semaphore plus the processes inside stays 1 |
| AllocatorLaws.Alone | include/shmem/ShmemMap.hpp:44-59 | nobody is inside with another |
| AllocatorLaws.BlocksApart | include/shmem/ShmemAllocator.hpp:36-55 | blocks of a tiling are equal or apart, and inside |
| AllocatorLaws.TiledDrop | include/shmem/ShmemAllocator.hpp:51-53 | the block that deallocate gives back is the one allocated last |
| AllocatorLaws.OtherPlaced | include/shmem/ShmemAllocator.hpp:36-55 | what a process relies on inside a call survives every step of the others |
| AllocatorLaws.BumpSound | include/shmem/ShmemAllocator.hpp:42-43 | allocating keeps the tiling and every owner |
| AllocatorLaws.LowerSound | include/shmem/ShmemAllocator.hpp:51-53 | giving back the top keeps them |
| AllocatorLaws.EraseSound | include/shmem/ShmemMap.hpp:50-53 | unlinking a node takes exactly its block from the map |
| AllocatorLaws.LinkSound | include/shmem/ShmemMap.hpp:44-47 | linking a node gives the map a block of its own for the key |
| AllocatorLaws.StepSound | include/shmem/ShmemAllocator.hpp:36-55 | every step of every process keeps exclusion, tiling and ownership |
| MapLaws.GoneInside | include/shmem/ShmemMap.hpp:44-59 | inside the mutex each step brings the map closer to the operation's sequential effect |
| MapLaws.OutsideQuiet | include/shmem/ShmemMap.hpp:44-59 | outside the mutex no step touches the map |
| MapLaws.ReleaseLinear | include/shmem/ShmemMap.hpp:44-59 | a reply given at release extends the sequential history |
| MapLaws.StepAgrees | include/shmem/ShmemMap.hpp:44-59 | every step keeps the shared map in agreement with that history |
| MapLaws.StepTimed | include/shmem/SemaphoreMutex.hpp:30-37 | and its order in agreement with real time |
| SharedRuns.AllocatorSafety | include/shmem/ShmemAllocator.hpp:36-55 | over any run of any number of processes: semaphore plus holders is 1, the blocks tile the region up to start, live blocks are apart, in bounds and below start, and every key has its own node |
| SharedRuns.MapIsLinearizable | include/shmem/ShmemMap.hpp:44-59 | over any run the answered operations have the replies of a sequential map in order of mutex acquisition, the shared map is that map whenever the mutex is free, and the order respects real time |
| SharedRuns.NoMemoryChangesNothing | include/shmem/ShmemMap.hpp:44-47 | over any run, every operation that fails with bad_alloc was an insertion of a key that the map did not have, and left its contents unchanged |
| SharedRuns.BytesConserved | include/shmem/ShmemAllocator.hpp:36-55 | over any run the bytes below start are the live bytes and those freed while not on top, and every allocate is answered as if alone |
| SharedRuns.ReverseOrderIsStack | include/shmem/ShmemAllocator.hpp:36-55 | calls whose frees come in reverse order use the region as a stack and lose nothing |
| SharedRuns.ReverseOrderRun | include/shmem/ShmemAllocator.hpp:36-55 | any interleaved run of that kind that frees everything returns start to its initial value |
| SharedRuns.Quiescent | include/shmem/ShmemMap.hpp:44-59 | when all calls have returned, both semaphores are free and memory is one node per key, what callers hold and what was lost |
| SharedRuns.NoDeadlock | include/shmem/ShmemMap.hpp:44-59 | as long as a call has not returned some process can step |
| SharedRuns.EveryCallReturns | include/shmem/ShmemMap.hpp:44-59 | under every schedule the calls in progress finish within a bounded number of steps and leave both semaphores free |
| Solo.SoloAllocate | include/shmem/ShmemAllocator.hpp:36-46 | a process alone gets from allocate what a sequential allocator gives, with the semaphore free again |
| Solo.SoloDeallocate | include/shmem/ShmemAllocator.hpp:49-55 | the same for deallocate |
| Solo.AloneIsMethod | include/shmem/ShmemMap.hpp:44-59 | alone, a call of the machine runs to its end and does to map and memory what the object's method does, bad_alloc exactly for a new key without room, and leaves nothing locked |
| Solo.DoesDetermines | include/shmem/ShmemMap.hpp:44-59 | that contract leaves no choice: reply, nodes and region are determined |
| Shmem.ShmemAllocatorState.constructor | src/shmem/Shmem.cpp:18-22 | the initial region and a free semaphore |
| Shmem.ShmemAllocator.Allocate | include/shmem/ShmemAllocator.hpp:36-46 | waits exactly while the semaphore is taken, changing nothing; else the sequential allocation, and the semaphore released on both exits |
| Shmem.ShmemAllocator.Deallocate | include/shmem/ShmemAllocator.hpp:49-55 | waits exactly while the semaphore is taken; else the sequential deallocation, and the semaphore released |
| Shmem.SemaphoreMutex.Lock | include/shmem/SemaphoreMutex.hpp:30-32 | takes the semaphore, or waits while it is 0 |
| Shmem.SemaphoreMutex.Unlock | include/shmem/SemaphoreMutex.hpp:35-37 | gives it back |
| Shmem.ShmemMap.InsertOrAssign | include/shmem/ShmemMap.hpp:44-47 | waits exactly for a taken mutex, or with a new key for a taken allocator, before anything changes; else the sequential insertion, bad_alloc exactly for a new key without room, all locks released and all other nodes in place |
| Shmem.ShmemMap.Erase | include/shmem/ShmemMap.hpp:50-53 | waits exactly for a taken mutex, or with the node unlinked for a taken allocator; else the sequential erasure, the node's block deallocated exactly when there was one, all locks released |
| Shmem.ShmemMap.At | include/shmem/ShmemMap.hpp:56-59 | waits exactly for a taken mutex; else the value or out_of_range, with nothing changed and the mutex released |
| Shmem.SetUp | include/shmem/ShmemMap.hpp:30-37 | a map can be set up exactly when mutex and container fit |
| Index.UpperBound | src/file/Index.cpp:22 | splits the entries into those not above the key and those above |
| Index.Emplaced | src/file/Index.cpp:9 | adds an entry in order unless its key is there |
| Index.Index.constructor | src/file/Index.cpp:6-16 | the loop builds a sample of every step-th record, and the end entry exactly under the condition of the code |
| Index.Brackets | src/file/Index.cpp:18-27 | below the greatest index key the interval is one block of at most step records, starts at or before the key, and everything behind it has a greater key |
| Index.LowerBound | src/file/DbServer.cpp:55-58 | splits the block into smaller keys and the others |
| Index.LookupExact | src/file/DbServer.cpp:50-63 | the lookup is a linear search of the whole file if and only if the key is below the greatest index key, or above it and absent; and what it does otherwise |
| Index.LookupAllButLast | src/file/Index.cpp:11-15 | if the last key is not divisible by the step, every other key is looked up correctly |
| Index.LastKeyUndefined | src/file/Index.cpp:23-24 | a file on which looking up the last key dereferences the end |
| Index.LastKeyMissed | src/file/Index.cpp:13-15 | a file on which the last record is not found |
| Index.Generate | test/generate.cpp:29-49 | the loop writes the specified records, as many as asked for or as the draws allow |
| Index.EmittedAscending | test/generate.cpp:29-49 | their keys strictly ascend and stay below the next key |
| Index.EmittedExact | test/generate.cpp:35-52 | each draw that emits writes a record with the next key, its digits and the padding |
| Index.KeysLeftOut | test/generate.cpp:35-52 | the keys that the file leaves out are, in number, those skipped |
| Index.GeneratedLookup | test/generate.cpp:29-49 | on whatever the generator writes, every key but the last is looked up correctly, unless the last is divisible by the step |
| DbServer.NamedIsServed | src/file/DbServer.cpp:19-48 | a record below the greatest index key is served to every request that names it: 200, with exactly its data in the JSON body |
| DbServer.CarriesOne | src/file/DbServer.cpp:40-46 | a response carries the data of one record only |
| DbServer.ServesOnlyNamed | src/file/DbServer.cpp:19-72 | on any file a request gets a record's data only if it names it, is undefined exactly if it names the greatest index key, and else gets 404 without a body and Connection: close |
| DbServer.ClientGetsRecord | src/file/DbServer.cpp:19-63 | end to end, through the worker: who asks for a record's key, in any chunks with any pauses and among any other clients, reads back one response that carries that record's data, and does so for certain after as many answers as request and response have bytes |
| Server.Balanced | src/http/Server.cpp:113-134 | after any n accepts up to 2^64 each of k workers has floor(n/k) or ceiling(n/k) of them |
| Server.EachToOne | src/http/Server.cpp:131 | every accepted socket goes to exactly one worker, even when the counter wraps |
| Server.Server.Give | src/http/Server.cpp:131 | one accept goes to the worker whose turn it is, and the counter moves on modulo 2^64 |
| Server.Server.AcceptClient | src/http/Server.cpp:113-134 | decided by the first answer that is not EINTR: a socket is given out once, EAGAIN only returns, any other error throws |

## Left out

- The window at `src/http/ClientState.cpp:55` starts three bytes before the new data, which for fewer than three earlier bytes is before the buffer. The model clamps it at the start.
- Sockets, epoll, mmap, semaphores and accept are oracles or atomic steps. Errors of epoll itself, which throw, are not modelled; errors of read and write are, as exceptions that leave the loop and end the run.
- The peer's input is fixed from the start, and how much of it has arrived is decided by the answers. This covers every timing, but not a peer that chooses its bytes after reading a response.
- The clock never goes back in the model, although `system_clock` may be set.
- formResponse always returns; an exception of the callback, or of an allocation in the server, is not modelled.
- Exhausted answers of a resumption mean EAGAIN, and exhausted answers of accept4 mean EAGAIN.
- The event loop calls addClient between two epoll_wait calls only; in the scheduler model a socket may be accepted between any two events.
- Coroutine contexts, stacks and swapcontext failures, coroutines that create or resume others, and yield outside of a coroutine. A suspended stack is the locals of the loop that yielded.
- Worker.Worker.Run: the rounds of epoll_wait are a finite script, and stop() is called when it ends.
- The objects of Shmem tell that a call waits, and where; how it goes on when another process posts is in SharedMemory.
- Allocation sizes are at least 1, sizeof(T) * n does not overflow, and callers free only blocks they hold, with their size. Alignment is not kept by the code and not claimed.
- Keys and values of the shared map are integers and stand for types whose copying and assignment cannot fail. Unlocked iteration, the destructors and Shmem::destroy, starvation and processes that die while holding a semaphore are not modelled.
- Comparison of header names folds ASCII letters only, as tolower does in the C locale.
- DbServer.ServesOnlyNamed: what operator>> makes of a parameter's value is a parameter of the model, because it does not throw by default and malformed values read as numbers.
- The server's main loop, threads, address setup and logging; the tcp, process and logger directories. Nothing there goes beyond calling the parts that are modelled.
- The randomness and termination of the generator, and the random letters of a payload.
- Percent-decoding, transfer encodings and default persistence of HTTP/1.1, which the code does not do.
