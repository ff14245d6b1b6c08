# Cox: a verified model

Cox is a C++ reactor and HTTP library. This project models the state machines that sit
above its system calls and proves what they promise, for every input, every interleaving
or every reachable state. It needs Dafny 4.11 and nothing else:

    dafny verify dfyconfig.toml

## What is modelled

**The HTTP/1.1 message layer.** `Incremental` is a theory of resumable parsers: if the
loop body of a parser is stable under more input, the parser does not depend on how its
bytes were cut into reads. `RequestParser` and `ResponseParser` are the two parsers as
such steps, `RequestHead` and `ResponseHead` say which heads they accept, `RequestWire` and
`ResponseWire` are the printers and their round trips, and `HttpServer` is the pipelining
loop on top. `ByteBuffer`, `HttpContextObject`,
`ResponseParserObject` and `HttpObjects` are the same code as it is written, objects
updated in place, proved equal to those functions. `Url` and `Router` cover
percent-encoding, query strings and path patterns.

**The connection pool.** `ConnectionPool` is the plaintext pool as a scheduler driven by
events, whose user callbacks may submit further requests; `PoolEvents` says what each event
does to requests and connections; `ConnectionPoolObject` is the pool object over connection objects that hold their own callback and flags.

**Reactor and threads.** `TimerQueue` (with `TimerLife`, the life of one timer, and
`TimerQueueObject`), `EventLoop`, `ThreadPool` and `AsyncSink` are state machines. One step is what one thread does while it holds the
mutex, or one callback, task or line outside it. Condition variables have explicit
un-notified and woken threads, and wakeups may be spurious.

**Byte streams and files.** `TcpOutput` (with `TcpConnectionObject`) is the output side of
a connection under any pattern of partial and failed writes, on the array of a
`ByteBuffer`; `RotatingFileSink` is the rotating log.

Where there is an object, its methods carry the invariant in their contracts, and a
`Replay` (or `WriteLog`) method drives it through an arbitrary history of events.

Conventions: a byte is a `char` below 256; sizes are unbounded naturals except where
`strtoul` saturates at 2^64 - 1 (`Text.Strtoul`) or a clock difference is unsigned
(`ConnectionPoolObject.PooledConn.IdleMillis`); a `std::map` is walked in an arbitrary order, given as
a parameter, so theorems hold for the ascending one; results of system calls, the clock,
the handler and user callbacks are parameters. `Elements` and `Text` are helpers.

## Where the code differs from what is said about it

The model follows the code. Each difference below has a theorem with its exact condition.

- docs/user-guide.md:299 promises keep-alive with chunked bodies. A parse of a chunked
  message stops after the zero size line and leaves the last CR LF, which the next parse
  refuses: the client gets a second response, 400, and the connection closes.
  `HttpServer.KeepAliveIffNoChunked`: keep-alive survives if and only if no message is
  chunked.
- http/http_context.h:42-45 promises the kind `kBadRequest` for malformed requests; the
  parser never assigns it. `RequestParser.FailureKinds`: a parse fails if and only if the
  stream is malformed or exceeds the cap, and it reports `kTooLarge` exactly in the second
  case and `kNone` otherwise.
- logging/async_sink.h:39 bounds the lines held across both buffers. The bound covers the
  producers' buffer only: twice the bound is reached (`AsyncSink.TwiceTheBound`) and never
  exceeded (`AsyncSink.SinkTheorem`).
- logging/async_sink.h:53-54 says `flush` waits until everything queued has been handed on.
  It waits for the shared buffers, which are empty while a batch is being written.
  `AsyncSink.FlushPromiseIff`: the promise is kept in every run if and only if nothing was
  undelivered at the call; `AsyncSink.FlushReturnsEarly` is a call that breaks it, and
  `AsyncSink.FlushGuarantee` is what a return does mean.
- The high-water callback of a connection runs before the rest of the data is queued. A
  `send` from it overtakes that rest (`TcpOutput.HighWaterSendOvertakes`), and a `shutdown`
  from it is safe if and only if output was already queued
  (`TcpOutput.HighWaterShutdownSafeIff`).
- The loop thread's own posts may get no wakeup (reactor/event_loop.cc:153-159).
  `EventLoop.LocalPostSleepsIff`: a post can be slept on if and only if it is made before
  `loop` or from `doPendingTasks`, the loop is not quitting and no wakeup is coming anyway;
  `EventLoop.EarlyPostSleeps` and `EventLoop.DrainPostSleeps` are such runs. Tasks of other
  threads are never slept on (`EventLoop.NoLostWakeup`).
- The pool relies on its connections. A close is safe if and only if the connection is not
  still connecting (`ConnectionPool.CloseIsSafeIff`). Nothing checks that a response was
  asked for: `ConnectionPool.ResponseIsSafeIff` says exactly when one keeps the rules, and
  `ConnectionPool.UnsolicitedResponseDuplicates` is a run in which one lists its connection
  as idle twice.

## Model

| member | source | states |
|---|---|---|
| Incremental.RunSplit | http/http_context.cc:58-188 | for any parser whose step is stable under more input, parsing a prefix and then the rest agrees with parsing all of it at once |
| Incremental.FeedIsRun | http/http_context.cc:58-188 | and so does any way of cutting the stream into reads |
| RequestParser.StepIsResumable | http/http_context.cc:60-186 | every branch of the request parser's loop is stable under more input, and consumes at least one byte when it progresses |
| RequestParser.SegmentationIndependence | http/http_context.cc:58-188 | for every stream and every cut into reads: same state, same request and same unread rest as in one read; a failing parse fails either way with the same error |
| RequestParser.ParseBody | http/http_context.cc:131-143 | a declared body that has arrived completes the request with exactly those bytes and leaves what follows |
| RequestParser.ChunkedDecodes | http/http_context.cc:144-184 | any list of nonempty chunks, with or without extensions, decodes to the concatenation of their data, consuming exactly through the zero size line |
| RequestParser.CapIsExactInPieces | http/http_context.cc:97-104 | whatever the cut into reads: with a cap the body never exceeds it, also when the parse fails, and `kTooLarge` is reported if and only if the same stream parsed without a cap declares or delivers more; otherwise the cap changes nothing |
| RequestParser.FailureKinds | http/http_context.cc:58-188 | the parse of a new request, cut in any way, fails exactly when the stream is malformed or exceeds the cap, and reports `kTooLarge` exactly in the second case, never `kBadRequest` |
| RequestHead.AcceptedIff | http/http_context.cc:25-56 | a request line is accepted if and only if it is a known method, a target without spaces and HTTP/1.0 or HTTP/1.1, with one space between them |
| RequestHead.HeadPassesIff | http/http_context.cc:63-130 | the lines of a head pass if and only if the request line has that form, every header line holds a colon and the head is within 64 KiB; otherwise the parse fails at once as malformed, whatever follows |
| RequestHead.MalformedIff | http/http_context.cc:58-188 | a request with a complete head fails as malformed if and only if one of these is violated, for every body: past the head a request can only be too large |
| RequestHead.BodilessRequest | http/http_context.cc:91-107 | a request whose headers name neither a length nor an encoding is complete at its blank line, with an empty body, and leaves what follows |
| RequestHead.LastHeaderCounts | http/http_context.cc:115-121 | of several header lines with the same name in any case the last one counts |
| HttpMessage.HeaderRoundTrip | http/http_context.cc:110-121 | a printed header line without CR LF and leading spaces in its value is split into the same name and value |
| HttpMessage.SpacesDropped | http/http_context.cc:110-121 | any number of spaces between the colon and the value is dropped |
| HttpMessage.KeepAliveIff | http/http_request.cc:102-111 | an HTTP/1.1 request is kept alive unless its Connection header says close, an HTTP/1.0 one only if it says keep-alive, in any case |
| HttpMessage.CanonicalChunk | http/http_context.cc:147-154 | a size printed in hex, with or without an extension, frames a chunk that the parser accepts |
| RequestWire.MethodRoundTrip | http/http_request.cc:9-54 | reading a method name undoes printing it, for every method |
| RequestWire.RequestLineRoundTrip | http/http_request.cc:124-134 | the printed request line parses to the same method, path, query and version, with "/" for an empty path |
| RequestWire.RequestRoundTrip | http/http_request.cc:124-158 | for every well-formed request, header order and following bytes: printing and parsing give the request back, with the Host line and the true length, and leave the following bytes unread |
| RequestWire.CanonicalRequestUnchanged | http/http_request.cc:124-158 | a request that already names its path, host and length arrives unchanged |
| RequestWire.ChunkedRequestLeavesCrlf | http/http_context.cc:144-156 | a chunked request delivers its payload but leaves the final CR LF in the buffer |
| ResponseParser.StepIsResumable | http/response_parser.cc:57-177 | every branch of the response parser's loop is stable under more input and consumes when it progresses |
| ResponseParser.SegmentationIndependence | http/response_parser.cc:55-179 | the parsed response does not depend on how its bytes were cut into reads |
| ResponseParser.ChunkedDecodes | http/response_parser.cc:142-176 | chunks decode to the concatenation of their data; nothing past the zero size line is consumed (for whole responses, `ResponseWire.ChunkedResponse`) |
| ResponseParser.EofBody | http/response_parser.cc:134-141 | a body without framing is exactly what arrives before the connection closes (for whole responses, `ResponseWire.UnframedResponse`) |
| ResponseParser.NoEarlyEnd | http/response_parser.cc:181-186 | if a response takes all of its bytes, a connection that closes before the last of them leaves it incomplete: it is never delivered cut short |
| ResponseHead.AcceptedIff | http/response_parser.cc:30-53 | a status line is accepted if and only if it is HTTP/1.0 or HTTP/1.1, a code from 100 to 599 and perhaps a reason |
| ResponseHead.MalformedIff | http/response_parser.cc:55-179 | a response with a complete head fails if and only if its status line does not have that form, a header line lacks its colon or the header lines exceed 64 KiB, for every body |
| ResponseWire.StatusLineRoundTrip | http/response_parser.cc:30-53 | for codes 100 to 599 and CR LF free reasons, the printed status line parses to the same code and reason |
| ResponseWire.ResponseRoundTrip | http/http_response.cc:49-85 | for every well-formed response: printing and parsing give the same code, reason and body, and the headers plus Content-Length and Connection, and leave what follows |
| ResponseWire.ResponseRoundTripInPieces | http/http_response.cc:49-85 | and so under any cut of the printed bytes into reads |
| ResponseWire.ChunkedResponse | http/response_parser.cc:77-80 | from the first byte: a status line, any printable headers that declare a chunked Transfer-Encoding, whatever the case of the name and also beside a Content-Length, any chunks and a zero size line give a complete response with the data of the chunks as its body, and the rest is left |
| ResponseWire.SizedResponse | http/response_parser.cc:81-83 | likewise a declared length, whatever the case of its name, gives exactly that many bytes of body |
| ResponseWire.UnframedResponse | http/response_parser.cc:84-88 | with neither of them nothing is delivered until the peer closes, and then everything after the head is the body |
| HttpServer.ProcessSplit | http/http_server.cc:118-201 | two calls of `processInput` with parts of the input do what one call with all of it does: same requests seen, same responses sent, same closing |
| HttpServer.ServeIsProcess | http/http_server.cc:118-201 | a stream that does not close the connection is served the same way however it is cut into reads |
| HttpServer.AnswerConveys | http/http_server.cc:159-179 | a client that parses the answer to a request gets the code, reason, body and headers that the handler replied, nothing is left, and the Connection header says whether the request was kept alive |
| HttpServer.RefusalConveys | http/http_server.cc:137-157 | a client that parses a refusal gets 413 for a body over the cap and 400 otherwise, no body, and Connection: close |
| HttpServer.ProcessAnswers | http/http_server.cc:118-201 | for every input: the i-th answer is the handler's response to the i-th request, given the requests before it, as a client parses it; a refused request gets a refusal last; and the connection is closed if and only if the last answer says close |
| HttpServer.ServeLast | http/http_server.cc:181-185 | a message that asks to close is seen and answered with Connection: close, and nothing after it is read |
| HttpServer.ServeOne | http/http_server.cc:148-200 | a well-formed keep-alive message at the front is handed to the handler as it was sent and answered once, then the rest is served; what the answer holds is `HttpServer.AnswerConveys` |
| HttpServer.KeepAliveIffNoChunked | http/http_server.cc:159-200 | for every list of keep-alive messages: served in order, answered in order (with the contents of `HttpServer.ProcessAnswers`); the connection survives with no byte left if and only if none is chunked, otherwise it ends with a 400 right after the first chunked one |
| HttpServer.LeadingCrlfRefused | http/http_server.cc:148-157 | input that starts with an empty line is answered by what a client parses as 400 with Connection: close, and closed, whatever follows |
| HttpServer.PipelineInPieces | http/http_server.cc:118-201 | end to end: any list of well-formed requests printed by `appendTo`, concatenated and cut into reads in any way, reaches a handler, which may keep state, exactly and in order; each is answered once and in order, a client that parses an answer gets the handler's response to that request, and nothing is left over |
| HttpContextObject.HttpContext.ParseRequest | http/http_context.cc:58-188 | the parser object over the buffer object ends in the state, request and unread bytes of the specification, and returns whether it failed |
| HttpContextObject.HttpContext.ParseOnce | http/http_context.cc:60-186 | one turn of the loop keeps the outcome of the parse, and a turn that progresses consumes a byte, so the loop ends |
| HttpContextObject.HttpContext.TakeChunkData | http/http_context.cc:157-177 | the chunk-data branch takes what there is, or refuses what would exceed the cap |
| HttpContextObject.HttpContext.FinishHeaders | http/http_context.cc:81-107 | the end of the headers chooses chunked, sized or empty body, or refuses a declared length above the cap |
| HttpContextObject.HttpContext.Reset | http/http_context.cc:190-199 | reset gives a parser for a new request with the same cap |
| ResponseParserObject.ResponseParser.Parse | http/response_parser.cc:55-179 | the response parser object computes the specified parse on the buffer object |
| ResponseParserObject.ResponseParser.OnEof | http/response_parser.cc:181-186 | closing completes a body that runs to the end of the stream |
| ResponseParserObject.ResponseParser.Reset | http/response_parser.cc:188-198 | reset gives a parser for a new response |
| HttpObjects.AppendRequest | http/http_request.cc:124-158 | the request printer appends exactly the specified bytes, in some walk of the header map |
| HttpObjects.AppendResponse | http/http_response.cc:49-85 | the response printer appends exactly the specified bytes, for any walk of the header map |
| HttpObjects.ServeNext | http/http_server.cc:159-199 | one turn of the loop hands over the complete request, prints the response through a buffer so that a client parses the handler's response from it, resets, and closes or parses on, as specified; the loop ends |
| HttpObjects.ProcessInput | http/http_server.cc:118-201 | the loop over parser and buffer objects sees, sends and closes exactly as specified, every answer being what `HttpServer.ProcessAnswers` says, and does nothing for an unknown connection |
| ByteBuffer.Buffer.Append | buffer/buffer.h:69-82 | appending extends the queue of bytes at its end, whatever moves or grows underneath |
| ByteBuffer.Buffer.Retrieve | buffer/buffer.h:42-54 | retrieving removes exactly the first bytes of the queue |
| ByteBuffer.Buffer.RetrieveAsString | buffer/buffer.h:61-66 | and hands them over |
| ByteBuffer.Buffer.MakeSpace | buffer/buffer.h:101-113 | compacting and growing keep the content, make the room asked for, and keep the capacity within twice the peak |
| ByteBuffer.Buffer.ReadFd | buffer/buffer.cc:9-37 | the two-part read appends what was read, in order, or nothing on error |
| ByteBuffer.Buffer.FindCrlf | http/http_context.cc:13-22 | finds the first CR LF of the content, if there is one |
| ByteBuffer.Replay | buffer/buffer.h:42-113 | in every run of append, retrieve and read the array implements a plain byte queue, and its capacity stays within max(8 + initial, 2 * peak content + 8) |
| Url.UrlEncode | http/url.cc:52-67 | the encoding loop computes the encoding that the laws below are about |
| Url.UrlDecode | http/url.cc:28-50 | the decoding loop likewise, malformed escapes kept literally |
| Url.ParseQueryString | http/url.cc:69-95 | the query loop cuts the query at '&' and '=' as specified |
| Url.DecodeEncode | http/url.cc:28-67 | decoding undoes encoding for every byte string, whichever way '+' is read |
| Url.EncodedIsPlain | http/url.cc:52-67 | encoded text contains no '&', '=' or '/' |
| Url.EncodeKeepsIff | http/url.cc:23-67 | encoding leaves a text alone if and only if it consists of the unreserved characters of section 2.3 of RFC 3986 |
| Url.DecodeFirst | http/url.cc:28-50 | hex digits of either case make an escape; a percent sign without two of them is kept, and so is everything else except that a plus sign may mean a space |
| Url.BareKey | http/url.cc:78-84 | a piece that is only a key has an empty value, and an empty piece adds nothing |
| Url.QueryRoundTrip | http/url.cc:69-95 | any list of pairs, encoded and joined, parses to the last value of every nonempty key |
| Router.SplitPath | http/router.cc:9-25 | the splitting loop yields the nonempty segments |
| Router.SplitPathOf | http/router.cc:9-25 | splitting undoes joining with slashes |
| Router.SplitCoversPath | http/router.cc:9-25 | for every path: the segments are nonempty and without slashes, and joined they are the path without its slashes |
| Router.AddRoute | http/router.cc:27-43 | a pattern is registered at the end as its literal and named segments |
| Router.MatchRoute | http/router.cc:45-64 | the matching loop captures as specified, or fails on a length or literal mismatch |
| Router.MatchesIff | http/router.cc:45-64 | a route matches a path if and only if it has as many pieces as the path has segments and its literal pieces are equal to theirs |
| Router.RouteRoundTrip | http/router.cc:9-64 | a path made by encoding nonempty values into a pattern is matched by that pattern and captures exactly those values |
| Router.RouteRequest | http/router.cc:66-91 | the first route that matches path and method handles the request; otherwise 405 if some route matches the path and 404 if none does |
| ConnectionPool.PoolTheorem | http/connection_pool.cc:75-465 | in every run: idle, busy and connecting are duplicate-free and disjoint, the connecting ones are exactly those with a pending request, the total is within the cap, a request queues only if nothing is idle and the cap is reached, requests reach connections in submission order, and each is in exactly one place |
| ConnectionPool.OnePlace | http/connection_pool.cc:296-465 | a submitted request is found in the lookup's line, the queue, with one connecting connection, in flight on one connection, or its callback has run, and the last exactly once |
| ConnectionPool.NothingLost | http/connection_pool.cc:296-465 | once no connection works and no lookup is awaited, every submitted request has had its callback |
| ConnectionPool.StepTells | http/connection_pool.cc:186-219 | an event runs exactly the callbacks it should, once each, in order, with the right ending: delivered, delivered at end of stream, malformed, closed early or lookup failed |
| ConnectionPool.SubmitKeeps | http/connection_pool.cc:296-305 | a submission, also from inside a callback, keeps every rule of the pool |
| ConnectionPool.DispatchKeeps | http/connection_pool.cc:360-383 | handing a request on, by reuse, opening or queueing, keeps every rule: a new request does not overtake a queued one |
| ConnectionPool.OnReadyKeeps | http/connection_pool.cc:419-431 | a connection that becomes ready keeps every rule |
| ConnectionPool.OnFreeKeeps | http/connection_pool.cc:433-445 | freeing a connection, for the head of the queue or as idle, keeps every rule |
| ConnectionPool.OnClosedKeeps | http/connection_pool.cc:447-465 | a close, even of a connection closed before, keeps every rule of the pool; what it does is `PoolEvents.ClosedIsGone` and `PoolEvents.ClosedKeepsOthers` |
| ConnectionPool.OnResponseKeeps | http/connection_pool.cc:196-219 | a response frees its connection before the callback runs, and the callback may submit anything |
| ConnectionPool.OnMalformedKeeps | http/connection_pool.cc:187-194 | a malformed response completes the request and leaves the connection to its close |
| ConnectionPool.OnDisconnectKeeps | http/connection_pool.cc:147-168 | a close completes the unanswered request first, and its callback may submit anything |
| ConnectionPool.OnResolvedKeeps | http/connection_pool.cc:331-357 | a finished lookup dispatches the parked requests in order, or fails them all and allows a later retry |
| ConnectionPool.OnEvictKeeps | http/connection_pool.cc:467-484 | eviction keeps every rule |
| PoolEvents.ClosedIsGone | http/connection_pool.cc:447-465 | after a close the connection is idle, busy, connecting and pending nowhere and holds no callback, whatever the callback it ran submitted |
| PoolEvents.ClosedKeepsOthers | http/connection_pool.cc:447-465 | every other connection stays in its list, in order, apart from the submissions of that callback and one new connection for the head of the queue, opened if and only if the closed one was listed and a request waited |
| PoolEvents.GoneForGood | http/connection_pool.cc:75-484 | over every later run a closed connection never comes back and no request is ever pending or in flight on it again |
| PoolEvents.RequestGoes | http/connection_pool.cc:296-383 | a new request goes to the connection that became idle last, to a new connection below the cap or to the back of the queue, or is parked before the name is resolved, and no other request moves |
| PoolEvents.ReadyStarts | http/connection_pool.cc:419-431 | a connection that is ready starts exactly the request that was pending on it and joins the busy ones |
| PoolEvents.ResponseFrees | http/connection_pool.cc:195-219 | a response ends its request; a connection kept alive is then idle or carries the head of the queue or a request of the callback, and one that is not carries nothing until it closes |
| PoolEvents.MalformedWaitsForClose | http/connection_pool.cc:187-194 | after bytes that do not parse the connection stays busy and carries nothing until it closes |
| PoolEvents.ResolvedUnparks | http/connection_pool.cc:331-357 | the answer to a lookup is remembered if and only if it succeeded, and nothing that was parked stays parked: it is dispatched, or its callback has run |
| PoolEvents.EvictTakes | http/connection_pool.cc:467-484 | eviction takes exactly the stale connections off the idle list and touches nothing else |
| PoolEvents.StepCounts | http/connection_pool.cc:296-305 | every submission, by the user or from a callback, gets its number, in every event |
| PoolEvents.FirstComeFirstServed | http/connection_pool.cc:360-465 | in every run, while a request still waits in the queue or for the lookup, no later one is with a connection |
| ConnectionPool.CloseIsSafeIff | http/connection_pool.cc:447-465 | a close keeps the rules if and only if the connection is not still connecting |
| ConnectionPool.ResponseIsSafeIff | http/connection_pool.cc:195-215 | a complete response keeps the rules if and only if its connection has a request in flight, or is to be closed, or is still listed as busy, or is an unlisted one for which there is room and nothing waits |
| ConnectionPoolObject.RemoveFrom | http/connection_pool.cc:410-417 | erases the first match of the object, and no other connection |
| ConnectionPoolObject.PoolImpl.Request | http/connection_pool.cc:296-305 | a request on the objects keeps the rules of the pool, reusing, opening, queueing or parking as in the model; connections are only added |
| ConnectionPoolObject.PoolImpl.Ready | http/connection_pool.cc:419-431 | an established connection object takes its pending request, and the rules are kept |
| ConnectionPoolObject.PoolImpl.Consume | http/connection_pool.cc:186-219 | a complete or malformed response on any known connection object, solicited or not, has the effect of the model, callback included, and keeps the rules exactly when that is possible |
| ConnectionPoolObject.PoolImpl.Disconnected | http/connection_pool.cc:147-168 | a lost connection object completes its request first; the rules are kept exactly when it was not still connecting, and then the pool holds no reference to it and it holds no callback |
| ConnectionPoolObject.PoolImpl.LookedUp | http/connection_pool.cc:331-357 | the loops over parked requests dispatch or fail them as in the model, and keep the rules |
| ConnectionPoolObject.PoolImpl.EvictIdle | http/connection_pool.cc:467-484 | picking the connections idle for too long and removing them one by one keeps exactly the others, in order, and the rules |
| ConnectionPoolObject.LateIff | http/connection_pool.cc:470-476 | a connection is late if and only if the unsigned difference of the clocks exceeds the timeout by a whole millisecond; a clock set back makes it late |
| ConnectionPoolObject.Replay | http/connection_pool.cc:75-484 | every history of the objects: callbacks, flags, lists and pending requests stand for the modelled pool after the same events, so every rule holds of them |
| TimerQueue.TimerTheorem | reactor/timer_queue.cc:79-168 | in every run with callbacks that add and cancel: no timer runs before its expiration, a timer runs again only if it repeats and a whole interval has passed, a cancelled timer never runs or is queued again, a batch runs in order of expiration, whatever had its turn ran unless cancelled, the index of sequence numbers is exact, and outside `handleRead` the timerfd fires no later than the earliest expiration, or a microsecond after arming if that was due |
| TimerLife.AddQueues | reactor/timer_queue.cc:79-89 | adding queues exactly one timer, with the expiration and interval asked for and a number that no live timer and nothing in the history has; nothing else changes |
| TimerLife.AddedIsKept | reactor/timer_queue.cc:79-168 | over every later run in which it is not cancelled: a timer added with an interval is queued or being fired in every state, and a one-shot is queued with its expiration until it has run |
| TimerLife.CancelRemoves | reactor/timer_queue.cc:91-105 | cancelling takes exactly that timer off the queue, or marks it in the batch being fired |
| TimerLife.CancelIsFinal | reactor/timer_queue.cc:91-168 | over every later run a cancelled timer is never queued and never runs again |
| TimerLife.ArmedExactly | reactor/timer_queue.cc:25-58 | the timerfd is set for the earliest expiration, or for a microsecond ahead if that has passed, and not earlier |
| TimerLife.TiesStayInOrder | reactor/timer_queue.cc:107-116 | in every run timers with the same expiration are queued in the order of their addresses |
| TimerQueue.BeginKeeps | reactor/timer_queue.cc:118-130 | a batch takes exactly the timers that are due |
| TimerQueue.ResetAllRearms | reactor/timer_queue.cc:132-148 | every repeating timer of a batch that was not cancelled is queued again one interval after the batch, and queued timers stay |
| TimerQueue.CancelKeeps | reactor/timer_queue.cc:91-105 | cancelling a live timer, queued or in the batch being fired, keeps every rule |
| TimerQueue.InsertOrdered | reactor/timer_queue.cc:107-116 | insertion keeps the order, and the head changes exactly when the new timer is earlier |
| TimerQueueObject.HandleReadKeeps | reactor/timer_queue.cc:150-168 | a whole expiry, with callbacks that add and cancel, keeps every rule and leaves the timerfd armed in time |
| TimerQueueObject.ExpiryRunsDue | reactor/timer_queue.cc:150-168 | in an expiry every timer that was due runs, unless it has been cancelled |
| TimerQueueObject.Timers.AddTimer | reactor/timer_queue.cc:79-89 | adding, also from a callback, keeps every rule; the set of queued timers gains exactly one, with an unused number, this expiration and this interval, and the timerfd is set if it is the earliest |
| TimerQueueObject.Timers.InsertTimer | reactor/timer_queue.cc:107-116 | inserts in order and reports whether the head changed |
| TimerQueueObject.Timers.CancelTimer | reactor/timer_queue.cc:91-105 | cancelling a live timer, also from a callback, keeps every rule; exactly that timer leaves the set, and it will not run |
| TimerQueueObject.Timers.GetExpired | reactor/timer_queue.cc:118-130 | splits the set at the due timers |
| TimerQueueObject.Timers.Reset | reactor/timer_queue.cc:132-148 | re-arms, frees and sets the timerfd as specified |
| TimerQueueObject.Timers.HandleRead | reactor/timer_queue.cc:150-168 | one expiry with its callbacks is the specified sequence of steps, runs every timer that was due unless it has been cancelled, keeps every rule and leaves the timerfd armed in time |
| TimerQueueObject.Replay | reactor/timer_queue.cc:79-168 | every history of the object has a log as promised, an exact index and a timerfd armed in time |
| ThreadPool.PoolTheorem | concurrent/thread_pool.cc:27-138 | in every interleaving with spurious wakeups, with any number of workers: an un-notified blocked producer faces a full queue, a nonempty queue has a worker that is not in an un-notified wait, a bounded queue keeps its bound, tasks are taken in order, and every accepted task is queued, in one batch or has run, once |
| ThreadPool.DrainedWhenStopped | concurrent/thread_pool.cc:27-46 | when `stop` has returned, and ever after, every accepted task has run exactly once |
| ThreadPool.AfterStopTasksRunInline | concurrent/thread_pool.cc:42-56 | after `stop` has returned nothing is queued: new calls, tryRun included, run their task at once, and a call that had seen workers is dropped |
| ThreadPool.Progress | concurrent/thread_pool.cc:52-122 | no deadlock: with a task queued or a producer blocked some worker can step, and after `stop` has notified every worker that has not returned can |
| ThreadPool.StoppedPoolDrains | concurrent/thread_pool.cc:87-138 | while `stop` is at work nothing more is accepted and every step of a worker brings the end nearer |
| ThreadPool.BatchBounds | concurrent/thread_pool.cc:101-109 | a batch has at least one task, at most the batch size, and at most the queue divided by the workers, rounded up |
| ThreadPool.TakeTasks | concurrent/thread_pool.cc:112-115 | the loop moves exactly the first tasks, in order |
| ThreadPool.CallsEndWell | concurrent/thread_pool.cc:52-85 | a pending call keeps its task until that is accepted; `run` gives it up only to a stopping pool, tryRun also to a full queue |
| ThreadPool.CallStarts | concurrent/thread_pool.cc:52-85 | a call is recorded with its own task and disturbs no other |
| ThreadPool.RunAccepts | concurrent/thread_pool.cc:52-65 | `run`, having seen workers, is accepted as the newest of the queue if the pool runs and has room, blocks if it runs and is full, and is dropped by a stopping pool |
| ThreadPool.FetchTakes | concurrent/thread_pool.cc:87-122 | a worker takes the next tasks in order, at least one and at most its share, or waits, or returns from a stopping pool with nothing queued; if the queue was full no producer stays blocked |
| ThreadPool.ExecuteRuns | concurrent/thread_pool.cc:124-138 | a worker runs its batch in order and then looks at the queue again |
| ThreadPool.StopReturns | concurrent/thread_pool.cc:27-46 | from every reachable state `stop` can run to its end, and then exactly the accepted tasks have run |
| ThreadPool.TryRunSheds | concurrent/thread_pool.cc:67-85 | tryRun, having seen workers, refuses exactly when the pool is stopping or its queue is at the limit |
| EventLoop.HandoffTheorem | reactor/event_loop.cc:104-160 | in every interleaving executed, draining and pending tasks are, in order, exactly the tasks that the posting calls of the run handed over, with no loss or duplicate |
| EventLoop.TurnRunsAll | reactor/event_loop.cc:109-133 | a turn left to itself runs every task posted before it, leaves the eventfd unreadable so that the next poll sleeps, and ends the loop if it was asked to |
| EventLoop.NoLostWakeup | reactor/event_loop.cc:147-160 | a loop in poll with a task of another thread pending has a readable eventfd or that thread is about to write it; without any wakeup coming, every pending task was posted by the loop thread outside a dispatch |
| EventLoop.LocalPostSleepsIff | reactor/event_loop.cc:104-160 | a task the loop thread posts can be slept on if and only if it is posted before `loop` or from `doPendingTasks`, the loop is not quitting and no wakeup is coming; never when posted while channels are handled |
| EventLoop.EarlyPostSleeps | reactor/event_loop.cc:104-113 | a run in which the loop sleeps on a task posted before `loop` |
| EventLoop.DrainPostSleeps | reactor/event_loop.cc:282-301 | a run in which the loop sleeps on a task posted by a task |
| TcpOutput.OutputTheorem | net/tcp_connection.cc:193-344 | for every sequence of calls and events, system-call results and write-complete callbacks, where a high-water callback that runs does nothing or closes the connection: wire and buffer together are, at every moment and in order, the data of every send that found the connection connected and of every one delivered from another thread that found it not closed, callbacks included; write interest is on exactly when the buffer is nonempty, the byte counter is exact, the watchdog is armed exactly when a connected peer is backed up, and a half-close finds everything written |
| TcpOutput.AllTaken | net/tcp_connection.cc:252-323 | everything handed over is taken in the order of the calls, and nothing else, whatever the callbacks do |
| TcpOutput.SendWrites | net/tcp_connection.cc:280-297 | a send with nothing queued puts on the wire at once what the socket takes |
| TcpOutput.WritableWrites | net/tcp_connection.cc:193-203 | a writable socket is given the front of the queue |
| TcpOutput.ShutdownHalfCloses | net/tcp_connection.cc:329-344 | a shutdown closes for writing at once if and only if nothing is queued, and loses no byte; from another thread its two parts do the same |
| TcpOutput.ClosesEnd | net/tcp_connection.cc:220-239 | a forced close, a close by the peer and an armed watchdog end the connection, and a watchdog that is not armed does nothing |
| TcpOutput.SilentPerform | net/tcp_connection.cc:337-344 | nothing reaches the wire after the half-close |
| TcpOutput.DrainCompletesShutdown | net/tcp_connection.cc:203-214 | a half-close asked for while output was queued happens when the last byte is written |
| TcpOutput.HighWaterSendOvertakes | net/tcp_connection.cc:303-316 | the exact stream when the high-water callback sends; it is in order if and only if the two parts commute |
| TcpOutput.HighWaterShutdownSafeIff | net/tcp_connection.cc:303-316 | a shutdown from the high-water callback is safe if and only if output was already queued |
| TcpConnectionObject.TcpConnection.DoSendInLoop | net/tcp_connection.cc:271-323 | sending on the array buffer, callbacks included, writes and queues exactly the bytes of the model |
| TcpConnectionObject.TcpConnection.WriteQueued | net/tcp_connection.cc:198-203 | what the socket takes is removed from the front of the array buffer and nothing else is |
| TcpConnectionObject.TcpConnection.DoHandleWrite | net/tcp_connection.cc:193-218 | draining the array buffer, callback and pending half-close included, is the step of the model |
| TcpConnectionObject.TcpConnection.OnEvent | net/tcp_connection.cc:193-359 | every call and event on the object keeps the stream: what is on the wire and in the array grows by exactly the data this event hands over, callbacks included, in order |
| TcpConnectionObject.Replay | net/tcp_connection.cc:193-359 | in every history from the establishment of the connection, what is on the wire and in the array is the data handed over, in order |
| AsyncSink.SinkTheorem | logging/async_sink.cc:21-138 | in every interleaving: delivered lines, the rest of the batch and the buffer are the accepted lines in order; accepted plus dropped is appended; no more drops are announced than happened; the buffer keeps its bound and at most twice the bound is held |
| AsyncSink.StopLosesNothing | logging/async_sink.cc:55-84 | after `stop` everything accepted has been delivered, in order |
| AsyncSink.StopReturns | logging/async_sink.cc:55-84 | from every reachable state `stop` can run to its end, and then everything accepted before it has been delivered |
| AsyncSink.WriterCatchesUp | logging/async_sink.cc:86-138 | from every state of a running sink the writer, left to itself, delivers every line accepted so far and announces every drop |
| AsyncSink.StoppedWriterEnds | logging/async_sink.cc:86-138 | after the flag is cleared the writer always has a step to take until it exits, and each one brings the end nearer |
| AsyncSink.DropsOnlyWhenFull | logging/async_sink.cc:21-35 | a line is shed exactly when a whole buffer is waiting |
| AsyncSink.TwiceTheBound | logging/async_sink.cc:27-31 | for every bound there is a run that holds twice as many lines |
| AsyncSink.FlushPromiseIff | logging/async_sink.cc:37-53 | a call of `flush` returns only after everything accepted before it was delivered, in every run, if and only if nothing was undelivered at the call |
| AsyncSink.FlushGuarantee | logging/async_sink.cc:37-53 | when `flush` returns in a running sink, at most the batch last taken is undelivered, and if lines were waiting at the call, everything the writer had taken before it is delivered |
| AsyncSink.FlushReturnsEarly | logging/async_sink.cc:105-119 | a reachable state in which `flush` returns with a line on its way |
| RotatingFileSink.RotationTheorem | logging/sink.cc:87-102 | starting with no files, after any appends the files from oldest to active are a suffix of the lines, at most the configured number of rolled files exist, and each is within the limit or a single line |
| RotatingFileSink.LogIsSuffix | logging/sink.cc:87-102 | the suffix property from any files to begin with |
| RotatingFileSink.NothingLostEarly | logging/sink.cc:136-156 | no line is lost before every rolled name is in use |
| RotatingFileSink.NotRolledEarly | logging/sink.cc:94-98 | a file is rolled only if the next line would not have fitted |
| RotatingFileSink.RotateDropsOldest | logging/sink.cc:136-156 | a rotation loses the oldest file and nothing else |
| RotatingFileSink.DiskBound | logging/sink.cc:72-74 | total disk use is within the number of files times the larger of the limit and the longest line |
| RotatingFileSink.RotatingFile.RotateFiles | logging/sink.cc:136-156 | the renames, one name at a time and over missing files, shift every file by one |
| RotatingFileSink.RotatingFile.AppendLine | logging/sink.cc:87-102 | the line goes to the end of the log, at most the oldest file is lost, and the limits are kept if they were |
| RotatingFileSink.WriteLog | logging/sink.cc:87-156 | every history of the object from no files: a suffix of the lines, all of them until every name is in use, within the limits, no file rolled early |

## Left out

- TLS, OCSP stapling and certificate reloading (tls/): their states are those of OpenSSL, which the source does not show; the pool is modelled for plaintext, where its close events arrive.
- Name resolution with c-ares or `getaddrinfo`: only the outcome of a lookup enters the pool, as an event.
- Sockets, acceptor, connector, pollers and inotify: thin wrappers that hand over system-call results, which are parameters here.
- Formatters and the Prometheus text: they print values in fixed layouts that nothing in the repository reads back.
- Token bucket, backoff, concurrency limiter, latency histogram, round-robin loop choice and SNI lookup: each is one arithmetic update or lookup without a state shared with the parts modelled here.
- Metrics, logging and the request observer of the server: they observe the loop and do not act on it.
- TimerQueue.CancelKeeps: cancels live timers only, since the code dereferences the handle; stale handles are not modelled.
- ConnectionPoolObject.PoolImpl.Ready: a connection becomes ready once, while it is connecting; reconnecting clients are not modelled.
- TcpOutput.OutputTheorem: a high-water callback that sends or shuts down is outside it, because the stream is then not in order; `TcpOutput.HighWaterSendOvertakes` and `TcpOutput.HighWaterShutdownSafeIff` give the exact outcome.
- A connection before it is established, its input side, and its idle and maximum-age timers, apart from their closing it.
- The moment of `start` before all workers of a thread pool exist, and starting a pool again.
- Wall-clock adjustments, 64-bit overflow of time stamps and counters, memory ordering, `shared_ptr` lifetimes and destructors.
- The poll timeout of the event loop: poll may return at any time, which includes it.
- File operations of the rotating sink that fail, and partial lines in files that were there before.
- The order of a `std::map` is not fixed: printers are specified for every order of the headers.
