# Verification of droplet's protocols

This project models the parts of droplet whose correctness does not show in any single function: how HTTP messages are framed on a byte stream, how the workers of the event loop hand work to each other, and how the buffers, timers, codecs and URIs keep their promises over whole sequences of calls. The kernel, the clock, the network and the user's callbacks are nondeterministic inputs.

## How the modules fit together

| files | part of the system |
|---|---|
| `Wrappers`, `Sets`, `Text`, `Lines`, `Numbers`, `HeaderFields`, `HttpMessages`, `Buffers` | shared shapes, sizes of sets, string search, decimal and hexadecimal numbers, the case-insensitive header map, header fields and list-valued headers |
| `RequestParser`, `Session` | the request parser as a function of the bytes seen, the parser object that computes it, and the receive loop over fragments |
| `RequestPrinter`, `RequestRoundTrip` | what `dump` prints, and parsing it again |
| `WrittenRequests`, `WrittenResponses`, `ClosingStreams`, `WrittenUris` | messages and URIs as one writes them, with any fields, and what the parsers make of each of them |
| `ResponseParser`, `ResponseParserObject`, `ResponseFraming`, `ChunkedBody`, `FramingLimits` | the response parser as a function, the parser object, where responses end, the chunked coding, and messages at its limits |
| `ResponsePrinter`, `ResponseRoundTrip`, `Server`, `ServerAnswers`, `ClientConnection` | printed responses in a pipeline, the server's keep-alive loop, its answer to one request, the client's receive loop |
| `IoMachine`, `IoShapes`, `IoPlaces`, `IoCounter`, `IoWakeUp`, `IoDrain`, `IoRuns` | the event loop as a state machine for any number of threads, what its steps leave alone, its invariants, and what follows for every run |
| `IoDelivery`, `IoOutcomes` | what becomes of every accepted entry, reported event and timer |
| `IoBatches`, `IoClash`, `IoAlone`, `IoStop`, `IoHang` | where the event loop falls short, and exactly when: batch posts, coroutines queued twice, and the end of stop() |
| `EventContexts`, `TaskQueue`, `Fibers`, `Timers` | the objects that machine abstracts: descriptor contexts, the scheduler queue, coroutines, the timer set |
| `ConnectionPool`, `PoolWrapAround`, `PoolFates` | the client's connection pool as a state machine, exactly which pools can pass their limit, and what becomes of a connection |
| `Blocks`, `ByteArrays`, `Streams`, `Codec`, `Messages`, `WireFormat`, `MessageStreams` | the chained buffer as one flat buffer, partial transfers, number codecs, typed messages and their bytes |
| `Utf8`, `Uris` | the UTF-8 conversions and the URI parser and printer |

Objects that the source updates in place are classes, and each method is proved against a function of the old state. The two protocols in which several threads interleave are transition systems: one step is one locked section, one atomic operation or one system call, so a run is an arbitrary interleaving of them.

The HTTP rules are those of RFC 9112 (sections 6.3, 7.1 and 9.3.2) and RFC 9110 (section 5.6.2), the UTF-8 grammar is that of RFC 3629 (sections 3 and 4), surrogate pairs follow RFC 2781, URIs follow RFC 3986, and varints are the LEB128 form of section 7.6 of DWARF 5.

## Where the code does less than one might expect

Each of these is proved as an exact condition or by a concrete input.

- A chunk-size line, or a trailer section, that is too long is refused while it is incomplete but accepted once it is complete. So a response that parses whole may fail when it arrives in pieces; `ResponseFraming.PrefixExact` says this happens exactly when some such line or section reaches 65536 bytes, and `FramingLimits.AcceptedOnlyWhole` gives a response and a place to cut it. For the client's receive loop, `ClientConnection.PiecesExact` says for which streams, complete or not, the pieces make no difference.
- `HttpRequest::dump` prints a Content-Length header of the map when the body is empty, and always prints a Transfer-Encoding header of the map. `RequestRoundTrip.RequestRoundTrip` says exactly when the text is still read back, and `FramingLimits.LengthWithoutBody` gives a request for which it is not.
- The server clears the body of a HEAD answer only. A CONNECT answered with 2xx and a body leaves that body in the stream for the next response (`Server.ConnectOutOfStep`, `FramingLimits.ConnectBodyLeftOver`).
- A batch post writes one eventfd token for all its entries. `IoBatches.BatchShort` is a run that ends with two startable entries and one token, and nobody else to start them. `IoBatches.WakeUpForEachTask` bounds what can be missing, `IoBatches.OwnWakeUpExact` says that without pinned entries and coroutines taken twice every startable entry has a wake-up of its own in all runs if and only if batches have at most one entry, and some wake-up always remains (`IoRuns.NoLostTask`).
- `getNextTask` passes over coroutines that run, but gives up the lock before `resume` marks the one it took. A coroutine queued for both directions of a descriptor can be taken by two workers, and the second then fails the assertion of `resume` that it does not run (`IoClash.TakenTwice`). This needs a second entry for a coroutine that is queued or just taken (`IoClash.NoClash`), and such an entry is all it needs (`IoClash.SecondEntryClashes`).
- stop() may never return. `idle` calls epoll_wait before it looks at `stopping()`, and while a timer is active a worker may drain every token that stop() wrote; if the last timer is then cancelled and the queue is empty, a worker that blocks stays blocked and is joined for ever (`IoStop.HungForever`). This can happen if and only if there are at least two workers, whatever the number of tokens (`IoHang.HangExact`).
- The pool's counter is lowered outside the lock and has 32 bits. With k = 2^32 - limit, the limit can be passed if and only if there are more than k threads and k(k+1)/2 is at most the limit (`PoolWrapAround.LimitExact`); every limit up to 2^32 - 92681 is safe for any number of threads, and every limit for up to k threads (`PoolWrapAround.LimitsThatHold`).
- `Uri::Create` accepts `//[[a]`, whose host is then printed without brackets and refused. `Uris.UriRoundTrip` says that a host with `[` and without `:` is the only case.

## Model

| member | source | states |
|---|---|---|
| `RequestParser.OutcomeStable` | droplet/src/http/http_parser.cc:190-362 | a finished or failed attempt keeps its outcome on every extension of the input |
| `RequestParser.PrefixUndecided` | droplet/src/http/http_parser.cc:190-362 | no strict prefix of a request's own bytes is finished or an error, so a request takes exactly its bytes |
| `RequestParser.HttpRequestParser.Parse` | droplet/src/http/http_parser.cc:190-362 | the parser object ends in the state, with the message or the error and with the count that the outcome of the input prescribes |
| `RequestParser.HttpRequestParser.ParseLines` | droplet/src/http/http_parser.cc:203-335 | walking the head by positions gives what the head means as a text: request line, target parts and fields, or the first error |
| `RequestParser.HttpRequestParser.ParseFieldLines` | droplet/src/http/http_parser.cc:284-335 | the header loop reads every line up to the blank one, with the duplicate, length and coding rules applied in order |
| `RequestParser.HttpRequestParser.Execute` | droplet/src/http/http_parser.cc:164-173 | parsing in place: the unconsumed bytes move to the front of the buffer, and a parser that is already done touches nothing |
| `Session.HttpSession.RecvRequest` | droplet/src/http/http_session.cc:24-58 | fragmentation independence: whatever pieces the bytes come in, the result is that of one attempt at the whole remaining stream; buffer plus unread bytes is that stream less the request, or all of it after an error |
| `Session.HttpSession.ReceiveAll` | droplet/src/http/http_session.cc:24-58 | called until it returns nothing, the session yields exactly the requests of the stream and its first error, whatever the pieces |
| `Session.HttpSession.Attempt` | droplet/src/http/http_session.cc:29-46 | one turn of the loop: a finished request's bytes, and no others, leave the buffer |
| `Session.TranscriptGrows` | droplet/src/http/http_session.cc:24-58 | later bytes never revise the requests such a sequence of calls yields, nor its error |
| `RequestPrinter.Dump` | droplet/src/http/http_request.cc:329-353 | the stream writes amount to the request line, the kept fields in map order, the connection and length fields, a blank line and the body |
| `RequestPrinter.DumpHeaders` | droplet/src/http/http_request.cc:340-344 | the header loop prints exactly the fields that are not printed separately, in map order, each on a line of its own |
| `HttpMessages.MethodRoundTrip` | droplet/src/http/http.cc:99-117 | no two methods share a name, so a printed method is read back as itself |
| `HttpMessages.FieldRoundTrip` | droplet/src/http/http_parser.cc:284-313 | a printed header line is read back as the field it came from |
| `HttpMessages.HeaderContainsToken` | droplet/src/http/http_request.cc:107-124 | the walk finds a token exactly if some comma-separated item, trimmed and case-folded, is that token |
| `HttpMessages.InitConnection` | droplet/src/http/http_request.cc:293-301 | without a Connection field the connection is closed exactly for version 1.0; with a list, if some item is `close` in any case and between any blanks, or if none is `keep-alive` and the version is 1.0 |
| `HttpMessages.CloseFlag` | droplet/src/http/http_response.cc:143-151 | the same of the flag that both parsers store |
| `HttpMessages.TokenCharacters` | droplet/src/http/http_parser.cc:12-38 | header names are made of the token characters of RFC 9110 |
| `HeaderFields.PutSorted` | droplet/src/http/http.cc:126-134 | the header map stays strictly sorted by folded name, whatever is put into it |
| `HeaderFields.GetAfterPut` | droplet/src/http/http_request.cc:204-216 | a stored value is found under every spelling of its name |
| `HeaderFields.GetOtherAfterPut` | droplet/src/http/http_request.cc:204-216 | storing one name leaves every other lookup as it was |
| `Numbers.NumberRoundTrip` | droplet/src/http/http_parser.cc:94-104 | digits printed in any base up to 16 are valid digits of that base and denote the number again |
| `Numbers.DenotedSplit` | droplet/src/http/http_parser.cc:94-104 | the digits in front weigh more than those behind, by the powers of the base |
| `RequestRoundTrip.RequestRoundTrip` | droplet/src/http/http_request.cc:329-353 | a printed request is read back whole, with method, target parts, version, headers, close flag and body, if and only if no header contradicts the body |
| `FramingLimits.LengthWithoutBody` | droplet/src/http/http_request.cc:126-130 | a concrete request whose whole printed text leaves its own parser waiting for more, because a Content-Length is kept next to an empty body |
| `RequestRoundTrip.DumpOfReadBack` | droplet/src/http/http_request.cc:329-353 | printing what was read back prints the same text, and the fields that are not printed separately are the same |
| `RequestRoundTrip.HeadersSurvive` | droplet/src/http/http_request.cc:329-353 | every header value survives printing and parsing, but for Connection and Content-Length, which say what the close flag and the body say |
| `RequestRoundTrip.TargetRoundTrip` | droplet/src/http/http_parser.cc:263-282 | a target is split at the marks it was joined with |
| `RequestRoundTrip.HeadRoundTrip` | droplet/src/http/http_parser.cc:203-335 | the head of the printed text parses to the request line, target and fields it was printed from, or to the first field's error |
| `RequestRoundTrip.PrintedFieldsRead` | droplet/src/http/http_parser.cc:284-335 | which printed header lists are accepted, and what they leave in the map and as the length |
| `RequestRoundTrip.CloseReadBack` | droplet/src/http/http_request.cc:293-301 | the close flag survives printing and parsing for both versions |
| `WrittenRequests.RequestLineRead` | droplet/src/http/http_parser.cc:215-257 | a line of words between single blanks: anything but three words is refused, and of three the first wrong one decides the error |
| `WrittenRequests.WrittenRequestRead` | droplet/src/http/http_parser.cc:190-362 | for header lines in any number and order: 64 KiB of head, the first refused field and 64 MiB of body decide the error; otherwise the announced length decides, and method, target parts, version, last value of each name, close flag and body are those that were written |
| `WrittenRequests.ForInstance` | droplet/src/http/http_parser.cc:190-362 | one request byte by byte |
| `ResponseParserObject.HttpResponseParser.Parse` | droplet/src/http/http_parser.cc:404-704 | the parser object ends as the outcome of the input prescribes: finished with a positive count, failed with zero, or waiting with zero |
| `ResponseParserObject.HttpResponseParser.ReadHead` | droplet/src/http/http_parser.cc:421-559 | status line and header loop by positions give what the head means as a text |
| `ResponseParserObject.HttpResponseParser.ReadChunks` | droplet/src/http/http_parser.cc:569-667 | the chunk loop computes the decoding of the coded body, its trailers and its end, or the first error |
| `ResponseParserObject.HttpResponseParser.ReadTrailers` | droplet/src/http/http_parser.cc:595-642 | the trailer loop adds the fields up to the blank line, within the limit |
| `ResponseParserObject.HttpResponseParser.Execute` | droplet/src/http/http_parser.cc:374-384 | parsing in place: what follows a finished response moves to the front of the buffer |
| `ResponseParserObject.HeaderContainsFinalChunked` | droplet/src/http/http_parser.cc:106-138 | the walk that stops early answers whether `chunked` is the last coding and appears nowhere else |
| `WrittenResponses.ChunkedLastRead` | droplet/src/http/http_parser.cc:106-138 | said of the list as it is written: every item names a coding before its parameters, the last one is `chunked` in any case, and no other |
| `WrittenResponses.WrittenResponseRead` | droplet/src/http/http_parser.cc:404-704 | for header lines in any number and order: which are refused and why; statuses and methods without a body; the announced length; and without any, a body up to the end of the stream, which closes |
| `WrittenResponses.WrittenChunkedRead` | droplet/src/http/http_parser.cc:561-667 | with `chunked` last and a body encoded in any chunks, the data comes back and what follows the encoding stays |
| `ResponseFraming.FinishedStable` | droplet/src/http/http_parser.cc:404-704 | a finished response stays the same, with the same count, on every extension, whether or not the connection has ended |
| `ResponseFraming.OutcomeStable` | droplet/src/http/http_parser.cc:404-704 | so does every error other than that for incomplete overlong chunk metadata |
| `ResponseFraming.PrefixOutcome` | droplet/src/http/http_parser.cc:404-704 | a strict prefix of a finished response is undecided, except for that same error |
| `ResponseFraming.PrefixExact` | droplet/src/http/http_parser.cc:569-667 | all strict prefixes are undecided if and only if the chunk-size lines and the trailer section are shorter than the limit |
| `ResponseFraming.QuietExact` | droplet/src/http/http_parser.cc:569-667 | for every input, complete or not: some part of it is refused for incomplete metadata if and only if a size line or the trailer section seen so far is too long |
| `ResponseFraming.LongMetadataFails` | droplet/src/http/http_parser.cc:579-610 | overlong chunk metadata, complete or not, has a prefix that is refused, and one inside the coded body if that is complete |
| `ChunkedBody.ChunksRead` | droplet/src/http/http_parser.cc:569-667 | decoding undoes encoding for all non-empty chunks, extensions and trailers, and stops right behind the encoding |
| `ChunkedBody.TrailersRead` | droplet/src/http/http_parser.cc:595-642 | an encoded trailer section gives its fields back and ends behind its blank line |
| `ChunkedBody.ChunkedResponseRead` | droplet/src/http/http_parser.cc:404-704 | a chunked response followed by anything yields the concatenated body and leaves exactly what followed |
| `FramingLimits.AcceptedOnlyWhole` | droplet/src/http/http_parser.cc:579-592 | a concrete response with an overlong size line that is accepted whole and refused when a certain prefix arrives first |
| `ResponsePrinter.Dump` | droplet/src/http/http_response.cc:153-181 | the stream writes amount to status line, kept fields, cookies, connection and length fields, blank line and the body if the status allows one |
| `ResponsePrinter.DumpCookies` | droplet/src/http/http_response.cc:167-169 | one Set-Cookie line for each cookie, in order |
| `ResponseRoundTrip.ResponseRoundTrip` | droplet/src/http/http_response.cc:72-181 | a printed response is read back whole if and only if the parser expects a body wherever the printer wrote one; otherwise exactly the body bytes are left over |
| `ResponseRoundTrip.HeadRoundTrip` | droplet/src/http/http_parser.cc:421-559 | the head of a printed response parses to its version, status, reason and fields |
| `ResponseRoundTrip.PipelineInStep` | droplet/src/http/http_parser.cc:140-146 | reading a concatenation of printed responses with the matching methods gives each back in order and leaves what follows, if and only if all are in step |
| `ResponseRoundTrip.FirstRead` | droplet/src/http/http_parser.cc:561-567 | a printed response at the front of a stream is read back whole, or, out of step, without its body, which stays in front of the rest |
| `ResponseRoundTrip.HeadersSurvive` | droplet/src/http/http_response.cc:153-181 | every header value survives printing and parsing, but for Connection and Content-Length, which the printer writes itself |
| `Server.HandleClient` | droplet/src/http/http_server.cc:46-91 | the answers go out in order, each whole except perhaps the last if the peer breaks off, and the loop ends with the first that closes |
| `Server.AnswersInStep` | droplet/src/http/http_server.cc:79-85 | whatever a servlet leaves, the answer to any method but CONNECT ends for its reader where the printer ended it |
| `Server.ConnectOutOfStep` | droplet/src/http/http_server.cc:79-85 | an answer to CONNECT is in step exactly if it is not 2xx or prints no body |
| `FramingLimits.ConnectBodyLeftOver` | droplet/src/http/http_server.cc:79-85 | a servlet whose answer to any CONNECT leaves one byte in the stream, in front of whatever follows |
| `Server.ExchangesAnswer` | droplet/src/http/http_server.cc:46-91 | the answers are those to the requests of the stream in order, up to the first answer that closes, or else to all of them |
| `Server.ExchangesInStep` | droplet/src/http/http_server.cc:46-91 | over a whole connection all answers but those to CONNECT are in step, and only the last one closes |
| `Server.ClientReadsAnswers` | droplet/src/http/http_server.cc:46-91 | a client reading the server's bytes with its own methods gets every answer back, in order, and nothing else, if and only if the answers to CONNECT are in step |
| `ServerAnswers.FirstAnswer` | droplet/src/http/http_server.cc:46-91 | from the bytes of any written request: the servlet gets exactly that request and a fresh response, its status, headers and body go out, 500 if it threw, no body for HEAD, closing if it, the request or the settings say so; then it is the turn of what follows |
| `ServerAnswers.NoServlet` | droplet/src/http/http_server.cc:46-91 | without a dispatcher the answer is an error with the request's version and close flag |
| `ClientConnection.HttpConnection.RecvResponse` | droplet/src/http/http_connection.cc:309-377 | for all pieces the outcome is what the buffered and the coming bytes prescribe: interim responses are skipped, the end of the stream may end a body, and leftover, error and request count are stated; the response is no interim one; the connection is reusable exactly if the response neither closes nor switches protocols, and not at all if the end of the stream, which closes it, was needed; a closed connection still parses what is buffered and then fails; for a steady stream it is a function of the bytes alone |
| `ClientConnection.PiecesExact` | droplet/src/http/http_connection.cc:309-377 | the outcome is the same for all pieces if and only if no metadata is overlong, or the whole stream fails for its sake too, in the response behind the interim ones |
| `ClientConnection.PiecesDoNotMatter` | droplet/src/http/http_connection.cc:309-377 | the same from any buffer in the middle of a steady stream |
| `ClientConnection.FinishedSteady` | droplet/src/http/http_connection.cc:309-377 | for a complete response the lengths of its metadata alone decide |
| `ClientConnection.FinalReceived` | droplet/src/http/http_connection.cc:309-377 | reusability and finality of every response that any pieces yield |
| `ClientConnection.FirstFinal` | droplet/src/http/http_connection.cc:309-377 | the response that is received is the first in the stream with status 101 or outside 100 to 199, and what is left begins behind it |
| `ClosingStreams.CloseDelimited` | droplet/src/http/http_connection.cc:309-377 | for all pieces of a written response without length and coding: when the peer closes, all of the body is received and the connection is not reusable; when it breaks instead, nothing is received |
| `IoRuns.NoLostTask` | droplet/src/scheduler/iomanager_idle.cc:14-84 | no lost wake-up: in every reachable state with an unpinned entry in the queue there is a token, a thread about to write one, or a worker that looks again before blocking |
| `IoBatches.WakeUpForEachTask` | droplet/include/droplet/scheduler/scheduler.h:83-102 | since any moment at which no wake-up was missing, the startable entries are at most the tokens, writers, scanners and pinned runs, plus the entries posted beyond one per batch and the coroutines taken once more |
| `IoBatches.WakeUpOfItsOwn` | droplet/src/scheduler/scheduler_task.cc:10-59 | in a run whose batches have one entry, which starts no pinned entry and takes no coroutine twice, every startable entry has a token, writer or scanner of its own |
| `IoBatches.BatchShort` | droplet/include/droplet/scheduler/scheduler.h:83-102 | a concrete run in which a batch leaves two startable entries with one token |
| `IoBatches.OwnWakeUpExact` | droplet/include/droplet/scheduler/scheduler.h:83-102 | that holds in all runs with batches up to a given length if and only if the length is at most one |
| `IoClash.NoClash` | droplet/src/scheduler/scheduler_task.cc:40-59 | no two workers ever have the same coroutine in a run in which it has no second entry while one is queued or taken |
| `IoClash.SecondEntryClashes` | droplet/src/scheduler/scheduler_task.cc:40-59 | where a taken coroutine that does not run yet has another entry first in line for a worker, that worker's next scan takes it too |
| `IoClash.TakenTwice` | droplet/src/fiber/fiber.cc:117-137 | a concrete run in which both directions of a descriptor queue one coroutine, two workers take it, and the second finds it running when it resumes it |
| `IoHang.HangExact` | droplet/src/scheduler/scheduler_lifecycle.cc:38-60 | some run leaves a worker blocked without a timeout and with nothing left to wake it, after stop() has written its tokens, if and only if there are at least two workers |
| `IoStop.HungForever` | droplet/src/scheduler/iomanager_idle.cc:20-71 | such a worker never leaves, whatever all the others do, unless a call comes in from outside |
| `IoStop.OneWorkerReturns` | droplet/src/scheduler/iomanager_idle.cc:86-101 | with a single worker no run gets there |
| `IoAlone.StepAlone` | droplet/src/scheduler/iomanager_idle.cc:14-101 | every step keeps: a single worker that could block after stop() has a token, one still to be written, or something left that will bring one |
| `IoRuns.LookingUntilScanned` | droplet/src/scheduler/scheduler_run.cc:19-28 | a worker relied on to look again stops counting only by scanning the queue without success or by leaving it empty |
| `IoRuns.TimersAttended` | droplet/src/scheduler/iomanager_idle.cc:20-71 | in every reachable state each active timer has a pending token, a thread about to write one, a worker that will sample the deadlines again, or one that blocks no longer than until it is due |
| `IoRuns.NoLateTimer` | droplet/src/scheduler/iomanager_idle.cc:20-71 | so if every worker is blocked past the deadline of an active timer, a token is pending or about to be written |
| `IoRuns.PlacesOverRun` | droplet/src/scheduler/iomanager_events.cc:18-204 | a registration's end (started, deleted or cleared) is final, and a queued one is only ever started |
| `IoRuns.StartsOnce` | droplet/src/scheduler/scheduler_task.cc:40-59 | no entry is started twice, nor after its registration was deleted or cleared, in any interleaving |
| `IoRuns.PendingInRun` | droplet/src/scheduler/iomanager_events.cc:18-204 | the pending counter is always the number of filled slots plus the removals not yet subtracted, hence never negative |
| `IoRuns.DrainedOnStop` | droplet/src/scheduler/iomanager_idle.cc:86-101 | when all workers have left, the queue, the slots and the timers are empty and every accepted entry was started or deleted, although the three are read at different moments |
| `IoDelivery.StepAccepts` | droplet/src/scheduler/scheduler_run.cc:19-61 | a step takes over exactly the posted entry, the batch, the handler, the coroutine that asks to run again, or one callback for each expired timer, and holds it at the place stated |
| `IoDelivery.StepHeld` | droplet/src/scheduler/scheduler_task.cc:10-59 | an entry stays the one it was accepted as, with its pin and its coroutine, wherever it moves |
| `IoDelivery.StepEnds` | droplet/src/scheduler/scheduler_task.cc:40-59 | it ends only by being taken by a worker that may run it, by a delete of its registration, or by the final clearing |
| `IoOutcomes.AcceptedStarted` | droplet/src/scheduler/scheduler_run.cc:19-61 | in a run whose workers all leave, every entry ever accepted was taken as itself, on its pinned thread if it has one, or its registration was deleted |
| `IoOutcomes.FiredStarted` | droplet/src/scheduler/iomanager_events.cc:110-204 | and so was every handler whose event was reported or cancelled |
| `IoOutcomes.StepSlots` | droplet/src/scheduler/iomanager_events.cc:68-204 | a report or cancel hands over exactly the named handlers that are registered, a delete drops them, and all others stay |
| `IoOutcomes.StepTimers` | droplet/src/scheduler/timer.cc:94-127 | only set, cancel, clear and expiry change timers; at expiry one-shot timers that are due leave, recurring ones move past now by their interval, the rest stay |
| `IoOutcomes.TimerEnds` | droplet/src/scheduler/timer.cc:94-164 | an active timer stays active until it fires as a one-shot timer or is cancelled or cleared |
| `IoOutcomes.ExpiredRun` | droplet/src/scheduler/iomanager_idle.cc:54-61 | for each timer that is due a callback is owed by the worker, which anybody may run, and which is run if all workers leave |
| `IoOutcomes.BlocksUntilDue` | droplet/src/scheduler/iomanager_idle.cc:23-33 | a worker blocks exactly until the earliest deadline, or for INT_MAX milliseconds if that is earlier, or without end if there is no timer |
| `IoStop.LeavesWhenQuiet` | droplet/src/scheduler/iomanager_idle.cc:41-101 | with nothing left after stop(), a worker that epoll_wait has let go leaves within a fixed number of its own moves, whatever the others do |
| `IoRuns.RunKeepsInvariant` | droplet/src/scheduler/scheduler_run.cc:8-68 | the conjunction of the invariants below holds in every reachable state of every run |
| `IoPlaces.StepPlaced` | droplet/src/scheduler/iomanager_events.cc:18-204 | every step keeps each entry in exactly the one place recorded for it: a slot, a thread's hands, or the queue |
| `IoPlaces.StepMovesOn` | droplet/src/scheduler/iomanager_events.cc:68-204 | places change only forward, from slot to hands to queue to started, or from slot to deleted or cleared |
| `IoCounter.StepCounted` | droplet/src/scheduler/iomanager_events.cc:18-204 | every step keeps the counter equal to the registrations it stands for, with removals by different threads disjoint |
| `IoWakeUp.StepKeepsWakeUp` | droplet/src/scheduler/iomanager_idle.cc:14-84 | every step keeps enough wake-ups for the queue and keeps every timer attended to |
| `IoDrain.StepKeepsDrain` | droplet/src/scheduler/iomanager_idle.cc:54-101 | every step keeps: what is not empty will still be read by some worker before it leaves |
| `EventContexts.FdContext.AddEvent` | droplet/src/scheduler/iomanager_events.cc:18-66 | fills exactly the named slot, or answers that the event is invalid, taken, or refused by the kernel, and changes nothing; a bit is set exactly if its slot is filled |
| `EventContexts.FdContext.RemoveEvents` | droplet/src/scheduler/iomanager_events.cc:68-152 | takes exactly the handlers of the named bits that are set, reading first, and counts them; a failure changes nothing |
| `EventContexts.FdContext.ProcessEvent` | droplet/src/scheduler/iomanager_events.cc:156-204 | hands over each reported handler that is still registered, once; an error or hang-up reports both directions |
| `EventContexts.FdContext.UpdateEpoll` | droplet/src/scheduler/iomanager.cc:105-116 | the choice among add, modify and delete fits what the kernel has, and leaves the kernel watching the new bits |
| `TaskQueue.PostedLast` | droplet/src/scheduler/scheduler_task.cc:10-59 | a posted entry never overtakes: a scan that found an entry before the post finds the same one after it, and otherwise finds the new entry exactly if the thread may run it |
| `TaskQueue.FirstIsOne` | droplet/src/scheduler/scheduler_task.cc:40-59 | what a scan may find, and what it leaves, is determined by the queue |
| `TaskQueue.Tasks.ScheduleAll` | droplet/include/droplet/scheduler/scheduler.h:83-102 | the batch goes to the end in order, and one wake-up is due if and only if it is not empty |
| `TaskQueue.Tasks.GetNextTask` | droplet/src/scheduler/scheduler_task.cc:40-59 | takes the first entry this thread may run, and nothing else moves; none is taken only if there is none |
| `TaskQueue.FetchIsTheMove` | droplet/src/scheduler/scheduler_task.cc:40-59 | the scan of the list and the machine's moves agree: nothing found exactly when the machine finds nothing, otherwise the same entry and the same rest |
| `Fibers.FiberThread.Create` | droplet/src/fiber/fiber.cc:51-75 | a new coroutine whose context is a fresh entry point; the resume chain and all others stay |
| `Fibers.FiberThread.Reset` | droplet/src/fiber/fiber.cc:100-111 | only an unstarted or ended coroutine gets a new entry point, and no saved point is used by it |
| `Fibers.FiberThread.Jump` | droplet/src/fiber/fiber.cc:117-153 | a switch uses up the target token, saves the point left behind under a new one, and stores that token where the continuation stores it |
| `Fibers.FiberThread.Resume` | droplet/src/fiber/fiber.cc:117-137 | the chain grows by the resumed coroutine; its token was live and never used before; all invariants on contexts are kept |
| `Fibers.FiberThread.YieldTo` | droplet/src/fiber/fiber.cc:143-153 | control returns to the resumer, the running coroutines are again exactly the chain, and the token used was live and unused |
| `Fibers.FiberThread.Finish` | droplet/src/fiber/fiber.cc:180-214 | an ended coroutine returns to its resumer in its final state, and no saved point of it remains resumable |
| `Timers.TimerManager.AddTimer` | droplet/src/scheduler/timer.cc:41-63 | the set gains exactly this timer and stays strictly sorted, and the loop is told exactly if it comes first |
| `Timers.TimerManager.GetNextTimer` | droplet/src/scheduler/timer.cc:83-92 | the wait ends no later than any deadline, and is zero exactly when one has passed or is now |
| `Timers.TimerManager.Find` | droplet/src/scheduler/timer.cc:146-221 | the lookup by key finds a timer exactly if it is in the set, because keys are unique |
| `Timers.TimerManager.CancelTimer` | droplet/src/scheduler/timer.cc:146-164 | succeeds exactly for members of the set, and removes only that timer |
| `Timers.TimerManager.RefreshTimer` | droplet/src/scheduler/timer.cc:166-191 | the set keeps its members and its order although the key changes; the loop is told exactly if the timer comes first |
| `Timers.TimerManager.ResetTimer` | droplet/src/scheduler/timer.cc:193-221 | the same with a new interval, from now or from the old start, which is never negative |
| `Timers.TimerManager.ListExpired` | droplet/src/scheduler/timer.cc:94-127 | the loop ends; each due timer fires once, in order; one-shot timers leave, recurring ones move past now, the rest is untouched and later than now |
| `Timers.TimerManager.FireFirst` | droplet/src/scheduler/timer.cc:100-125 | one round: the first due timer is never a cancelled one, and a recurring one is reinserted behind all that are due |
| `Timers.TimerManager.ClearTimers` | droplet/src/scheduler/timer.cc:136-144 | no timer remains active |
| `Timers.InsertedSorted` | droplet/include/droplet/scheduler/timer.h:107-114 | inserting by deadline and sequence keeps the order strict and adds one member |
| `ConnectionPool.CapacityKept` | droplet/src/http/http_connection.cc:422-490 | in every interleaving of a pool whose limit and thread count cannot wrap the counter, the idle, leased, returning and connecting connections stay within the limit, and the counter is their number plus the discarded ones not yet subtracted |
| `ConnectionPool.ExcessBounded` | droplet/src/http/http_connection.cc:444-460 | what the counter shows above the limit is at most the number of threads, and its triangular number at most the limit |
| `ConnectionPool.DeletedOnce` | droplet/src/http/http_connection.cc:409-490 | no connection is deleted twice or used after its delete, also when a lease outlives the pool |
| `ConnectionPool.NothingLeaks` | droplet/src/http/http_connection.cc:409-420 | when no thread is inside a call and none is idle, every connection ever opened is on lease or deleted |
| `ConnectionPool.StepPlaced` | droplet/src/http/http_connection.cc:611-631 | every step keeps each connection in exactly one place, held by at most one thread |
| `ConnectionPool.RunBounded` | droplet/src/http/http_connection.cc:422-490 | the inductive form: the lock is held by at most one thread, a thread that has seen room keeps its promise until it raises the counter, and going further over the limit takes a thread with as many discarded connections |
| `PoolWrapAround.LimitExact` | droplet/src/http/http_connection.cc:444-460 | exactly which limits and thread counts have a run that passes the limit |
| `PoolWrapAround.LimitExceeded` | droplet/src/http/http_connection.cc:444-460 | the run: debtors of 1, 2, 3 and so on up to k connections bring the counter round to zero, and one more thread fills the pool again |
| `PoolWrapAround.CounterExact` | droplet/src/http/http_connection.cc:444-460 | exactly which limits and thread counts have a run in which the counter is not the number of connections it stands for |
| `PoolWrapAround.LimitsThatHold` | droplet/src/http/http_connection.cc:444-460 | limits up to 2^32 - 92681, and limits with no more threads than they are below 2^32, cannot be passed |
| `PoolFates.StepFate` | droplet/src/http/http_connection.cc:422-490 | where each step takes each connection: a valid idle one is leased, a valid returned one becomes idle, what is discarded waits for its delete, the rest stays |
| `PoolFates.GivenUpForCause` | droplet/src/http/http_connection.cc:422-490 | in every run a connection is given up only after it was found unusable, could not be stored, or the pool was gone |
| `PoolFates.IdleFirst` | droplet/src/http/http_connection.cc:430-452 | no connection is opened, and none refused, while one is idle |
| `PoolFates.RoomTaken` | droplet/src/http/http_connection.cc:444-452 | where the counter cannot fill up, one is opened exactly if the connections and the discarded ones of others are fewer than the limit |
| `ByteArrays.ByteArray.AddCapacity` | droplet/src/stream/bytearray.cc:339-357 | room for the bytes behind the cursor with the fewest nodes, or a length error; the old bytes stay in place |
| `ByteArrays.ByteArray.CannotGrowExact` | droplet/src/stream/bytearray.cc:339-357 | the length error means that every capacity that would do is beyond the range of size_t |
| `ByteArrays.ByteArray.NodeAt` | droplet/src/stream/bytearray.cc:317-337 | the node and offset where a flat position lies, or the end of the chain |
| `ByteArrays.ByteArray.Write` | droplet/src/stream/bytearray.cc:359-392 | the flat bytes change exactly behind the cursor, which moves past them; the size never shrinks; on an error nothing changes |
| `ByteArrays.ByteArray.Read` | droplet/src/stream/bytearray.cc:394-425 | the flat slice at the cursor, or an error that changes nothing |
| `ByteArrays.ByteArray.ReadAt` | droplet/src/stream/bytearray.cc:427-456 | the flat slice at a given position, with the cursor where it was |
| `ByteArrays.ByteArray.SetPosition` | droplet/src/stream/bytearray.cc:458-466 | the cursor may move anywhere within the capacity, and the size follows it upwards |
| `ByteArrays.ByteArray.Clear` | droplet/src/stream/bytearray.cc:302-315 | back to one node, whose bytes stay |
| `ByteArrays.ByteArray.GetReadBuffers` | droplet/src/stream/bytearray.cc:531-554 | buffers that are disjoint, contiguous and cover exactly the readable range asked for |
| `ByteArrays.ByteArray.GetReadBuffersAt` | droplet/src/stream/bytearray.cc:556-583 | the same from a given position |
| `ByteArrays.ByteArray.GetWriteBuffers` | droplet/src/stream/bytearray.cc:585-608 | the chain grows as needed, and the buffers cover exactly the range behind the cursor, which stays |
| `ByteArrays.ByteArray.GatheredIsSlice` | droplet/src/stream/bytearray.cc:531-583 | what a vectored send reads from the buffers is the flat slice |
| `ByteArrays.ByteArray.Scatter` | droplet/src/stream/bytearray.cc:585-608 | what a vectored receive stores through the buffers overwrites the flat range and nothing else |
| `Streams.SocketStream.Write` | droplet/src/stream/socket_stream.cc:65-83 | the bytes that went out are those at the cursor, which moves by the kernel's count |
| `Streams.SocketStream.Read` | droplet/src/stream/socket_stream.cc:34-52 | the bytes that arrived are stored at the cursor, in order, and no other byte changes |
| `Streams.SocketStream.WriteFixSize` | droplet/src/stream/stream.cc:52-65 | over any schedule of partial sends the bytes go out in order and once, completely exactly if the call reports the whole length |
| `Streams.SocketStream.ReadFixSize` | droplet/src/stream/stream.cc:21-34 | over any schedule of partial receives the bytes are stored in order, completely exactly if the call reports the whole length |
| `Streams.TransferCopies` | droplet/src/stream/stream.cc:21-65 | when both ends report n bytes, the receiver holds the sender's n bytes, for any two node sizes and any schedules |
| `Codec.FixedRoundTrip` | droplet/src/stream/bytearray.cc:78-114 | either byte order gives the number back |
| `Codec.BitsRoundTrip` | droplet/src/stream/bytearray.cc:78-114 | the conversion between signed values and their bits is undone |
| `Codec.VarintRead` | droplet/src/stream/bytearray.cc:220-252 | a written varint is read back, ends where it was written to, and takes at most 5 or 10 bytes |
| `Codec.VarintInRange` | droplet/src/stream/bytearray.cc:220-252 | every accepted varint, also one that was never written by the encoder, is in the range of its type |
| `Codec.VarintLimits` | droplet/src/stream/bytearray.cc:220-252 | the limits on the last byte are exactly those that make the ranges 2^32 and 2^64 |
| `Codec.ZigzagRoundTrip` | droplet/src/stream/bytearray.cc:20-38 | numbers of either sign get the interleaved code, and the code is undone |
| `Codec.ZigzagOnto` | droplet/src/stream/bytearray.cc:20-38 | every code is that of a number in range |
| `Messages.ValueRoundTrip` | droplet/src/stream/bytearray.cc:116-300 | one value of any type comes back, and the cursor stands behind it |
| `Messages.MessageRoundTrip` | droplet/src/stream/bytearray.cc:78-300 | a list of mixed types comes back in either byte order, and reading ends where writing did |
| `WireFormat.LaidIsEncoded` | droplet/src/stream/bytearray.cc:78-198 | some bytes are the encoding of a value exactly if byte i is n mod 256^width divided by 256^i, or counted from the other end in a big-endian buffer; or the i-th group of seven bits with its continuation bit; or a length of 2, 4, 8 or varint bytes and the text |
| `WireFormat.LaidRead` | droplet/src/stream/bytearray.cc:200-300 | and a value that stands so in the buffer is read, with the cursor behind it |
| `WireFormat.RefusedExact` | droplet/src/stream/bytearray.cc:162-198 | a string is refused exactly if it has 2^16 bytes or more for a 2-byte length, or 2^32 or more for a 4-byte length |
| `MessageStreams.FixedLoop` | droplet/src/stream/bytearray.cc:78-93 | the shifting loop writes the base-256 digits in the chosen order |
| `MessageStreams.CollectLoop` | droplet/src/stream/bytearray.cc:95-114 | the collecting loop computes the number the bytes denote |
| `MessageStreams.VarintLoop` | droplet/src/stream/bytearray.cc:136-160 | the loop writes the base-128 form with continuation bits |
| `MessageStreams.WriteItem` | droplet/src/stream/bytearray.cc:116-198 | a typed write puts each byte of the value where its byte order or its groups of seven bits say, behind the old cursor; it changes the flat buffer exactly by the encoding; a string too long for its prefix is refused before anything is written; when memory ends, nothing or only the string's length has been written |
| `MessageStreams.ReadVarintLoop` | droplet/src/stream/bytearray.cc:220-252 | the byte-wise loop over the buffer returns what the bytes up to the size decode to, or an error |
| `MessageStreams.ReadItem` | droplet/src/stream/bytearray.cc:200-300 | a typed read returns the value whose bytes stand at the cursor in that order; it returns the decoding and moves the cursor to its end, or fails exactly when it cannot be decoded and leaves the cursor where the code does |
| `MessageStreams.WriteAll` | droplet/src/stream/bytearray.cc:116-198 | a list of writes lays its encodings one after the other |
| `MessageStreams.ReadAll` | droplet/src/stream/bytearray.cc:200-300 | a list of reads decodes them one after the other |
| `MessageStreams.Replay` | droplet/src/stream/bytearray.cc:78-300 | write, rewind, read on one buffer: the message comes back and the cursor is where writing left it |
| `Utf8.DecodeIsGrammar` | droplet/src/utils/string_utils.cc:51-93 | the decoder accepts exactly the well-formed sequences of RFC 3629, takes the whole character, and encoding the result gives the same octets |
| `Utf8.DecodeAppended` | droplet/src/utils/string_utils.cc:32-48 | an encoded code point is decoded, whatever follows it |
| `Utf8.EncodedStands` | droplet/src/utils/string_utils.cc:32-48 | the octets of a code point add up to it, each weighed by its place |
| `Utf8.DecodedStands` | droplet/src/utils/string_utils.cc:51-93 | what is decoded is that sum |
| `Utf8.PairStands` | droplet/src/utils/string_utils.cc:97-132 | a surrogate pair stands for the code point that RFC 2781 gives it |
| `Utf8.DecodeUtf8CodePoint` | droplet/src/utils/string_utils.cc:51-93 | the shifting loop computes that decoding and advances the offset to its end |
| `Utf8.WidenAccepts` | droplet/src/utils/string_utils.cc:134-163 | a text is converted exactly if it is a sequence of well-formed characters |
| `Utf8.NarrowAccepts` | droplet/src/utils/string_utils.cc:97-132 | a 32-bit wide string is converted exactly if all its elements are Unicode scalar values |
| `Utf8.NarrowAccepts16` | droplet/src/utils/string_utils.cc:97-132 | a 16-bit wide string is converted exactly if its surrogates stand in pairs |
| `Utf8.WidenNarrowed` | droplet/src/utils/string_utils.cc:97-163 | decoding an encoding returns the wide string |
| `Utf8.NarrowWidened` | droplet/src/utils/string_utils.cc:97-163 | re-encoding an accepted text returns its octets |
| `Utf8.WidenNarrowed16` | droplet/src/utils/string_utils.cc:97-163 | the first round trip through surrogate pairs |
| `Utf8.NarrowWidened16` | droplet/src/utils/string_utils.cc:97-163 | the second round trip through surrogate pairs |
| `Utf8.SameTexts` | droplet/src/utils/string_utils.cc:134-163 | both widths of wchar_t accept the same texts |
| `Utf8.StringToWString32` | droplet/src/utils/string_utils.cc:134-163 | the loop computes the conversion, or the empty answer for a malformed text |
| `Utf8.WStringToString32` | droplet/src/utils/string_utils.cc:97-132 | the same in the other direction |
| `Utf8.StringToWString16` | droplet/src/utils/string_utils.cc:134-163 | the loop that splits code points into surrogate pairs |
| `Utf8.WStringToString16` | droplet/src/utils/string_utils.cc:97-132 | the loop that joins surrogate pairs |
| `Uris.IsValidUriText` | droplet/src/http/uri.cc:29-45 | the scan that skips over triples accepts exactly the texts without control characters or blanks in which every percent sign starts a triple |
| `Uris.Dump` | droplet/src/http/uri.cc:204-236 | the stream writes amount to the canonical text, without a default port and with `/` for an empty path behind an authority |
| `Uris.CreateShape` | droplet/src/http/uri.cc:122-171 | every accepted text yields parts free of the delimiters that end them |
| `WrittenUris.WrittenUriRead` | droplet/src/http/uri.cc:70-171 | a URI put together from a scheme in any case, userinfo, host, port, path, query and fragment is taken apart into these, with the scheme folded |
| `WrittenUris.PortsOfSchemes` | droplet/src/http/uri.cc:178-197 | the port is the written one, else 80 for http and ws and 443 for https and wss; it is the default one if it is not written or is that number |
| `Uris.AuthorityBack` | droplet/src/http/uri.cc:70-118 | a printed authority is taken apart into the same userinfo, host and port, or refused exactly if the host lost its brackets |
| `Uris.DumpCreate` | droplet/src/http/uri.cc:122-236 | parsing a printed URI gives its canonical form, exactly if its host can be printed |
| `Uris.UriRoundTrip` | droplet/src/http/uri.cc:122-236 | for every accepted text: printing and parsing again changes no accessor, if and only if the host has a colon or no opening bracket |
| `Uris.DumpIdempotent` | droplet/src/http/uri.cc:204-236 | the printed form is stable |
| `Uris.BracketsLost` | droplet/src/http/uri.cc:70-118 | the concrete text for which the round trip fails |

## Left out

- `RequestRoundTrip.RequestRoundTrip`: is stated for requests that are not websocket upgrades, with target parts free of the marks that end them and within the parser's size limits; outside these the printer writes what no parser need accept.
- `ResponseRoundTrip.PipelineInStep`: is stated for responses without Transfer-Encoding or Set-Cookie in the header map; cookies set through the cookie list are included. The reason-phrase table is a parameter.
- `WrittenRequests.WrittenRequestRead`: takes each header line with one blank behind the colon; `WrittenResponses.WrittenResponseRead` does so, too.
- `Server.HandleClient`: the servlet is an arbitrary function of the request and the response; it is assumed not to change the request object, not to write to the session itself, and the keep-alive setting not to change during a connection.
- `IoRuns.NoLostTask`: makes no claim for pinned entries, whose token may be drained by the wrong worker.
- `IoBatches.WakeUpForEachTask`: is weaker by the workers that run pinned entries, which may have spent the token of another entry.
- `IoRuns.TimersAttended`: counts a worker that is running user code as one that will look again.
- `IoRuns.DrainedOnStop`: speaks of runs in which all workers have left, and supposes no forced stop, no failed epoll_wait, and no call from outside the workers during or after stop(). That all of them can leave is another matter (`IoHang.HangExact`).
- `IoHang.HangExact`: supposes the same, and a kernel that reports the eventfd only when it holds a token, a descriptor only when it is registered, and nothing only after the timeout. That a single worker does leave also needs the kernel to wake it, which is not modelled.
- `Fibers.FiberThread.Resume`: the state change and the context save of a switch are one step, as only one thread runs the coroutine at that moment; a coroutine that continues on another thread belongs to the event-loop model.
- `Timers.TimerManager.AddTimer`: the clock is unbounded; the wrap-around of a 64-bit deadline is not modelled. Condition timers, which wrap a callback, are left out.
- `Streams.SocketStream.WriteFixSize`: the `int` that carries a transfer count is unbounded, so transfers beyond 2^31 - 1 bytes are not modelled.
- `ByteArrays.ByteArray.AddCapacity`: failure of the allocator is not modelled; new bytes are arbitrary to every contract. The constructor's refusal of node size zero is a precondition.
- Request and response objects are values: setters, aliasing, parameter and cookie caches and the texts of error messages are not modelled.
- The eventfd counter is unbounded; what a worker does with a coroutine that another one took before it is left out from the failed assertion on; the base scheduler's own idle loop with its condition variable is replaced by that of the event loop.
- Which coroutine object a callback runs in (the worker reuses the last one once it has ended), thread creation and joining, the caller's own thread as a worker, and the growth of the descriptor table: the event-loop model has one context for every descriptor and any number of workers from the start.
- Timer calls from several threads: the manager's mutex makes each call one step, and the class models the calls in the order in which they take it.
- Whether a pooled connection is still usable (connected, expired, request count) is nondeterministic; for the client, timeouts and socket errors are one error.
- Sending requests, retries and redirects on the client's side.
- User code that resumes coroutines by hand inside an entry is part of the coroutine model only, not of the event-loop model.
- Stacks, registers, thread-local storage, reference counts and memory ordering.
- Sockets, DNS, addresses, the system-call hooks, timeouts, logging, configuration, servlet routing, websockets, file input and output, and hexadecimal dumps.
