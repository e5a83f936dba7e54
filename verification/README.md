# MyMuduo in Dafny

A verified model of the parts of MyMuduo where the behaviour is hard to see from one function: the
asynchronous logger, the hand-off of functors to an event loop, the incremental HTTP parser and the
response printer, the byte buffer and the output path of a connection, channel registration, the life
of a connection across loops, the timer scheduler and the integer formatter.

`dafny verify dfyconfig.toml` checks everything. Each module follows one component:

| module | file | component |
|---|---|---|
| `AsyncLoggings` | AsyncLogging.dfy | producer/consumer logger with circulating buffers |
| `EventLoops` | EventLoop.dfy | pending functors, eventfd, drain |
| `Lifecycle` | Lifecycle.dfy | base loop, I/O loops, accept to destruction |
| `HttpRequests`, `HttpParsers`, `HttpRoundTrip` | HttpRequest.dfy, HttpRequestParser.dfy, HttpRoundTrip.dfy | request line, headers, line-driven parser, print-and-parse |
| `HttpResponses` | HttpResponse.dfy | response printer and a framing reader |
| `Buffers`, `TcpConnections` | Buffer.dfy, TcpConnection.dfy | byte buffer, output path, half-close |
| `Epollers` | Epoller.dfy | channel index, channel table, kernel set |
| `RBTreeTimers` | RBTreeTimer.dfy | ordered timers behind one timerfd |
| `Decimal`, `LogStreams` | Decimal.dfy, LogStream.dfy | decimal text, fixed buffer, integer formatter |
| `Lines`, `Truncation`, `Wrappers` | Lines.dfy, Truncation.dfy, Wrappers.dfy | CRLF search, C++ integer division, optional values |

How it is built: where the source updates an object in place there is a class whose methods do the
same and whose postconditions equate the new state with a function of the old one; theorems about all
runs are lemmas about those functions. The two concurrent protocols (`EventLoops`, `Lifecycle`) are
transition systems whose atomic steps are the stretches of code between scheduling points, and their
theorems hold for every interleaving; the class `EventLoops.EventLoop` carries the run of that system
which led to its present state, and each of its methods extends it.

Bytes are characters, system-call results, clock readings and callback effects are parameters, the
log file is an append-only string, an epoll mask is the set of its bits, and times are nanoseconds.

Places where the code does less than one would expect, each stated as such and delimited exactly:

- Net/buffer.h:102 has the compaction copy commented out, so the branch moves the indices and not the
  bytes. `Buffers.AppendExactness` and `TcpConnections.OutputExactness` say exactly when an append and
  a connection's run survive it; `Buffers.CompactionLosesBytes` and
  `TcpConnections.ConnectionLosesBytes` are reachable losses. The parameter `move` turns the copy on:
  with it `Buffers.BufferRefinesQueue` holds without any condition.
- Http/httpserver.cpp:64 discards the leftovers of every parse. `HttpParsers.DiscardExactness` gives
  the exact condition under which no continuation can tell.
- Http/httprequestparser.cpp:72-75 never applies (`HttpParsers.BodyCheckIsDead`).
- Timer/timer.h:35 orders timers by expiration only, so a second timer with the same expiration is
  dropped: `RBTreeTimers.InsertAllMeaning` says exactly which timers survive.
- Timer/rbtreetimer.cpp:82-84 disarms the descriptor when the expiration is less than a microsecond
  away and is refused when it is past: `RBTreeTimers.ResetExactness`. What that means for a run is
  `RBTreeTimers.RunArmedExactly`, and for the timers left behind `RBTreeTimers.LostExactly`;
  `RBTreeTimers.EarlyFiringDisarms` is a run that gets there.
- Logging/asynclogging.h:40-48 stops without a final swap: `AsyncLoggings.StopLosesTail`.
- Net/buffer.cpp:6 takes the error variable by value, so every failed read closes the connection:
  `TcpConnections.FailedReadCloses`.
- Net/eventloop.cpp:91 does not wake a loop whose own thread queues before `loop()`:
  `EventLoops.EarlyPushExactness`.
- Net/eventloop.cpp:63 sets the flag again, so a quit made before `loop()` is lost:
  `EventLoops.QuitExactness`, `EventLoops.EarlyQuitIsLost`.
- Net/epoller.cpp:54-68 adds a descriptor with an empty mask when everything is disabled on a channel
  that is not in the kernel set: `Epollers.Channel.DisableAll`.

## Model

| member | source | states |
|---|---|---|
| `AsyncLoggings.LoggerConserves` | Logging/asynclogging.cpp:14-103 | from the initial pool, every interleaving of appends and back-end steps is free of null or empty-vector accesses, never gives a buffer two owners, and log ++ back-end buffers ++ full buffers ++ current buffer is exactly the accepted messages in order; the log is a prefix of them |
| `AsyncLoggings.RunConserves` | Logging/asynclogging.cpp:42-103 | the same from any state satisfying the pool invariant, for any run |
| `AsyncLoggings.StepConserves` | Logging/asynclogging.cpp:14-101 | one step loses, duplicates and reorders nothing, and only the swap moves text from the front end to the back end |
| `AsyncLoggings.StepKeepsUnshared` | Logging/asynclogging.cpp:23-32 | moving pointers never gives a buffer a second owner; new buffers get new identities |
| `AsyncLoggings.RunKeepsUnshared` | Logging/asynclogging.cpp:46-99 | over all runs, each buffer identity is held by at most one pointer |
| `AsyncLoggings.StepKeepsInv` | Logging/asynclogging.cpp:57-99 | whenever the mutex is free the current buffer exists, a null next buffer means a full one is waiting, and both spares are present and empty at the loop top; no step is undefined |
| `AsyncLoggings.AppendMeaning` | Logging/asynclogging.cpp:14-35 | a message goes to the current buffer if that leaves a byte to spare, and else starts the spare buffer, or a new one, with the current one filed as full |
| `AsyncLoggings.StepPhase` | Logging/asynclogging.cpp:53-102 | the back end tests, swaps, writes, recycles and tests again, and leaves at a test after stop |
| `AsyncLoggings.SwapReachesFile` | Logging/asynclogging.cpp:56-81 | once the swapped buffers are written, the file holds exactly what had been accepted before the swap, whatever was appended meanwhile |
| `AsyncLoggings.StopLosesTail` | Logging/asynclogging.h:40-48 | in every run that ends with the thread gone, before its first swap too, the file holds exactly the messages accepted before the last swap and the front end exactly the later ones; the log is complete if and only if there are none |
| `AsyncLoggings.MessageLostAtStop` | Logging/asynclogging.h:40-48 | a run of four steps that loses its only message |
| `AsyncLoggings.RestartDeliversTail` | Logging/asynclogging.h:49-53 | a second start after a stop takes everything left behind at its first swap |
| `AsyncLoggings.AsyncLogging.Append` | Logging/asynclogging.cpp:14-35 | append or rotate, message by message |
| `AsyncLoggings.AsyncLogging.StartAsyncLogging` | Logging/asynclogging.cpp:46-49 | two new empty spare buffers, at the first start and after a stop |
| `AsyncLoggings.AsyncLogging.SwapBuffers` | Logging/asynclogging.cpp:63-71 | the critical section as one step |
| `AsyncLoggings.AsyncLogging.WriteBuffers` | Logging/asynclogging.cpp:77-81 | the loop appends every taken buffer, in order, to the log |
| `AsyncLoggings.AsyncLogging.RecycleBuffers` | Logging/asynclogging.cpp:82-99 | resize, back, pop_back, reset, clear as one step |
| `LogStreams.FixedBuffer.Append` | Logging/logstream.h:43-50 | appends in place, or drops a message that leaves no spare byte |
| `LogStreams.LogStream.FormatInteger` | Logging/logstream.h:84-107 | for every signed or unsigned 64-bit value appends its canonical decimal text when 48 bytes are free, touches at most 21 bytes from the write position on, and leaves everything else alone |
| `LogStreams.WriteDigits` | Logging/logstream.h:94-99 | the do-while loop with truncating remainder writes the digits of the magnitude, lowest first |
| `LogStreams.WriteInteger` | Logging/logstream.h:89-105 | digits, sign, NUL and in-place reversal leave the text followed by NUL |
| `LogStreams.ReverseRange` | Logging/logstream.h:104 | reverses a range in place |
| `LogStreams.MirroredDigit` | Logging/logstream.h:13-14 | the mirrored table gives the digit of the magnitude for negative remainders too |
| `LogStreams.ReversedLowFirst` | Logging/logstream.h:94-104 | reversing the loop's output gives the number as written |
| `Decimal.TextRoundTrip` | Logging/logstream.h:84-107 | the text is canonical and parses back to the number |
| `Decimal.CanonicalTextIsUnique` | Logging/logstream.h:84-107 | no other canonical string denotes that number |
| `Decimal.TextLength` | Logging/logstream.h:12 | at most 20 characters for 64-bit values |
| `EventLoops.NoLostWakeup` | Net/eventloop.cpp:60-128 | in every interleaving of any number of threads: the loop never sleeps on a non-empty queue with nobody about to wake it, never sleeps with its flag cleared and nobody about to wake it, and the functors run, the rest of the batch and those waiting are the pushes of the run, in order |
| `EventLoops.RunHistory` | Net/eventloop.cpp:54-128 | over every run, the place of the loop thread, the functors pushed, the flag, the readability of the eventfd and the threads in the middle of a call are what the events of the run say |
| `EventLoops.TestExactness` | Net/eventloop.cpp:63-64 | the loop polls if and only if the last of its entry and the quits was the entry, and returns otherwise |
| `EventLoops.LeavesOnlyWhenAsked` | Net/eventloop.cpp:60-77 | loop() returns only if a quit was made |
| `EventLoops.QuitExactness` | Net/eventloop.cpp:54-64 | over all runs, a quit, from whatever thread, is honoured in every continuation if and only if loop() has been entered when it stores its flag |
| `EventLoops.EarlyQuitIsLost` | Net/eventloop.cpp:63 | a quit completed before loop(), and the loop goes to sleep |
| `EventLoops.RunKeepsStopping` | Net/eventloop.cpp:54-64 | once told to stop inside loop(), the flag stays cleared and every sleep has a wakeup under way |
| `EventLoops.EarlyPushExactness` | Net/eventloop.cpp:85-92 | entering the loop is free of lost wakeups in all continuations if and only if a wakeup covers the queue at that point |
| `EventLoops.EarlyPushIsStuck` | Net/eventloop.cpp:91 | one push by the loop thread before loop() leaves it asleep on a non-empty queue |
| `EventLoops.DrainRunsTheBatch` | Net/eventloop.cpp:115-128 | whatever the functors queue, a drain runs exactly the swapped batch, in order, and makes no more calls than that |
| `EventLoops.WakeupLeadsToDrain` | Net/eventloop.cpp:64-76 | a written wakeup lets the loop reach a drain of everything that was waiting |
| `EventLoops.StepKeepsInv` | Net/eventloop.cpp:85-128 | each step keeps the coverage of the queue and the push order |
| `EventLoops.EventLoop.QueueInLoop` | Net/eventloop.cpp:85-92 | pushes, and wakes unless on the loop thread outside a drain; as steps of the transition system |
| `EventLoops.EventLoop.Wakeup` | Net/eventloop.cpp:94-102 | adds one to the eventfd counter, or leaves it at its maximum; the wakeup step of the thread that owes it |
| `EventLoops.EventLoop.Quit` | Net/eventloop.cpp:54-58 | clears the flag and wakes the loop unless called on its own thread |
| `EventLoops.EventLoop.HandleRead` | Net/eventloop.cpp:104-112 | empties the eventfd counter |
| `EventLoops.EventLoop.EnterLoop` | Net/eventloop.cpp:60-63 | sets the flag |
| `EventLoops.EventLoop.Pass` | Net/eventloop.cpp:64-76 | one pass: leaves if the flag is down, else polls, runs the handlers and drains, serving what the handlers queued in the same pass |
| `EventLoops.EventLoop.DoPendingFunctors` | Net/eventloop.cpp:115-128 | extends the run by a drain: runs the swapped functors once each in order, leaves what they queue for the next pass, with a wakeup written |
| `Lifecycle.LifecycleIsSafe` | Net/tcpserver.cpp:49-85 | in every run over any loops and connections no source assertion fails, no live table entry is overwritten, no object is used after destruction (the raw pointer of forceClose included); establish, close, remove and destruct happen at most once and in order; a destructed connection is in no channel table and no kernel set; registered descriptors are distinct |
| `Lifecycle.QuiescentIsComplete` | Net/tcpserver.cpp:49-85 | when the queues are drained, every accepted connection has been established and every closed one removed and destructed; the table holds exactly the others |
| `Lifecycle.TornDownExactly` | Net/tcpconnection.cpp:53-100 | when every queue is drained, the connections closed, removed and destructed are exactly those whose peer has gone or on which forceClose was called while open |
| `Lifecycle.StagesAreExact` | Net/tcpserver.cpp:49-85 | over every run, a stage of a connection has been run if and only if the run contains the event that runs it; closing means a closing dispatch or an executed forced close while open |
| `Lifecycle.ConnectionsAreAccepts` | Net/tcpserver.cpp:49-71 | the connections of a run are its accepts in order, each with its descriptor on its loop |
| `Lifecycle.DispatchMeaning` | Net/tcpconnection.cpp:53-100 | an end of file or an error closes the connection, once, off the kernel set, with its removal run or queued; any other read changes nothing here |
| `Lifecycle.TaskMeaning` | Net/tcpconnection.cpp:190-206 | each functor runs its own stage for its own connection; a forced close closes an open connection and else does nothing |
| `Lifecycle.CallMeaning` | Net/tcpconnection.cpp:155-197 | forceClose on an open connection queues a close on its loop, shutDown leaves the connected state, neither touches a closed one |
| `Lifecycle.StepMovesLoops` | Net/eventloop.cpp:64-76 | phase, channels to dispatch and batch of a loop change with that loop's own events only |
| `Lifecycle.StepKeepsInv` | Net/tcpserver.cpp:49-85 | every step keeps the invariant behind the two results above |
| `Lifecycle.AcceptKeepsInv` | Net/tcpserver.cpp:49-69 | a new connection takes a free table slot and its establishment is run or queued |
| `Lifecycle.DispatchKeepsInv` | Net/tcpconnection.cpp:53-100 | a channel still to be dispatched belongs to an open connection, so the assertion of handleClose holds |
| `Lifecycle.RunNextKeepsInv` | Net/tcpconnection.cpp:190-206 | running the next functor of any kind keeps the invariant |
| `Lifecycle.CloseStable` | Net/tcpconnection.cpp:145-153 | handleClose on the base loop or on another loop leaves exactly one removal due |
| `Lifecycle.RemoveStable` | Net/tcpserver.cpp:76-85 | removal erases the connection's own entry and leaves exactly one destruction due |
| `Lifecycle.DestroyStable` | Net/tcpconnection.cpp:41-51 | connectionDestructor finds the channel registered and takes it out of the table |
| `Lifecycle.EstablishStable` | Net/tcpconnection.cpp:32-39 | establishment registers the channel once |
| `Lifecycle.UnreferencedIsDone` | Net/tcpconnection.cpp:26-30 | a connection without shared pointers has been destructed and no raw pointer to it is queued |
| `HttpRequests.RequestLineExact` | Http/httprequest.cpp:11-54 | a line is accepted if and only if it is method SP target SP version |
| `HttpRequests.RequestLineAccepted` | Http/httprequest.cpp:11-54 | which fields an accepted line sets |
| `HttpRequests.RequestLineRejected` | Http/httprequest.cpp:11-54 | what each kind of rejected line leaves in the request |
| `HttpRequests.TargetSplit` | Http/httprequest.cpp:25-35 | the target is cut at its first question mark; without one the query stays |
| `HttpRequests.MethodExact` | Http/httprequest.h:70-81 | the nine method names, and no other text |
| `HttpRequests.VersionExact` | Http/httprequest.cpp:37-52 | the two version texts, the protocol name in either case, and no other text |
| `HttpRequests.HttpRequest.ParseRequestLine` | Http/httprequest.cpp:11-54 | result and every field assigned, on failure too |
| `HttpRequests.HttpRequest.SetVersion` | Http/httprequest.cpp:38-53 | accepts the two versions, case-insensitively |
| `HttpRequests.HttpRequest.AddHeader` | Http/httprequest.cpp:56-70 | stores under the name as it stands the text after the colon without its surrounding white space |
| `HttpRequests.SkipSpaces` | Http/httprequest.cpp:60-63 | the loop over leading white space |
| `HttpRequests.DropTrailingSpaces` | Http/httprequest.cpp:64-68 | the loop over trailing white space |
| `HttpRequests.TrimCuts` | Http/httprequest.cpp:59-68 | trimming cuts off the white space at both ends and nothing else |
| `HttpRequests.HttpRequest.Swap` | Http/httprequest.h:54-61 | exchanges everything but the posted form |
| `HttpRequests.MethodText` | Http/httprequest.h:70-81 | every method has a name that maps back to it |
| `HttpParsers.ChunkingIndependence` | Http/httprequestparser.cpp:3-79 | however a byte string is cut, between CR and LF too, the parser ends in the state and with the request of one call on the whole, and with the same leftovers unless in error |
| `HttpParsers.ParseSplit` | Http/httprequestparser.cpp:3-79 | the same for one cut, from any parser outside the body state |
| `HttpParsers.FeedAllIsParse` | Http/httprequestparser.cpp:3-79 | the same for any number of chunks from any reachable parser and leftovers |
| `HttpParsers.DiscardExactness` | Http/httpserver.cpp:53-64 | discarding the leftovers goes unnoticed on every continuation if and only if there are none, or the parser failed, or it is complete and they do not end in CR |
| `HttpParsers.OnMessageOnLineEnds` | Http/httpserver.cpp:53-64 | when every chunk ends a line, onMessage ends like one call on the whole string |
| `HttpParsers.ParseKeeps` | Http/httprequestparser.cpp:12-77 | the body state is never entered, the posted form stays empty, states only advance, no complete line is left unread except after an error |
| `HttpParsers.ParseConsumesLines` | Http/httprequestparser.cpp:5-11 | what leaves the buffer is whole lines, at least two bytes each |
| `HttpParsers.CompleteExactly` | Http/httprequestparser.cpp:3-79 | a fresh parser takes a byte string for a complete request if and only if it is an accepted request line, lines with a colon, a blank line, and nothing with a line end after that |
| `HttpParsers.MessageParses` | Http/httprequestparser.cpp:12-45 | the request such a string yields, and what stays unread |
| `HttpParsers.HeaderLineStored` | Http/httprequestparser.cpp:27-38 | any name without a colon, a colon and any text set that field to the text without surrounding white space, and nothing else |
| `HttpParsers.HeaderLineExact` | Http/httprequestparser.cpp:27-45 | a non-empty header line is accepted if and only if it has a colon; otherwise error, with the request unchanged |
| `HttpParsers.RequestLineStep` | Http/httprequestparser.cpp:14-26 | the request line is accepted if and only if it has the RFC's shape; otherwise error |
| `HttpParsers.BodyCheckIsDead` | Http/httprequestparser.cpp:72-75 | the check after the switch never applies |
| `HttpParsers.ResetIsFresh` | Http/httprequestparser.h:21-26 | in every run of chunks and resets, reset gives a parser equal to a fresh one although swap skips the posted form |
| `HttpParsers.CompleteThenError` | Http/httprequestparser.cpp:66-70 | without a reset, the next line after a complete request is an error |
| `HttpParsers.HttpRequestParser.ParseContent` | Http/httprequestparser.cpp:3-79 | the loop over the buffer computes the specified parse of its unread bytes |
| `HttpParsers.HttpRequestParser.HandleLine` | Http/httprequestparser.cpp:12-71 | the switch on one line |
| `HttpParsers.HttpRequestParser.ReceiveMessage` | Http/httpserver.cpp:53-64 | reading into the input buffer, parsing and discarding never compacts, so the parser sees every byte received |
| `HttpParsers.HttpRequestParser.ResetParser` | Http/httprequestparser.h:21-26 | a new request, the posted form kept |
| `HttpRoundTrip.RequestRoundTrip` | Http/httprequestparser.cpp:12-45 | printing any request free of delimiters, its fields in any order, and parsing gives it back, complete, with an empty buffer |
| `HttpRoundTrip.ChunkedRequestRoundTrip` | Http/httprequestparser.cpp:3-79 | the same for any chunking of the printed text |
| `HttpRoundTrip.PrintedHeadersParse` | Http/httprequestparser.cpp:27-45 | header lines in any order build the header map |
| `HttpRoundTrip.PrintedLineParses` | Http/httprequest.cpp:11-54 | the printed request line sets method, path, query and version |
| `HttpResponses.ResponseFraming` | Http/httpresponse.cpp:7-25 | a reader using the first blank line and Content-length recovers all bodies of any keep-alive session, with or without a closing response at the end |
| `HttpResponses.ReadOneBody` | Http/httpresponse.cpp:7-25 | one response in front of any stream |
| `HttpResponses.HeadReadsBack` | Http/httpresponse.cpp:7-25 | a reader of the head recovers status code, reason, content type, server and whether the connection stays open |
| `HttpResponses.ContentLengthOf` | Http/httpresponse.cpp:11-19 | the length field is present exactly on keep-alive responses and is the body's size |
| `HttpResponses.AppendToBuffer` | Http/httpresponse.cpp:7-25 | the appends leave the printed response in a buffer that cannot compact |
| `Buffers.BufferRefinesQueue` | Net/buffer.h:54-110 | every run of append, readFd, retrieve and retrieveAll keeps the index invariant and the byte count, and is a byte queue while compaction is not taken; with the copy active it is one always |
| `Buffers.StepRefinesQueue` | Net/buffer.h:54-110 | the same for one call; compaction needs a read index of at least 9 and unread bytes |
| `Buffers.AppendExactness` | Net/buffer.h:96-105 | an append keeps the queue contents if and only if it does not compact or the stale bytes equal the unread ones |
| `Buffers.CompactionLosesBytes` | Net/buffer.h:99-105 | in a buffer of any capacity from 10 on, the server's 1024 included, a fill, a partial retrieve and an append hand out a consumed byte |
| `Buffers.EnsuredHasRoom` | Net/buffer.h:96-110 | enough room afterwards, unread bytes kept outside compaction, what compaction leaves instead, and exactly when and by how much the storage grows |
| `Buffers.ReadInMeaning` | Net/buffer.cpp:6-33 | the two-segment read appends all bytes delivered unless its overflow compacts, and what it leaves then |
| `Buffers.Buffer.EnsureWriteableBytes` | Net/buffer.h:96-110 | the three branches on the real fields |
| `Buffers.Buffer.Append` | Net/buffer.h:54-60 | appends to the unread bytes unless it compacts |
| `Buffers.Buffer.Retrieve` | Net/buffer.h:77-88 | drops the first bytes |
| `Buffers.Buffer.RetrieveAll` | Net/buffer.h:89-93 | empties the buffer |
| `Buffers.Buffer.RetrieveUntilIndex` | Net/buffer.h:71-76 | drops the bytes before a position |
| `Buffers.Buffer.ReadFd` | Net/buffer.cpp:6-33 | fills the tail, then appends the overflow |
| `Buffers.Buffer.RetrieveAllAsString` | Net/buffer.h:124-129 | returns the unread bytes and empties the buffer |
| `Lines.FindCRLF` | Net/buffer.h:113-117 | the first CRLF, if any |
| `Lines.FindCRLFStable` | Net/buffer.h:113-117 | later bytes never move it |
| `TcpConnections.OutputConservation` | Net/tcpconnection.cpp:102-122 | in every run with arbitrary partial or refused writes, socket bytes ++ output buffer is the accepted messages (in number always, in content while the buffer has not compacted), and write interest is on exactly while bytes wait, until disconnection |
| `TcpConnections.SendMeaning` | Net/tcpconnection.cpp:246-287 | how many bytes of a message go to the socket at once, and that the rest waits and is watched for, for each result of the write |
| `TcpConnections.WriteMeaning` | Net/tcpconnection.cpp:102-122 | exactly the bytes taken move to the socket; with none left the watching stops and a closing connection is half-closed |
| `TcpConnections.OutputExactness` | Net/tcpconnection.cpp:246-287 | contents and order are conserved after every step of a run if and only if no send of it compacts the output buffer over differing bytes |
| `TcpConnections.SendExactness` | Net/tcpconnection.cpp:246-287 | one send appends its message to what was sent or waits if and only if it does not compact, or compacts over equal bytes |
| `TcpConnections.EarlySendsAreSafe` | Net/tcpconnection.cpp:246-287 | a run whose sends all find a read index of at most 8 never compacts |
| `TcpConnections.ConnectionLosesBytes` | Net/tcpconnection.cpp:246-287 | a legal run of a new connection after which the stream differs from what was accepted |
| `TcpConnections.GracefulShutdown` | Net/tcpconnection.cpp:155-206 | SHUT_WR is issued at most once, only with everything accepted handed over, nothing is accepted or sent afterwards, and a requested shutdown is outstanding only while bytes wait |
| `TcpConnections.ShutDownCompletes` | Net/tcpconnection.cpp:155-188 | in every run with a shutDown made while connected nothing is accepted afterwards, and SHUT_WR has been issued exactly once as soon as no byte waits, unless the connection is disconnected otherwise |
| `TcpConnections.ShutDownStarts` | Net/tcpconnection.cpp:155-170 | shutDown on a connected connection makes it closing and issues SHUT_WR at once if and only if nothing waits |
| `TcpConnections.ForceCloseCompletes` | Net/tcpconnection.cpp:190-206 | in every run with a forceClose made while open nothing is accepted afterwards, and the connection is disconnected once no forced close is queued |
| `TcpConnections.ForceCloseStarts` | Net/tcpconnection.cpp:190-197 | forceClose on an open connection makes it closing and queues one close |
| `TcpConnections.ForceCloseEnds` | Net/tcpconnection.cpp:199-206 | running a queued close uses it up and disconnects |
| `TcpConnections.ShutdownIsFinal` | Net/tcpconnection.cpp:112-119 | after SHUT_WR no run sends, accepts or repeats it |
| `TcpConnections.NothingAcceptedAfterShutDown` | Net/tcpconnection.cpp:208-226 | once closing, no run accepts a message or reopens |
| `TcpConnections.ForcedCloseCompletes` | Net/tcpconnection.cpp:190-206 | in every run a closing connection without a half-close request has a forced close queued, and a queued forced close always ends disconnected |
| `TcpConnections.FailedReadCloses` | Net/tcpconnection.cpp:53-100 | end of file and every failed read close; handing errno back would differ if and only if the socket was merely empty |
| `TcpConnections.SendKeepsInv` | Net/tcpconnection.cpp:246-287 | a send keeps conservation and the write-interest equivalence |
| `TcpConnections.TcpConnection.Send` | Net/tcpconnection.cpp:213-226 | accepts only while connected |
| `TcpConnections.TcpConnection.SendInLoop` | Net/tcpconnection.cpp:246-287 | direct write, queueing of the rest, dropping on a broken pipe |
| `TcpConnections.TcpConnection.HandleWrite` | Net/tcpconnection.cpp:102-122 | writes from the buffer, stops watching when empty, then half-closes if asked to |
| `TcpConnections.TcpConnection.ShutDown` | Net/tcpconnection.cpp:155-163 | starts the half-close once |
| `TcpConnections.TcpConnection.ShutDownInLoop` | Net/tcpconnection.cpp:165-188 | half-closes unless bytes wait |
| `TcpConnections.TcpConnection.ForceClose` | Net/tcpconnection.cpp:190-197 | queues a close |
| `TcpConnections.TcpConnection.ForceCloseInLoop` | Net/tcpconnection.cpp:199-206 | closes if still open |
| `TcpConnections.TcpConnection.HandleClose` | Net/tcpconnection.cpp:145-153 | disconnects and drops all interest |
| `TcpConnections.TcpConnection.HandleRead` | Net/tcpconnection.cpp:53-100 | end of file and every error close |
| `Epollers.RegistrationAgrees` | Net/epoller.cpp:45-115 | over every run of enables, disables, final removes and destructions of any number of channels with distinct descriptors: no assertion fails, every ADD, MOD and DEL is accepted, a channel in use is in the kernel if and only if its index is Added, with its own mask, kernel descriptors are among the table's, and removed or destroyed channels are pointed to from nowhere |
| `Epollers.FaultExactness` | Net/epoller.cpp:51-104 | a switch fails if and only if the channel was removed, a remove if and only if it is not in the table, a destruction never |
| `Epollers.SharedFdFaults` | Net/epoller.cpp:54-68 | with a descriptor in use by another channel the first switch is refused |
| `Epollers.StepKeepsInv` | Net/epoller.cpp:45-115 | every legal call succeeds and keeps the agreement |
| `Epollers.SwitchMeaning` | Net/epoller.cpp:51-86 | a switch puts the channel into table and kernel with the new mask, or takes it out of the kernel if it was in and the mask is empty, and changes nothing else |
| `Epollers.RemoveMeaning` | Net/epoller.cpp:88-104 | a remove takes exactly the channel's own entries out of table and kernel |
| `Epollers.DestroyMeaning` | Net/channel.cpp:6-13 | a destruction succeeds in every state of the channel and takes out exactly its own entries |
| `Epollers.Epoller.UpdateChannel` | Net/epoller.cpp:51-86 | the three-way branch on the index, with its assertions and epoll_ctl calls, on table, kernel and index |
| `Epollers.Epoller.RemoveChannel` | Net/epoller.cpp:88-104 | takes the channel out of table and kernel and keeps the agreement of all channels |
| `Epollers.Channel.SetEvents` | Net/channel.h:60-64 | whatever the new mask, the kernel holds it and other channels are unaffected |
| `Epollers.Channel.EnableReading` | Net/channel.h:60 | read interest on, write interest as before, in the kernel; every other channel, table entry and kernel entry untouched |
| `Epollers.Channel.EnableWriting` | Net/channel.h:61 | write interest on, read interest as before, in the kernel; every other channel, table entry and kernel entry untouched |
| `Epollers.Channel.DisableReading` | Net/channel.h:62 | read interest off, write interest as before, out of the kernel only on losing its last event; every other channel, table entry and kernel entry untouched |
| `Epollers.Channel.DisableWriting` | Net/channel.h:63 | write interest off, read interest as before, out of the kernel only on losing its last event; every other channel, table entry and kernel entry untouched |
| `Epollers.Channel.DisableAll` | Net/channel.h:64 | leaves the kernel set if and only if the channel was in it |
| `Epollers.Channel.Destroy` | Net/channel.cpp:6-13 | for a channel in use, new, or removed before: nothing in table or kernel points to it afterwards, and other entries stay, one that reuses its descriptor included |
| `Epollers.SwitchesAreIndependent` | Net/channel.h:60-66 | each switch sets its own interest and leaves the other |
| `Epollers.SwitchBits` | Net/channel.h:60-64 | which epoll bits each switch sets or clears |
| `RBTreeTimers.SchedulerIsPriorityQueue` | Timer/rbtreetimer.cpp:45-144 | with pairwise distinct expirations every run fires the same batches in the same order as an abstract priority queue and leaves the same timers |
| `RBTreeTimers.SortedIsUnique` | Timer/rbtreetimer.h:47-57 | the batch the abstract queue fires is determined by its contents |
| `RBTreeTimers.ExpiredMeaning` | Timer/rbtreetimer.cpp:131-134 | exactly the timers before now expire, ascending; the others remain |
| `RBTreeTimers.FiringKeepsTheRest` | Timer/rbtreetimer.cpp:131-143 | a firing keeps all others and exactly those of the added and restarted timers whose expiration is free |
| `RBTreeTimers.RepeatIsPending` | Timer/rbtreetimer.cpp:105-112 | where no expirations meet, each repeating timer that fired is pending again, itself, one period after its restart |
| `RBTreeTimers.RepeatIsRescheduled` | Timer/timer.h:29-32 | in any case that expiration is taken afterwards |
| `RBTreeTimers.PendingOrigin` | Timer/rbtreetimer.cpp:131-143 | nothing is pending after a firing but timers not due, timers added by callbacks and repeating timers one period on |
| `RBTreeTimers.FiringsArePeriodApart` | Timer/timer.h:29-32 | over every run, two firings of a timer are more than its period apart |
| `RBTreeTimers.InsertAllMeaning` | Timer/rbtreetimer.cpp:56-68 | of any insertions exactly the first with each expiration survive |
| `RBTreeTimers.EqualExpirationIsDropped` | Timer/timer.h:35 | an add changes nothing if and only if its expiration is already pending |
| `RBTreeTimers.ResetExactness` | Timer/rbtreetimer.cpp:70-95 | deadline right to the microsecond if at least one microsecond ahead, disarmed if closer, unchanged if past |
| `RBTreeTimers.SplitIsExact` | Timer/rbtreetimer.cpp:82-86 | seconds and nanoseconds add up and the nanoseconds are in range |
| `RBTreeTimers.RunStaysArmed` | Timer/rbtreetimer.cpp:45-143 | after every timely add and firing, adds inside callbacks included, the descriptor is armed for the earliest pending timer |
| `RBTreeTimers.RunArmedExactly` | Timer/rbtreetimer.cpp:45-143 | over every run, the descriptor is armed for the earliest pending timer after each add and firing if and only if each setting was right; if no deadline passes unnoticed, if and only if each was at least a microsecond ahead |
| `RBTreeTimers.StepArmsExactly` | Timer/rbtreetimer.cpp:45-143 | the same for one step, without any condition on deadlines |
| `RBTreeTimers.AddArmsExactly` | Timer/rbtreetimer.cpp:45-54 | an add leaves the descriptor right if and only if it is timely, as long as the previous deadline has not passed |
| `RBTreeTimers.FireArmsExactly` | Timer/rbtreetimer.cpp:131-143 | a firing leaves the descriptor right if and only if the earliest timer is then at least a microsecond ahead, as long as no deadline set by its callbacks has passed |
| `RBTreeTimers.QuietFireIsPrompt` | Timer/rbtreetimer.cpp:135-139 | callbacks that add no timers leave no deadline behind |
| `RBTreeTimers.FireDisarmsExactly` | Timer/rbtreetimer.cpp:131-143 | a firing leaves pending timers without a deadline if and only if the earliest is less than a microsecond away, or past with no deadline set by a callback |
| `RBTreeTimers.EarlyFiringDisarms` | Timer/rbtreetimer.cpp:82-84 | a timer not a whole number of microseconds ahead, fired at its cut deadline, ends pending on a disarmed descriptor |
| `RBTreeTimers.LostExactly` | Timer/rbtreetimer.cpp:45-143 | a disarmed scheduler stays so, firing nothing and keeping its timers, exactly as long as no add is both the earliest and a microsecond ahead |
| `RBTreeTimers.LaterAddsLeaveItLost` | Timer/rbtreetimer.cpp:56-68 | adds not earlier than the head never revive it |
| `RBTreeTimers.RBTreeTimer.InsertTimer` | Timer/rbtreetimer.cpp:56-68 | set insertion, and whether the earliest changed |
| `RBTreeTimers.RBTreeTimer.ResetTimerFd` | Timer/rbtreetimer.cpp:70-95 | arms the descriptor |
| `RBTreeTimers.RBTreeTimer.AddTimerInLoop` | Timer/rbtreetimer.cpp:45-54 | inserts and arms if earliest |
| `RBTreeTimers.RBTreeTimer.HandleRepeatTimer` | Timer/rbtreetimer.cpp:105-112 | reinserts a repeating timer at its new time |
| `RBTreeTimers.RBTreeTimer.RunAllExpired` | Timer/rbtreetimer.cpp:135-139 | the loop runs each expired timer once, in order |
| `RBTreeTimers.RBTreeTimer.HandleRead` | Timer/rbtreetimer.cpp:114-144 | runs exactly the timers expired at entry, in order, then arms for the earliest |

## Left out

- Log files: rolling, flushing and file names (Logging/logfile.cpp, Logging/logging.cpp).
- AsyncLoggings: a heap buffer is an identity and a text; that its bytes are updated in place is shown for `LogStreams.FixedBuffer` only, and the model adds no data race.
- EventLoops and Lifecycle: one atomic step per stretch of code. Each method of the class `EventLoops.EventLoop` extends a run of the transition system, but no other thread's steps come in between its own; Lifecycle has values instead of objects.
- EventLoop::loop as one method: it need not end, so one pass is a method (`EventLoops.EventLoop.Pass`) and the runs are those of the transition system; `loop()` is entered at most once.
- Lifecycle: callers on the connection's own loop thread only; unsynchronised calls from other threads, the idle-connection timer, server teardown and the choice of the I/O loop are not modelled.
- TcpConnections: callers on the loop thread only; the channel is reduced to its write interest, whose registration is the subject of Epollers.
- Epollers: two channels in use never share a descriptor, which the callers owe (Lifecycle shows it for connections); closing a descriptor that is still registered, as at server teardown, is not modelled.
- Channel::handleEventWithGuard: the order of callbacks within one dispatch, because the results hold for reads and writes in any order.
- HttpRequests.HttpRequest.ParseRequestBody: the regular expression of parsePost is replaced by the left-to-right split it performs; it is reached only from the body state, which no run enters.
- HttpRequest::header, which returns a reference to a local.
- HttpServer::handleRequest and the response callback: application content.
- LogStream: floating-point and pointer formatting.
- Timestamps: text formatting; the interval of a timer is taken in whole microseconds, as the conversion leaves it.
- Connection ids and their wrap-around: not used as keys.
- Acceptor, Address, LoopThreadPool, threadpool.hpp and lockfreequeue.hpp: socket set-up, round robin, and code the server does not use.
