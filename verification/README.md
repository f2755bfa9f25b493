# Verified model of the netknot completion engine and its HTTP server

netknot is an asynchronous socket library.  On Windows a fixed set of worker threads serves one I/O completion port;
reads, writes and accepts are reference-counted tasks that a completion packet leads back to.  `example/rdparse` is an
HTTP/1.1 server on top of it: an incremental request reader, a route table and a staged response writer.

## What is modelled

**The engine.**  `Engine` gives the system as atomic steps: every issuer and worker thread has a program counter naming
the source line it is about to execute, the kernel completes an operation at any time after it was issued, and the thread
inside `run` posts its null-key packets and joins.  A schedule is any sequence of enabled steps.  The start of the I/O
comes before the post into `currentTasks`, as in the source, so a packet can be examined before its task is posted.
`EngineInvariant` states one inductive invariant, `EngineSteps` shows that every step keeps it, `EngineSafety`,
`EngineRuns` and `Shutdown` draw the consequences.  `EngineService` is the same engine as the mutable object it is, one
method per atomic action: each makes exactly the corresponding step, keeps the invariant, and states what the stepping
thread can rely on.

**The server.**  `Reader` is the read callback of a connection as a class whose fields change chunk by chunk; `Chunks` and
`BadCuts` say how its result depends on where the chunks were cut, and `Requests` what a whole request is for it.
`HeaderFields`, `ContentLength` and `RequestTarget` are its parsers, `RouteTable` the two-level table with its rollback,
`ResponseWriter` the staged printer.  `Server` plugs the reader into the engine and puts the reply together.

| file | holds |
|---|---|
| Basics.dfy, Text.dfy | optional values, sums, string searches |
| Engine.dfy | state, guards, steps, runs |
| EngineInvariant.dfy, EngineSteps.dfy | the invariant and its preservation |
| EngineSafety.dfy, EngineRuns.dfy, Shutdown.dfy | safety in reachable states, claims over runs, shutdown |
| EngineService.dfy | the engine as a class |
| HeaderFields.dfy, ContentLength.dfy, RequestTarget.dfy | the parsers of the request |
| Reader.dfy, Chunks.dfy, BadCuts.dfy, Requests.dfy | the incremental reader, its chunkings, and whole requests |
| RouteTable.dfy, ResponseWriter.dfy | routes and responses |
| Server.dfy | the reader on the engine, and the reply |

## Which version is proved

The code departs from its evident intent in a few places.  The model follows the code, and where it helps it carries the
intended behaviour as a second value of a parameter.

* `example/rdparse/server.cc:232` drops the first character of every header value.  `skip` is 1 as written and 0 as meant;
  every field lemma holds for both.  As written, no non-empty list of printed fields is read back (`RoundTripAsWritten`),
  and a printed Content-Length loses its leading digit.  An empty value, which section 5.5 of RFC 9110 allows, takes the
  whole line after it (`EmptyValueSwallowsNextLine`) or, if there is none, ends the process (`TerminatesAsWritten`,
  `EmptyLastValueTerminates`).  `PrintedIsRead` says what is read of any printed list.
* `example/rdparse/server.cc:274-275` leaves the line open when a chunk ends right after its line break, and lines
  282-285 and 309-314 do not cut the accumulated text at a separator found in it.  `cuts` is false as written and true as
  meant.  As written, the boundaries that spoil a request are given exactly; as meant, no boundary does.
* `example/rdparse/server.cc:297` looks for an empty line that follows a field, after the request line's own break has been
  removed.  A request without fields, which section 2.1 of RFC 9112 allows, is therefore never recognised, in either
  version: `FieldlessRequestWaits` says what happens instead, and `FieldlessSwallowsNextRequest` what becomes of the next
  request.  The exact conditions under which a printed request is held as its client meant it are those of
  `IntendedRequestDelivered`: a field, values that survive the dropped characters, fields that do not refuse it, and, as
  written, clean cuts.
* `netknot/win/socket.cc:237` and `289` take the caller's reference after the post with no counted local one.  Lifetime is
  claimed for reads; for the other two `LateIncrementExact` says exactly when the late increment hits a destroyed task and
  `LateIncrementCanTouchDestroyed` gives a reachable state in which it does.
* `netknot/win/socket.cc:195-203` starts the I/O before the post.  `MatchedIffPosted` says exactly when a packet is
  dropped for that, `CompletionCanBeLost` gives a reachable state and `MissedForever` says that the callback then never
  starts.
* `netknot/win/socket.cc:197-200` returns without releasing the block it has linked; `FailedStartLeaks` says that such a
  read is never destroyed.
* `example/rdparse/server.cc:486` asserts that the registry is there, which does not hold when the reservation itself has
  failed; removal is modelled as plain map removal.
* `example/rdparse/server.cc:392`, `416` and `418` ignore the result of `writeResponse`; `AnswerRequest` therefore only
  promises the beginning of the response when memory runs out.
* `example/rdparse/server.cc:391` refuses a `?` inside a fragment, which section 3.5 of RFC 3986 allows.

`peff` is not part of this model: `RcObjectPtr` increments on construction and copy and decrements on destruction, `Set`
and `HashMap` are a set and a map whose insertion may fail and leave them as they were, an entry that is already there
stays, and `ScopeGuard` runs unless it is released.

## Model

| member | source | states |
|---|---|---|
| EngineSteps.KeepStep | netknot/win/io_service.cc:18-95 | every atomic step of every thread keeps the engine's invariant |
| EngineSteps.KeepRun | netknot/win/io_service.cc:18-179 | so does every run of every interleaving |
| EngineSafety.ReferenceConservation | netknot/win/socket.cc:176-209 | in every reachable state a task's count is the block's reference until the explicit drop, plus membership in the set, plus the reader's local pointer, plus the caller's handle, plus the workers' local pointers; a read is destroyed exactly when that is zero, once |
| EngineSafety.NoTouchAfterDestruction | netknot/win/io_service.cc:35-59 | no step touches a read task or its block after destruction; for writes and accepts whose start and post succeed, the late increment and the handle it hands out are the only exceptions |
| EngineRuns.DestructionIsFinal | netknot/socket.h:66-73 | a destroyed read stays as it is for the rest of the run: it is not counted, touched or destroyed again |
| EngineSafety.ReadDestroyedExactly | netknot/win/socket.cc:176-209 | in every reachable state a read is destroyed, once, exactly if no thread is issuing it, its caller has dropped the handle, and its packet is spent and was taken or its block was never linked; a spent packet that no worker took leaves it to its own block |
| EngineRuns.FailedStartLeaks | netknot/win/socket.cc:187-201 | a read whose start failed after its block was linked is held by that block alone and is never destroyed, on every continuation |
| EngineSafety.LateIncrementExact | netknot/win/socket.cc:235-238 | the late increment hits a destroyed task exactly when the worker that took the task has already let go of it |
| EngineRuns.LateIncrementCanTouchDestroyed | netknot/win/socket.cc:288-290 | a reachable state in which the late increment of acceptAsync is next and its task has been destroyed |
| EngineSafety.CallbackAccounting | netknot/win/io_service.cc:38-54 | a callback starts at most once; a successfully posted task is in currentTasks or taken by a worker, never both; only a taken task is called back, and once its packet is spent every taken task has been |
| EngineSafety.MatchedIffPosted | netknot/win/io_service.cc:38-43 | a packet is matched at the membership test exactly when its task has been posted by then |
| EngineSafety.OneWorkerPerTask | netknot/win/io_service.cc:37-59 | two workers never hold the packet of one task |
| EngineSafety.CallbackSees | netknot/win/io_service.cc:49-54 | during a callback the task is done, its size is that of the delivered bytes, and its lock is held by the calling worker |
| EngineRuns.CompletionCanBeLost | netknot/win/socket.cc:195-203 | a reachable state in which a read has been posted and handed out although its packet was examined before the post, so that its callback never starts |
| EngineRuns.MissedForever | netknot/win/io_service.cc:90-91 | a task whose packet was dropped is never called back and, once posted, never leaves currentTasks |
| EngineSafety.AccessNeverContended | netknot/win/io_service.cc:45-49 | a worker that wants accessMutex gets it at once, and it does not hold currentTasksMutex |
| EngineSafety.NoDeadlock | netknot/win/io_service.cc:38-54 | a thread in the middle of something can move, or waits for currentTasksMutex whose holder can move |
| EngineSafety.ExclusiveOwnership | example/rdparse/server.cc:249-449 | no two threads are ever both where one connection's parser fields may be read or written |
| EngineSafety.OneToken | example/rdparse/server.cc:257-260 | reads in flight, owning callbacks and issued responses of one connection never exceed one together |
| EngineSafety.CallbackStartsOneIo | example/rdparse/server.cc:355-432 | a read callback starts at most one read or response, an accept callback the first read and then the next accept, a write callback nothing; it returns without an exception exactly if all of these have been posted |
| EngineSafety.VerdictsDecide | example/rdparse/server.cc:257-260 | on every schedule each read after the first was asked for by the verdict on the chunk before it, and an issued response by the verdict on the last chunk |
| EngineSafety.OperationFollowsVerdict | example/rdparse/server.cc:355-432 | the operation that a successful read callback has started is on its own connection, has been posted, and is a read exactly if the verdict on its chunk was to read more, a write exactly if it was to respond |
| EngineSafety.NoInterference | example/rdparse/server.cc:252-254 | the fields a callback read at its start are still the connection's when it writes them back, and its chunk is what the kernel delivered |
| EngineSafety.SequentialParsing | example/rdparse/server.cc:249-449 | on every schedule the parser fields are the sequential fold over the data of the connection's reads in issue order |
| EngineRuns.NothingAfterResponse | example/rdparse/server.cc:411-432 | once a response is issued, the connection's fields, chunks and reads stay as they are for the rest of the run |
| EngineRuns.ChunksOnlyGrow | example/rdparse/server.cc:252-254 | over a run the chunks a connection has consumed are only extended |
| Shutdown.NullsSuffice | netknot/win/io_service.cc:146-148 | in every reachable state the null-key packets queued or still to be posted are at least as many as the live workers |
| Shutdown.MeasureFalls | netknot/win/io_service.cc:21-33 | once the null-key packets are posted every worker step lowers the measure and no step raises it, whatever is queued meanwhile |
| Shutdown.BoundedShutdown | netknot/win/io_service.cc:146-152 | no continuation has more worker steps than the measure |
| Shutdown.LiveWorkerMoves | netknot/win/io_service.cc:21-33 | while a worker is live it can move, or it waits for a mutex whose holder can |
| Shutdown.SomeEnd | netknot/win/io_service.cc:146-152 | once the null-key packets are posted, some continuation ends with every worker exited or the process aborted |
| Shutdown.ShutdownTerminates | netknot/win/io_service.cc:146-152 | from every reachable state after the posts and along every continuation: worker steps are bounded by the measure, no live worker is stuck (it can move, or waits for a mutex whose holder can), and a further continuation ends with every worker exited or the process aborted |
| Shutdown.RunResult | netknot/win/io_service.cc:154-158 | run returns nothing exactly when every worker left through a null-key packet, otherwise the stored exception of the lowest-indexed worker that failed |
| EngineService.Win32IOService.AddRef | netknot/socket.h:62-64 | incRef on one task, all others unchanged |
| EngineService.Win32IOService.DropRef | netknot/socket.h:66-73 | decRef on one task: destroyed on reaching zero, wrapping below it |
| EngineService.Win32IOService.AllocOverlapped | netknot/win/socket.cc:295-318 | linking the block keeps the invariant; the task is alive and its count is exactly the issuer's pointer, for a read, plus the block's |
| EngineService.Win32IOService.StartIo | netknot/win/socket.cc:195-201 | handing the operation to the kernel keeps the invariant; the task is alive with its block, not yet issued, and the issuing thread owns the connection it works on |
| EngineService.Win32IOService.PostInsert | netknot/win/io_service.cc:172-176 | the insertion runs under the mutex, on a task that is alive, not in the set and taken by no worker; the set grows by it exactly on success |
| EngineService.Win32IOService.CountHandle | netknot/win/socket.cc:205-206 | the caller's increment finds a read alive; another task has been destroyed exactly if the worker that took it is through with it |
| EngineService.Win32IOService.Leave | netknot/win/socket.cc:208-209 | dropping the local pointer of a read never wraps, and destroys the read exactly when it was the last reference |
| EngineService.Win32IOService.ReleaseHandle | example/rdparse/server.cc:258-259 | dropping the caller's handle of a read never wraps, and destroys the read exactly when it was the last reference |
| EngineService.Win32IOService.GetPacket | netknot/win/io_service.cc:26-33 | the packet at the head is taken off the port; a completion leads to a task that is alive and taken by no worker, a null key ends the worker |
| EngineService.Win32IOService.GetPacketFails | netknot/win/io_service.cc:26-30 | the worker ends with the exception made of the error code in its slot |
| EngineService.Win32IOService.CheckMember | netknot/win/io_service.cc:38-40 | under the mutex and on a live task, the task is found exactly if it had been posted, is then taken, and is out of the set |
| EngineService.Win32IOService.DropOverlapped | netknot/win/io_service.cc:41 | the explicit drop of the block's reference does not wrap and leaves the task alive |
| EngineService.Win32IOService.UnlockTasks | netknot/win/io_service.cc:38-45 | the mutex is released by its holder, and the worker goes on to the callback exactly if it has taken the task |
| EngineService.Win32IOService.LockAccess | netknot/win/io_service.cc:49 | accessMutex of a live task is never refused to the worker that wants it, which does not hold currentTasksMutex |
| EngineService.Win32IOService.MarkDone | netknot/win/io_service.cc:51-52 | under accessMutex, on a live task whose callback has never started: the size becomes that of the delivered bytes, the status Done, and the callback starts for the first time |
| EngineService.Win32IOService.ReleaseRawPointer | netknot/win/io_service.cc:37-59 | the last pointer of the worker is dropped on a live task without wrapping, which destroys it exactly when the count reaches zero |
| EngineService.Win32IOService.EnterCallback | example/rdparse/server.cc:249-254 | a read callback gets the connection's current fields and exactly the delivered bytes |
| EngineService.Win32IOService.StoreFields | example/rdparse/server.cc:262-435 | a read callback leaves the connection with the reaction of its current fields to the delivered bytes and goes on to a read or to the response as that reaction says, or aborts exactly if it does |
| EngineService.Win32IOService.ReturnFromCallback | netknot/win/io_service.cc:54-57 | the exception is stored exactly if there is one, and without one the operations that the kind of callback requires have been started and posted |
| EngineService.Win32IOService.FirstStored | netknot/win/io_service.cc:154-156 | the loop returns the first filled exception slot |
| EngineService.Win32IOService.Drive | netknot/win/io_service.cc:18-179 | every schedule of the state machine can be followed on the object, which ends in the computed state with its invariant |
| HeaderFields.ParseHttpRequestHeader | example/rdparse/server.cc:209-247 | the loop ends on every input and returns the map of the parsed lines, or nothing |
| HeaderFields.Lossless | example/rdparse/server.cc:218-244 | the accepted texts are exactly the concatenations of name, colon, spaces, skipped character, content, line break with colon-free names and break-free contents, and those lines are the result |
| HeaderFields.RoundTrip | example/rdparse/server.cc:46-63 | parsing what writeHeader printed returns every field less the first `skip` characters of its value exactly when every name is colon-free and every value is long enough, break-free after them and does not start with a space |
| HeaderFields.RoundTripMeant | example/rdparse/server.cc:209-247 | with `skip` 0 the parser inverts the printer exactly on the printable lists |
| HeaderFields.RoundTripAsWritten | example/rdparse/server.cc:229-232 | with `skip` 1 only the empty list is ever read back unchanged |
| HeaderFields.PrintedIsRead | example/rdparse/server.cc:218-244 | what is read of any printed list with colon-free names and break-free texts: leading spaces of values are lost, and with `skip` 1 an empty value takes the whole next line, or ends the parse if there is none |
| HeaderFields.RefusedIffDangling | example/rdparse/server.cc:229-237 | with `skip` 1 the parse of a printed list fails exactly if, walking over it, an empty value is left without a next line to take along |
| HeaderFields.EmptyLast | example/rdparse/server.cc:229-237 | an empty last value is left so exactly if the fields before it do not take it along |
| HeaderFields.EmptyValueSwallowsNextLine | example/rdparse/server.cc:229-240 | with `skip` 1 an empty value that is followed by a line takes that whole line as its content |
| HeaderFields.HeaderRoundTrip | example/rdparse/server.cc:242-243 | the map read back has the printed names, each with the first value printed under it |
| HeaderFields.FirstWins | example/rdparse/server.cc:242-243 | the map holds the first field of each name |
| HeaderFields.ClientsMap | example/rdparse/server.cc:218-244 | with distinct names, the map read back is the printed one, less the first `skip` characters of each value, exactly when every field is printable |
| ContentLength.ParseContentLength | example/rdparse/server.cc:330-345 | accepts exactly the strings of digits whose value is at most SIZE_MAX, returns that value, and never leaves the machine word in between |
| ContentLength.PrintedLength | example/rdparse/server.cc:94-98 | a printed size is read back as itself, and refused only beyond SIZE_MAX |
| ContentLength.TruncatedLength | example/rdparse/server.cc:232-239 | without its leading digit a printed size reads as itself modulo the leading power of ten, hence as itself only if it is zero |
| RequestTarget.ParseHttpRequestLine | example/rdparse/server.cc:185-207 | computes the cut at the first two spaces |
| RequestTarget.RequestLineExact | example/rdparse/server.cc:185-207 | a line is accepted with a result exactly when it is that result printed, with space-free method and path |
| RequestTarget.SplitTarget | example/rdparse/server.cc:386-409 | the branches on the two marks compute the split |
| RequestTarget.SplitExact | example/rdparse/server.cc:386-409 | a target is refused exactly when a `#` precedes its first `?`; otherwise the split is lossless, of the required form, and the only one of that form |
| Reader.HttpReadAsyncCallback.OnStatusChanged | example/rdparse/server.cc:249-449 | one completed read changes the fields and ends in the call that the reader function says, and the fields stay the fold over everything received |
| Reader.HttpReadAsyncCallback.TakeLine | example/rdparse/server.cc:263-295 | the Initial case |
| Reader.HttpReadAsyncCallback.ExtendHeader | example/rdparse/server.cc:297-314 | appending to the header text and finding its end |
| Reader.HttpReadAsyncCallback.FinishHeader | example/rdparse/server.cc:316-366 | fields, transfer encoding, length, and the step to Body |
| Reader.OnlyAdvances | example/rdparse/server.cc:262-437 | parseStatus only advances and a stage that is left keeps what it gathered; the code terminates exactly on the way to Terminated, asks for a response exactly when Body is reached with no body announced and on every chunk in Body, and otherwise reads on |
| Chunks.CleanChunking | example/rdparse/server.cc:262-314 | if no boundary is a bad cut, every chunking ends in the state of the whole text in one chunk, whatever that state is |
| Chunks.ChunkIndependenceAsMeant | example/rdparse/server.cc:278-314 | as meant, every chunking whatsoever does |
| Chunks.OneShotIs | example/rdparse/server.cc:262-320 | a text that one chunk carries to Body gives the line up to its first line break and the fields up to the first empty line after it |
| Chunks.ConsumedIs | example/rdparse/server.cc:262-314 | the bytes received are the line in Initial and line, line break and header text in Header |
| Chunks.OneShotsAgree | example/rdparse/server.cc:270-285 | in one chunk the two versions agree unless the text stops right after its first line break |
| BadCuts.ChunkIndependenceAsWritten | example/rdparse/server.cc:262-314 | as written, a text that one chunk carries past its request line, into Header or Body, ends in the same state exactly when no boundary falls inside or right after its first line break or inside the first empty line after it |
| BadCuts.RefusalKept | example/rdparse/server.cc:262-320 | without bad cuts a text that one chunk refuses is refused in chunks |
| BadCuts.RefusalLost | example/rdparse/server.cc:278-291 | as written, a refused request line that is cut inside its line break is joined with the next line, and the reader goes on with the joined line if that can be parsed |
| BadCuts.RefusalCanBeLost | example/rdparse/server.cc:278-291 | a concrete text that is refused in one chunk and carried into Header in two |
| BadCuts.HalfBreakReadTwice | example/rdparse/server.cc:278-286 | a second half of the line break that comes without another break is taken into the request line and read again as the beginning of the fields |
| Requests.PrintedRequestIsRead | example/rdparse/server.cc:262-366 | any request that a client printed, read in one chunk: with a field, the code terminates if its fields cannot be read or refuse it and otherwise holds exactly its line and what is read of its fields and takes the matching next step; and it holds the request with a map `m` exactly if there is a field and `m` is the map read and not refused |
| Requests.ReadsIntended | example/rdparse/server.cc:209-247 | with distinct names, the map read is the client's own, less the first `skip` characters of each value, exactly if there is a field, no value is too short for that or starts with a space, and the map is not refused |
| Requests.PrintedRequestInChunks | example/rdparse/server.cc:262-366 | in several chunks the request is held with the map `m` exactly if that is the map read of its fields and, as the code is written, no boundary is a bad cut |
| Requests.RequestVerdicts | example/rdparse/server.cc:257-432 | for a printed request in clean chunks: every chunk before the end of the empty line reads on; the one that completes it is answered exactly if no body is announced; every later one is answered, whatever it holds |
| Requests.TerminatesAsWritten | example/rdparse/server.cc:316-345 | with `skip` 1 a request with fields ends the process exactly if an empty value is left without a next line to take along, or the fields read refuse it |
| Requests.EmptyLastValueTerminates | example/rdparse/server.cc:229-237 | with `skip` 1 an empty last value ends the process, after any fields that do not take it along |
| Requests.FieldlessRequestWaits | example/rdparse/server.cc:296-313 | a request without fields leaves the reader waiting in Header with the empty line as the beginning of its fields |
| Requests.FieldlessSwallowsNextRequest | example/rdparse/server.cc:296-320 | the request that follows one without fields is taken for its fields: its line becomes part of the first field's name, and the outcome is that of a request with those fields |
| Requests.ReadRequestWasPrinted | example/rdparse/server.cc:262-366 | whatever one chunk carries to Body is the held line, well-formed field lines giving the held map, an empty line and a rest |
| RouteTable.HttpServer.RegisterHandler | example/rdparse/server.cc:630-647 | after any history of calls with any failures: a failed call leaves the table as it was; a call succeeds exactly if its insertion does and so did an earlier call for its path or its own reservation; no path is left with an empty registry |
| RouteTable.HttpServer.Dispatch | example/rdparse/server.cc:411-418 | the handler of the first successful call for the path and the method; 405 if there is none, but one for the path and another method; 404 if there is none for the path |
| RouteTable.HttpServer.ReserveHandlerRegistry | example/rdparse/server.cc:473-483 | an empty registry is added, or nothing changes |
| RouteTable.PathsServed | example/rdparse/server.cc:630-647 | the flat map has a path exactly if some call for it has succeeded |
| RouteTable.FirstRegistered | example/rdparse/server.cc:641-642 | the flat map holds, for each pair, the handler of the first call that succeeded for it |
| ResponseWriter.HttpURLHandlerState.WriteStatusLine | example/rdparse/server.cc:26-44 | one call of the writer: text, stage and result, also when memory runs out in the middle |
| ResponseWriter.HttpURLHandlerState.WriteHeader | example/rdparse/server.cc:46-63 | one field line |
| ResponseWriter.HttpURLHandlerState.EndHeader | example/rdparse/server.cc:65-75 | the empty line |
| ResponseWriter.HttpURLHandlerState.WriteBody | example/rdparse/server.cc:77-88 | one body part |
| ResponseWriter.HttpURLHandlerState.WriteResponse | example/rdparse/server.cc:90-105 | the five calls in order up to the first failure |
| ResponseWriter.WriterIsGrammar | example/rdparse/server.cc:26-88 | a sequence of calls runs through exactly when it is the calls of a response and there is room; the text is then that response printed, and before a failure the beginning of it |
| ResponseWriter.SimpleIsWritten | example/rdparse/server.cc:90-105 | writeResponse on a fresh writer leaves the beginning of the response, and all of it exactly when its 14 string operations succeed |
| ResponseWriter.SimpleText | example/rdparse/server.cc:28-105 | the text of a simple response, piece by piece |
| ResponseWriter.CutRecovers | example/rdparse/server.cc:296-302 | cutting a break-free response at the reader's two separators recovers status line, field block and bodies exactly when there is at least one field |
| Server.ParserState | example/rdparse/server.cc:249-449 | on every schedule of the engine a connection's fields are the reader applied to the data of its reads in issue order |
| Server.ParsedAsMeant | example/rdparse/server.cc:278-314 | on every schedule the request parsed as meant depends only on the bytes that arrived |
| Server.ParsedAsWritten | example/rdparse/server.cc:262-314 | on every schedule a text that one piece would carry past its request line is read as that piece exactly when no completion ended at a bad cut |
| Server.RequestDelivered | example/rdparse/server.cc:249-449 | end to end: if the bytes that arrived are a printed request, then on every schedule the callback holds it with the map `m` exactly if `m` is the map read of its fields and, as the code is written, no completion ended at a bad cut |
| Server.IntendedRequestDelivered | example/rdparse/server.cc:249-449 | with distinct names the callback holds the client's own line and fields exactly if there is a field, no value is too short for the dropped characters or starts with a space, the fields are not refused, and, as the code is written, no completion ended at a bad cut |
| Server.ReadWhenShort | example/rdparse/server.cc:257-363 | on every schedule a read after the first was asked for because the request was incomplete, or because it had just been completed and announces a body |
| Server.ResponseWhenReady | example/rdparse/server.cc:355-432 | on every schedule a response is issued on the chunk that completes a request without a body, or on the next one after a request that announces a body |
| Server.StatusAdvances | example/rdparse/server.cc:293-355 | over every run parseStatus only advances and the fields stay as they are from Body on |
| Server.AnswerRequest | example/rdparse/server.cc:373-418 | 400 exactly if a # precedes the first ? of the target; otherwise the registrations for the path in front of query and fragment decide between the handler, 405 and 404; and the literal text the server writes for these three |
| Server.LengthReadBack | example/rdparse/server.cc:90-98 | the field parser on a simple response finds content type and length as meant, and without their first characters as written |

## Left out

- The Unix back end: its worker loop is not implemented (netknot/unix/io_service.cc:23-25), so it has no protocol.
- The operating system: a read, write or accept is "issue", the kernel queues one packet per issued operation with any
  bytes, packets are dequeued in FIFO order; thread creation, rollback of it, and condition variables are left out.
- How `run` gets woken: its wait has no predicate, so a wake sent before the wait is lost.  Shutdown starts after the wake.
- EngineSafety.NoTouchAfterDestruction: for writes and accepts it does not cover a start or a post that fails after the
  I/O has been issued, which the guards exclude; in particular writeAsync takes a pending send for a failure and deletes
  the task while the kernel still has its block (netknot/win/socket.cc:232-233).  The claim for reads is unaffected.
- EngineSafety.CallbackAccounting: for writes and accepts it is about successful starts and posts, for the same reason.
- EngineService.Win32IOService.StartIo: a failing start of a write or an accept is excluded, for the same reason.
- EngineService.Win32IOService.PostInsert: a failing insertion for a write or an accept is excluded, for the same reason.
- EngineService.Win32IOService.AllocOverlapped: does not model the buffer's own reference count.
- EngineService.Win32IOService.ReturnFromCallback: does not model the wake of `run` after an exception, which may be lost.
- Engine.DecRef: the decrement inside the task destructor (netknot/win/socket.cc:324) runs after the count has reached
  zero and is left out; destruction is final.
- EngineService.Win32IOService: tasks are records in a table indexed by number rather than heap objects, so aliasing is
  equality of indexes.
- EngineService.Win32IOService.FailCallback: a read or accept callback that runs out of memory, or whose handler fails,
  returns an exception and gives the connection up; which of its fields it had already changed is not modelled, and no
  later callback reads them.
- Reader.HttpReadAsyncCallback.OnStatusChanged: does not model failing string appends, a failing body allocation or the
  handler's work; those are the engine's failing callbacks, after which no callback reads the fields again.
- Reader.HttpReadAsyncCallback.TakeLine: does not model a failing append, see there.
- Reader.HttpReadAsyncCallback.ExtendHeader: does not model a failing append, see there.
- Reader.HttpReadAsyncCallback.FinishHeader: does not model a failing body allocation, see there.
- HeaderFields.ParseHttpRequestHeader: does not model a failing insertion into the header map, which terminates like a
  malformed line.
- Body assembly: bytes after the header are discarded and one completed read counts as the whole body.  Chunked encoding
  only terminates.
- Server.AnswerRequest: what a handler writes, and the exception it may return, are its own; the writer's grammar applies
  to it.
- The 4096-byte buffer that all connections share: each connection's chunks are given input.
- ContentLength.PrintedLength: the fixed buffer that holds the printed length is left out; the text is a string.
- ResponseWriter.HttpURLHandlerState.WriteResponse: does not model that buffer either.
- The status-message table, string-view lifetimes, allocators, UUIDs and exception classes.
- Address translation: short bit arithmetic that would add only easy members.
