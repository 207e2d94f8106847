# TrueAsync HTTP server: a verified model

This project models the parts of the TrueAsync HTTP server whose correctness spans several
functions, and proves what they promise over every input, every run and every interleaving.
`dafny verify dfyconfig.toml` checks all of it.

| part | files | what is proved |
|---|---|---|
| worker-pool control channel, hot reload and stop | `PoolChannel`, `PoolProtocol`, `PoolReload` | completion accounting, what a reload brings up, stop dominance, lost and heeded commands, wake-table and reference safety over all interleavings |
| reverse path from workers to reactors | `LinkedQueue`, `RetryFifo`, `RetryOutcome`, `InboxFence` | order, nothing lost or doubled, accepted is what a mailbox took, the timer stays armed, the inbox fence |
| streaming bodies and gRPC messages | `BodyStream`, `GrpcReader`, `GrpcBodies` | conservation and flow credit, chunking invariance, what every body reads as, compaction bounds |
| server-sent events | `Decimal`, `EventStream`, `EventAcceptance` | a parser written from the WHATWG HTML standard undoes the printer on whole streams; calls are refused exactly when no stream carries them |
| file delivery | `Calendar`, `HttpDate`, `DateText`, `EntityTag`, `Conditional`, `Validators`, `ByteRange`, `PartHeader`, `FileResponse`, `AnswerTable`, `FileEngine`, `FileHandoff` | date and tag round trips, the byte-range and Content-Range grammars and meaning, what validators decide, every header and status of an answer, response coherence, exactly-once callbacks and handle ownership |
| overload control | `Codel`, `Drain`, `Backpressure`, `OverloadRuns` | CoDel soundness and completeness, the connection cap with hysteresis, the counter against the live connections, drain epochs |
| response object | `HttpResponse`, `WireData` | life-cycle invariants and frozen heads over all handler call sequences, the wire as the data of the calls, event streams end to end |

Code that updates state in place is a class, or a method over an array or an index, proved against a
function on values; what the source promises is then proved about that function, or about runs of it.
Protocols between threads are state machines: a run is a sequence of events, each possible where it
occurs, and theorems hold of every run.

Every lemma does its own induction: `{:induction false}` keeps the verifier from adding hypotheses of
its own, so what is proved is proved by the bodies shown.

## Assumptions of the runs

- ThreadPool `reload()` returns only after the old cohort is over and its completions are delivered;
  the await of `start_pool` is not cancelled; `reload()` is not entered after `all_done` fired.
- A worker's wake callback runs only after its `start()` has suspended, so joining the channel and
  marking the server running are one step.
- A reactor finishes a dispatch before it drains its mailbox.
- The protocol's `send_static_response` completes exactly once if and only if it returned 0, perhaps
  before returning, and when it completes well it has sent all it was given. When it refuses it leaves the
  file alone, except that HTTP/2 and HTTP/3 have disposed of a file they need not send before the head they
  then fail to submit; that case is modelled. A NULL callback is a callback that does nothing.
- A file does not change between being examined and being sent.
- Sample, trigger and evaluation times never go back and stay clear of the end of the 64-bit clock
  where a theorem says so; the wrap of unsigned subtraction itself is written out.
- Event-stream text is decoded characters, that is valid UTF-8.

## What turned out false, with its exact condition

- A command can be lost: a worker under a standing command is un-rung exactly when a broadcast ran between
  its check of the command word and its join and none ran since, and stop() then waits for that worker
  (`PoolProtocol.NoLostCommand`, `LostCommandWitness`, `LostCommandWedgesStop`).
- The inbox fence excludes late posts only from reactors whose mailbox took the fence
  (`InboxFence.InboxExcluded`, `UndeliverableFenceExcludesNothing`).
- A flush with no timer to be had gives up parked slot releases, which have no discard callback
  (`RetryFifo.FlushGivesUpOnlyExpired`, `ReleasesSurvive`, `ReleaseDropped`).
- The overflow guard of the range numbers lets 2^64 .. 2^64 + 3 through, wrapped
  (`ByteRange.MisreadExactly`, `WrappedRange`).
- With entity tags switched off, an empty If-None-Match element counts as a match
  (`EntityTag.MatchesWithoutTag`, `BareCommaMatchesNoTag`).
- The date round trip fails for years outside 0 to 9999, which are written as 9999
  (`HttpDate.RoundTrip`, `YearTenThousand`).
- The announced length is not what is sent in three cases: a 416 sends a body that a handler had buffered
  before; an empty file does too, over HTTP/2 (but for status 204 or 304) and HTTP/3; and a small file read
  into the response under status 204 or 304 is not sent over HTTP/2 (`FileResponse.AnnouncedIsSent`,
  `FileHandoff.CoherentAfterHandler`, `BodyOn416`, `BodyWithEmptyFile`, `FileSwallowed`).
- A 304 sends a buffered body on a GET over HTTP/3 (`FileResponse.NotModifiedIsBare`, `FileHandoff.BodyOn304`),
  and has a Content-Length when the handler had set one before sendFile() (`FileHandoff.LengthOn304`,
  `LengthOnReal304`).
- A HEAD request is answered with a body: over HTTP/1 and HTTP/2 with an error text, over HTTP/1 with a body
  buffered before a 416, over HTTP/2 with a body buffered before any answer but a 204 or 304
  (`FileResponse.HeadIsBodiless`, `HeadSendsErrorText`, `FileHandoff.BodyOnHead`); and a handler's
  writeMessage() and server-sent events put chunks on a HEAD response, which send() does not
  (`HttpResponse.HeadChunks`, `HeadMessage`, `HeadEvent`).
- A file to be deleted after sending is deleted after every answer the protocol completes well, a success or
  not, sent or not (`FileEngine.ServeAndDelete`, `DeletedAfterHead`, `DeletedAfterError`).
- A descriptor is closed twice when HTTP/2 or HTTP/3 fails to submit the head of an answer that keeps the
  file open and does not send it (`FileEngine.Serve`, `ClosedTwice`).
- sendFile() seals a response except against setGrpcEncoding()
  (`HttpResponse.SealedExactly`, `SealedForGood`, `SealBroken`).
- addHeader() and setHeader() leave a one-value or empty array when given an empty array
  (`HttpResponse.ValuesKept`, `EmptyArrayBreaksShape`).
- An HTTP/3 connection is drained by epochs that fired before it arrived (`Drain.OldEpochIgnored`,
  `OldEpochDrainsHttp3`).
- The connection counter is not the number of live connections when a connection is destroyed while it is
  being spawned: a TLS connection that is refused is charged to the counter, and one whose first read fails
  is counted after it is gone. Then the cap can be exceeded, and the listeners can stay paused with nobody
  left; the latter also by samples from connections that are not counted (`Backpressure.Admission`,
  `LiveAccounting`, `LiveCap`, `NeverPausedAlone`, `CapExceeded`, `PausedByGhost`, `PausedAlone`,
  `StuckAlone`).

Where code and comments disagree the code is followed: `http_etag_format_strong` writes a weak tag; the
drain spread described in include/php_http_server.h:619-625 does not exist; the clamp of the resume level
(src/http_server_class.c:3732-3734) can never apply; include/send_file.h:73 promises deletion after a
successful 2xx only; of the contract of `send_static_response` (include/php_http_server.h:722-763) HTTP/1
alone keeps the part about the buffered body, HTTP/2 and HTTP/3 each have rules of their own; `on_done` does come inside `send_file()` when the tick
cannot be scheduled (`FileEngine.Serve`).

## Model

| member | source | states |
|---|---|---|
| PoolChannel.PoolCtl.constructor | src/http_server_class.c:648-659 | a new channel has one reference, no command and an empty wake table |
| PoolChannel.PoolCtl.AddRef | src/http_server_class.c:661-669 | one more reference |
| PoolChannel.PoolCtl.Release | src/http_server_class.c:671-680 | frees exactly at the release that takes the count to zero |
| PoolChannel.PoolCtl.Broadcast | src/http_server_class.c:691-712 | stores the command, rings exactly the published handles, all of them open; NONE rings nobody |
| PoolChannel.PoolCtl.Join | src/http_server_class.c:775-813 | takes the first free slot; a full table closes the handle and fails |
| PoolChannel.PoolCtl.Leave | src/http_server_class.c:815-839 | empties the slot and closes its handle in one step, so it can no longer be rung |
| PoolProtocol.RunKeeps | src/http_server_class.c:2215-2289 | every interleaving of parent and worker steps keeps the accounting, table and reference invariant |
| PoolProtocol.CompletionAccounting | src/http_server_class.c:2276-2289 | in every run `pending` is the submitted and unreported tasks plus the slots an in-flight rotation reserves |
| PoolProtocol.AllDoneExactlyWhenIdle | src/http_server_class.c:3460-3489 | all_done fires at most once, never in a rotation or with a task outstanding, and has fired whenever the parent is parked with nothing left |
| PoolProtocol.ReloadCallKeeps | src/http_server_class.c:4569-4604 | reserving the slots of the new cohort and publishing RELOAD keeps the invariant |
| PoolProtocol.RotationDoneKeeps | src/http_server_class.c:4633-4653 | the rotation's end, aborted by stop or going on to submit, keeps the invariant |
| PoolProtocol.AbandonKeeps | src/http_server_class.c:4610-4648 | giving a rotation up after an exception or a stop gives its reserved slots and shells back |
| PoolProtocol.EndSubmitKeeps | src/http_server_class.c:4657-4707 | the end of submission, also after a partial failure, keeps the invariant |
| PoolProtocol.StopDominates | src/http_server_class.c:4511-4518 | once stop() stored its command no continuation of the run changes it, whatever rotation is in flight |
| PoolProtocol.ReloadIsForThisCohort | src/http_server_class.c:4633-4653 | a task that can still read the word finds a RELOAD only if it was published for its own or a later cohort; a cohort is submitted under NONE |
| PoolProtocol.RingIsHeeded | src/http_server_class.c:745-770 | whenever a wake callback runs the command still stands, so the worker retires |
| PoolProtocol.NoLostCommand | src/http_server_class.c:3675-3690 | outside a broadcast, a published worker under a command is un-rung exactly when, in the run's events, a broadcast fell between its check and its join and none came after the join |
| PoolProtocol.LostCommandWitness | src/http_server_class.c:789-801 | a concrete run in which a published worker is un-rung under STOP |
| PoolProtocol.LostCommandWedgesStop | src/http_server_class.c:3675-3690 | from such a state, as long as that worker does not leave by itself, it stays un-rung and all_done does not fire |
| PoolProtocol.WakeTableSafe | src/http_server_class.c:775-839 | no handle is in two slots, and what a broadcast would ring is open and serving |
| PoolProtocol.NeverRungAfterClose | src/http_server_class.c:815-839 | a closed handle is never rung again nor published, in any continuation |
| PoolProtocol.ChannelFreedOnce | src/http_server_class.c:636-680 | the count is parent plus shells plus clones; the channel is freed exactly when none is left, once |
| PoolProtocol.NoUseAfterFree | src/http_server_class.c:6375-6380 | no possible event that touches the channel comes after it was freed |
| PoolReload.ReloadRehires | src/http_server_class.c:4650-4675 | when a rotation ends with no stop() before it, the command is NONE, all_done has not fired, every task of the new cohort is offered, also after a refused one, and the tasks outstanding are exactly those taken, all of that cohort |
| PoolReload.ReloadBringsUp | src/http_server_class.c:4654-4706 | after the last offer exactly the tasks taken are up, only the new cohort holds shells, and all_done has fired only if none was taken |
| PoolReload.StoppedReloadEnds | src/http_server_class.c:4633-4648 | a rotation that stop() overtook fires all_done, and no task is outstanding or submitted in any continuation |
| PoolReload.ThrownReloadGivesUp | src/http_server_class.c:4610-4627 | a rotation that threw releases its own cohort unsubmitted, leaves every other worker alone, and all_done fires exactly when none is outstanding |
| PoolReload.StartSubmits | src/http_server_class.c:3472-3491 | start_pool offers its tasks until one is refused, and waits exactly if one was taken |
| PoolReload.NothingLeaks | src/http_server_class.c:6465-6480 | when the parent object goes no shell is left, and the channel is freed exactly when no clone is |
| LinkedQueue.Chain.Append | src/http_server_class.c:3011-3016 | the new node comes last, the others stay |
| LinkedQueue.Chain.RemoveFirst | src/http_server_class.c:2905-2946 | the oldest comes off, the rest keep their order |
| LinkedQueue.Chain.RemoveLast | src/http_server_class.c:3018-3033 | unlinking after a failed arm takes off exactly the newest |
| RetryFifo.ReversePath.ArmTimer | src/http_server_class.c:2963-2990 | the one-shot timer is armed at most once |
| RetryFifo.ReversePath.DoDefer | src/http_server_class.c:2998-3036 | a post is parked with the timer armed, or refused and not parked |
| RetryFifo.ReversePath.DoFlush | src/http_server_class.c:2905-2946 | posts go out in order, stopping at the first that neither fits nor has expired |
| RetryFifo.ReversePath.TimerFired | src/http_server_class.c:2948-2961 | the one-shot timer is spent; it flushes, or leaves the queue as it is when the loop goes down |
| RetryFifo.ReversePath.Sink | src/http_server_class.c:3046-3075 | a wire goes directly only when it is whole or nothing waits |
| RetryFifo.ReversePath.Release | src/http_server_class.c:3079-3096 | a slot release queues behind parked posts |
| RetryFifo.OrderPreserved | src/http_server_class.c:2905-3036 | in every run the stream wires and releases that reactors took are in submission order, ahead of everything still parked |
| RetryFifo.NothingLostOrDoubled | src/http_server_class.c:2905-3096 | every submission is settled once or parked once, never both |
| RetryFifo.TimerArmed | src/http_server_class.c:2963-2996 | outside teardown a non-empty queue has its timer armed |
| RetryFifo.WiresNeverVanish | src/http_server_class.c:2905-2961 | a wire that is given up always runs its discard callback |
| RetryFifo.FlushGivesUpOnlyExpired | src/http_server_class.c:2905-2946 | with the pool alive a flush gives up only stream wires past their deadline, exactly when a tick is armed, can be had or is not needed; with the pool gone exactly when all had expired |
| RetryFifo.ReleaseDropped | src/http_server_class.c:2932-2945 | a run of a living pool in which a parked release is dropped by the tick that finds no timer |
| RetryFifo.ReleasesSurvive | src/http_server_class.c:2905-2996 | over every run no slot release is dropped silently, exactly when every flush spared them |
| RetryFifo.ProvidedSpares | src/http_server_class.c:2905-2996 | in particular none is when every flush is alive with a timer to be had |
| RetryOutcome.FlushOutcome | src/http_server_class.c:2905-2946 | a living flush settles every post before the first that is neither taken nor late by its own answer and leaves the queue from there on, giving the rest up only without a timer; a dead one gives all up |
| RetryOutcome.SubmissionOutcome | src/http_server_class.c:3046-3096 | over every run a submission is accepted exactly when the pool lives, the mailbox takes it and it is a whole response or nothing is parked; else it is parked last with a tick, or given back |
| RetryOutcome.AcceptedIsTaken | src/http_server_class.c:2905-3096 | over every run the posts logged as accepted are, in order, exactly those whose own attempt a mailbox took |
| InboxFence.TriggersExactlyOnce | src/http_server_class.c:3134-3185 | for any mix of taken and untaken fences the done event fires at most once, exactly when all are settled |
| InboxFence.InboxExcluded | src/http_server_class.c:3152-3197 | past the fence, a reactor whose mailbox took it neither holds nor can obtain the retired inbox |
| InboxFence.InboxQuiesced | src/http_server_class.c:3152-3212 | with every fence taken, nobody holds the inbox and it is unpublished |
| InboxFence.UndeliverableFenceExcludesNothing | src/http_server_class.c:3176-3185 | a concrete run in which an untaken fence lets the worker resume while a reactor holds the inbox |
| BodyStream.Stream.Push | src/http_body_stream.c:42-64 | appends the chunk and counts its bytes, or is refused |
| BodyStream.Stream.Pop | src/http_body_stream.c:82-133 | takes the oldest chunk and returns the credit left after the pre-credit |
| BodyStream.Stream.Close | src/http_body_stream.c:66-74 | marks the end |
| BodyStream.Stream.Fail | src/http_body_stream.c:76-80 | marks the end with an error |
| BodyStream.Stream.Dispose | src/http_body_stream.c:135-157 | drops what is queued |
| BodyStream.Conservation | src/http_body_stream.c:42-133 | for every history popped followed by queued is pushed, the counters are the lengths, and credit is consumed minus the pre-credit used |
| BodyStream.EndsExactly | src/http_body_stream.c:42-80 | over every history the stream is over exactly when closed or failed, and in error exactly when failed or a chunk was refused |
| GrpcReader.FrameRoundTrip | src/grpc/grpc.c:140-148 | a framed message is read back from wherever it sits |
| GrpcReader.DeframeWindow | src/grpc/grpc.c:247-283 | deframing a window says what deframing the whole says, unless it waits for bytes past the window |
| GrpcReader.Request.MoveDown | src/http_request.c:382-386 | the overlapping move brings the live bytes to the front of the buffer |
| GrpcReader.Request.CompactPrefix | src/http_request.c:365-389 | compaction in place leaves the unread bytes |
| GrpcReader.Request.ReadMessage | src/http_request.c:390-453 | one call or wakeup pulls chunks until a message, an end, an error or a suspension |
| GrpcReader.ChunkingInvariance | src/http_request.c:365-453 | for every body, chunking and interleaving the finished calls return what the buffered path returns on the whole body |
| GrpcReader.MessagesArrive | src/http_request.c:323-484 | a peer that sends messages and half-closes is read message by message, then null |
| GrpcReader.CompactionCost | src/http_request.c:366-389 | over any session bytes moved never exceed bytes dropped, which never exceed the body |
| GrpcReader.CompactionBound | src/http_request.c:366-389 | after the prologue the offset is 0 or below the live remainder, so the buffer is under twice the live data |
| GrpcBodies.EveryBodyCarries | src/grpc/grpc.c:247-283 | every body is frames of at most 16777216 bytes followed by an incomplete frame or a header that announces more |
| GrpcBodies.AttemptOutcome | src/http_request.c:390-453 | one call or wakeup returns the message or the size error as soon as the bytes show it, and otherwise null, the error or a suspension as the stream stands |
| GrpcBodies.EveryBodyReads | src/http_request.c:365-484 | for every body, chunking and interleaving call i returns frame i, and the later calls the size error exactly when the rest announces more than 16777216 bytes, else null once the stream is closed |
| GrpcBodies.WaitsExactly | src/grpc/grpc.c:258-270 | a call waits exactly when the frames are used up, the rest is incomplete and the stream open, so the size error never waits |
| Decimal.FormatU64 | src/http_response_server_api.c:323-337 | writes the decimal digits of any 64-bit number and a terminator, within its buffers |
| Decimal.DigitsRoundTrip | src/http_response_server_api.c:323-337 | the digits read back as the number |
| EventStream.HasNewline | src/http_sse.c:40-56 | finds a line break exactly when there is one |
| EventStream.AppendData | src/http_sse.c:180-209 | one data field per line, split at LF, CR and CRLF, with a last empty one after a final break |
| EventStream.AppendField | src/http_sse.c:211-220 | one name and value line |
| EventStream.SseEvent | src/http_sse.c:258-351 | refuses exactly a type or id with CR or LF, an id with NUL and a negative time, whatever the data, and prints the others |
| EventStream.SseComment | src/http_sse.c:354-397 | prints a comment, refusing line breaks |
| EventStream.SseRetry | src/http_sse.c:400-432 | prints a retry record, refusing negative numbers |
| EventStream.JoinedLines | src/http_sse.c:180-209 | the lines joined by LF are the data with CR and CRLF turned into LF |
| EventStream.ParseRecord | src/http_sse.c:284-344 | the WHATWG parser reads one printed record as its meaning and is back between records |
| EventStream.RoundTrip | src/http_sse.c:177-432 | parsing the concatenated records of any accepted calls yields their meaning: types, ids, retry and data |
| EventStream.EventsAreDataCalls | src/http_sse.c:304-344 | the events dispatched are the calls with data, one for one, in order, normalised |
| EventAcceptance.RecordCarries | src/http_sse.c:309-344 | the printed record says the type or comment and is read as the call asks |
| EventAcceptance.CarriedIsPlain | src/http_sse.c:284-307 | whatever the data, no stream carries a type, id or comment with a line break, an id with NUL or a negative time |
| EventAcceptance.AcceptedExactly | src/http_sse.c:284-307 | a call is accepted exactly when some stream carries it |
| EventAcceptance.Normalizes | src/http_sse.c:180-209 | normalised data: text without breaks stays, each CRLF, CR or LF becomes one LF |
| Calendar.YearStep | src/http_date.c:39-47 | the day count of years grows by the length of each Gregorian year |
| Calendar.GmTime | src/http_date.c:39-47 | gmtime: canonical fields that timegm turns back into the time, for every integer time |
| Calendar.UniqueFields | src/http_date.c:122-127 | an instant has only one set of canonical fields |
| HttpDate.FormatImf | src/http_date.c:39-94 | fills the 30-byte buffer with the IMF-fixdate and its terminator |
| HttpDate.MonthFromAbbr | src/http_date.c:109-120 | the index of a month name, -1 for any other text |
| HttpDate.ParseImf | src/http_date.c:131-160 | the time of a well-formed, in-range IMF-fixdate, -1 for length and field errors |
| HttpDate.ScanImf | src/http_date.c:147-158 | the sscanf conversions find the six fields of a written date |
| HttpDate.RoundTrip | src/http_date.c:39-160 | parsing the formatted time returns it exactly for years 0 to 9999 |
| HttpDate.YearTenThousand | src/http_date.c:58-64 | the first second of year 10000 is read back wrong |
| DateText.TextSaysTime | src/http_date.c:39-94 | the digits and month name of a written date are the time of day and the day since the epoch, for years 0 to 9999 |
| DateText.DayNames | src/http_date.c:39-47 | the first day of the epoch is a Thursday and each day is named after the one before |
| DateText.DateReads | src/http_date.c:146-160 | any text laid out as an IMF-fixdate is read as the instant its digits and month say, or as nothing when the month is none or a number is out of range |
| DateText.StandardExample | src/http_date.c:39-94 | the example date of RFC 9110, character by character |
| EntityTag.FormatTag | src/http_etag.c:32-57 | fills the buffer with W/, a quote, the 16 hexadecimal digits of the mixed word and a quote |
| EntityTag.TagsDiffer | src/http_etag.c:32-57 | equal tags mean equal mixed words |
| EntityTag.TrimBlanks | src/http_etag.c:59-68 | blanks go from both ends |
| EntityTag.MatchInm | src/http_etag.c:81-117 | true exactly when some list element is a star or weakly equals the tag |
| EntityTag.OwnTagMatches | src/http_etag.c:81-117 | a list with the own tag anywhere, with any blanks around it, matches |
| EntityTag.MatchesWithoutTag | src/http_etag.c:81-117 | with no tag, exactly the lists with a star, an empty element or a bare W/ match |
| EntityTag.BareCommaMatchesNoTag | src/http_etag.c:81-117 | a single comma matches no tag, and does not match a real one |
| Conditional.ConditionalCheck | src/send_file.c:808-830 | If-None-Match decides when present, else the date |
| Conditional.EchoedLastModified | src/send_file.c:808-830 | echoing our Last-Modified gives not-modified exactly for times other than -1 up to year 9999 |
| Conditional.EchoedTag | src/send_file.c:808-830 | a list holding our tag gives not-modified whatever the date header says |
| Validators.MatchesExactly | src/http_etag.c:81-117 | a list matches a tag exactly when one of its elements is a star or the tag, weak or not |
| Validators.TagDecides | src/send_file.c:299-314 | with tags on, a request with If-None-Match is answered 304 exactly when the list holds a star or our tag, whatever its dates |
| Validators.DateDecides | src/send_file.c:818-827 | without one, a date we could have written gives 304 exactly when the file is no newer |
| Validators.IfRangeDecides | src/send_file.c:339-346 | an If-Range other than our tag never yields a part or a 416 |
| Validators.OwnIfRange | src/send_file.c:339-346 | an If-Range with our tag is as none |
| Validators.TagTracks | src/http_etag.c:39-46 | a file that changes in its time, identity or size (below 2^47) alone changes its tag |
| ByteRange.ReadNumber | src/http_range.c:66-78 | the guarded 64-bit value of the digit run, nothing once the guard refuses |
| ByteRange.ParseRange | src/http_range.c:29-145 | the outcome the grammar and the numbers define, for every header and size |
| ByteRange.ShapeIsGrammar | src/http_range.c:40-108 | the reader accepts exactly the one-range grammar, each text in one way |
| ByteRange.FittingNumber | src/http_range.c:66-98 | a number is read exactly if and only if it is below 2^64 |
| ByteRange.MisreadExactly | src/http_range.c:66-98 | a wrong value is held exactly when a prefix lies in 2^64 .. 2^64 + 3 |
| ByteRange.ResolvesAsDefined | src/http_range.c:110-145 | with numbers below 2^64: 416 for an empty file or a first position past the end, the selected bytes when satisfied, ignored when invalid |
| ByteRange.RangeOfHeader | src/http_range.c:29-145 | a header in the grammar means what its range resolves to |
| ByteRange.SatisfiedInBounds | src/http_range.c:110-145 | a satisfied range lies inside the file whatever its numbers |
| ByteRange.WrappedRange | src/http_range.c:69-73 | a first position of 2^64 is served from 0 |
| FileResponse.Decide | src/send_file.c:240-382 | 404 or 500, 304, 416, a part or the whole, from the request headers and the file |
| FileResponse.Response.SetContentLength | src/http_response_server_api.c:339-344 | writes the decimal text of the length |
| FileResponse.Response.ApplyExtra | src/http_response_server_api.c:346-368 | applies the extra headers in order, without content headers on a 304 |
| FileResponse.Response.EmitError | src/send_file.c:222-238 | status, text, length and connection of an error |
| FileResponse.Response.EmitUnsatisfiable | src/send_file.c:354-376 | status, range and zero length of a 416 |
| FileResponse.Response.Fill | src/send_file.c:384-505 | status, headers, inline body and what is handed to the protocol, for each decision |
| FileResponse.Planned | src/send_file.c:332-382 | every part the engine decides on lies inside the file |
| FileResponse.PlanFollowsRange | src/send_file.c:337-380 | 416 exactly for a permitted range past the end; a part is exactly the selected bytes |
| FileResponse.LengthAnnounced | src/send_file.c:399-408 | the Content-Length reads back as the announced length |
| FileResponse.BytesSent | src/http2/http2_static_response.c:826-880 | what each protocol sends for each answer: the part or the whole file unless the request is HEAD or the file empty, and otherwise the error text or the buffered body by the rules of that protocol |
| FileResponse.HeadIsBodiless | src/send_file.c:456-505 | a HEAD is answered without a body always over HTTP/3, over HTTP/1 exactly unless with an error text or a 416 that finds a buffered body, over HTTP/2 exactly unless with an error text or any answer but a 204 or 304 that finds one |
| FileResponse.HeadSendsErrorText | src/send_file.c:222-255 | HEAD for a directory sends the text Not Found over HTTP/1 and HTTP/2 |
| FileResponse.AnnouncedIsSent | src/send_file.c:399-505 | for each protocol the announced length is what the GET sends, exactly unless a buffered body goes out with a 416 or an empty file, or an inlined file is held back by status 204 or 304 |
| FileResponse.NotModifiedIsBare | src/http3/http3_callbacks.c:950-966 | a 304 writes no Content-Length, whatever the extra headers, and sends nothing, exactly unless a GET over HTTP/3 finds a buffered body |
| FileResponse.RangeHeader | src/send_file.c:432-440 | Content-Range is always there for a part of up to 10^18 bytes and for a 416 |
| FileResponse.ValidatorsSent | src/send_file.c:410-417 | a 200, 206 or 304 carries our own tag and date when switched on |
| FileResponse.EchoedTagIsUnmodified | src/send_file.c:299-314 | a request that sends our tag back, anywhere in a list, is answered 304 |
| FileResponse.EchoedDateIsUnmodified | src/send_file.c:299-314 | a request that sends our date back is answered 304 exactly for times other than -1 up to year 9999 |
| PartHeader.RangeHeaderReads | src/send_file.c:432-440 | read by the grammar of section 14.4 of RFC 9110, the Content-Range of a part says the very positions of the bytes sent and the size of the file; that of a 416 the size alone |
| AnswerTable.HeadersAre | src/send_file.c:384-455 | every header of every answer, name by name: what the answer writes there or what was there before |
| AnswerTable.ExtraWins | src/http_response_server_api.c:346-368 | of the extra headers the last of a name wins |
| AnswerTable.StatusTells | src/send_file.c:240-255 | 200 and 206 tell the whole from a part, 304 and 416 and errors are never overridden |
| AnswerTable.FailureTells | src/send_file.c:642-648 | 404 exactly for a file that cannot be opened where the operation answers errors, 500 for every other failure |
| AnswerTable.ResultTells | src/send_file.c:654-669 | HANDLED exactly without arguments or operation, PASSTHROUGH exactly for a file that cannot be opened where so configured |
| AnswerTable.HandsOver | src/send_file.c:476-505 | a file is read into the response exactly when sent whole, not empty and at most 65536 bytes; any other is handed over from its first byte to its last |
| FileEngine.Engine.Finalize | src/send_file.c:162-190 | closes the own file, frees the state, then calls on_done once |
| FileEngine.Engine.Delegate | src/send_file.c:192-220 | the operation gets the file or the engine keeps it; a state gone by completion is not touched |
| FileEngine.Engine.Complete | src/send_file.c:507-516 | the operation's completion ends the run |
| FileEngine.Engine.DeferDispatch | src/send_file.c:540-559 | the tick emits the planned error or the file, and ends the run when handing over is refused |
| FileEngine.Engine.Tick | src/send_file.c:192-220 | the reply on the wire is that of the planned error or of the decision, if the operation accepts it |
| FileEngine.Engine.ArmAndSchedule | src/send_file.c:563-624 | arms, then schedules the tick or ends at once |
| FileEngine.Engine.HandleOpenFailure | src/send_file.c:626-648 | passes through without on_done, or arms an error |
| FileEngine.SendFile | src/send_file.c:650-763 | the result, the descriptor account and the callbacks of the synchronous part |
| FileEngine.Serve | src/send_file.c:162-763 | over every run: HANDLED calls nothing, PASSTHROUGH only on_passthrough, ASYNC on_armed then on_done once after the state was freed once; every descriptor is closed once, exactly unless HTTP/2 or HTTP/3 refuses late a file it was not to send; status and bytes of the reply are those of the answer; the file is deleted exactly when asked and the operation ended well |
| FileEngine.ServeAndDelete | src/send_file.c:174-180 | over every run that deletes the file: the status is a success exactly when opening, examining, the request and the override allow it, and the bytes sent are the file exactly when the answer delivers it |
| FileEngine.DeliversFile | src/send_file.c:476-505 | exactly the file is sent if and only if the answer is the whole file or the range of all of it and is not held back, or what goes out instead is the same text |
| FileEngine.DeletedAfterHead | src/send_file.c:174-180 | a HEAD request deletes a regular file with nothing sent, over every protocol |
| FileEngine.DeletedAfterError | src/send_file.c:174-180 | an error answer deletes the file |
| FileEngine.ClosedTwice | src/http2/http2_static_response.c:839-845 | a HEAD request over HTTP/2 whose head cannot be submitted closes its one descriptor twice |
| FileHandoff.NothingSentBefore | src/http_response.c:1215-1231 | after any handler calls that leave a pending file nothing was streamed, committed or closed, and the buffered text and whether a Content-Length is set are what the calls before the first accepted sendFile() say |
| FileHandoff.CoherentAfterHandler | src/http_send_file.c:128-212 | from handler calls to the bytes sent, for the answer to any request: the announced length is what is sent exactly unless it miscounts with the body the calls had buffered |
| FileHandoff.LengthOn304 | src/send_file.c:387-408 | a 304 has a Content-Length exactly when the calls before sendFile() set one and did not reset it |
| FileHandoff.BodyOn416 | src/send_file.c:354-376 | write, sendFile and a range past the end: the 416 announces 0 bytes and sends the written one, over every protocol |
| FileHandoff.BodyWithEmptyFile | src/http2/http2_static_response.c:846-864 | write and sendFile of an empty file: 0 bytes announced, the written one sent over HTTP/2 and HTTP/3 |
| FileHandoff.BodyOnHead | src/http2/http2_static_response.c:846-864 | write and sendFile on a HEAD request: the written byte is sent over HTTP/2 |
| FileHandoff.BodyOn304 | src/http3/http3_callbacks.c:950-966 | write, sendFile and our tag sent back: the 304 sends the written byte over HTTP/3 |
| FileHandoff.FileSwallowed | src/http2/http2_static_response.c:846-849 | sendFile of three bytes with status 204 over HTTP/2: 3 announced, none sent |
| FileHandoff.LengthOnReal304 | src/send_file.c:387-408 | setHeader of a Content-Length, sendFile and our tag sent back: the 304 carries it |
| Codel.TripIsSound | src/http_server_class.c:1076-1123 | a trip ends a stretch of consecutive samples at or above target spanning at least 100 ms |
| Codel.PressureIsAnswered | src/http_server_class.c:1076-1123 | samples above target with gaps below d trip within 200 ms + 2d, after any history |
| Drain.BumpsAreSpaced | src/http_server_class.c:1538-1561 | every trigger counts as fired or blocked, and bumps are at least one cooldown apart |
| Drain.BumpsExactly | src/http_server_class.c:1538-1561 | a trigger bumps the epoch exactly when no earlier bump lies within the cooldown |
| Drain.Evaluate | src/http_server_class.c:1568-1610 | one evaluation, entering the drain and being counted together |
| Drain.DrainsOnce | src/http_server_class.c:1586-1609 | a connection enters draining at most once, is counted once, and answers drain from then on |
| Drain.DrainingStays | src/http_server_class.c:1586-1609 | draining is never undone |
| Drain.DrainsExactly | src/http_server_class.c:1586-1605 | a connection is draining exactly when some evaluation found its age reached or an epoch it had not seen |
| Drain.OldEpochIgnored | src/core/http_connection.c:3086-3096 | older epochs never drain a new connection, exactly unless it is HTTP/3 and one had fired |
| Drain.OldEpochDrainsHttp3 | src/http3/http3_connection.c:549-553 | a new HTTP/3 connection drained at its first answer by an old epoch |
| Backpressure.Server.constructor | src/http_server_class.c:3728-3743 | thresholds from the cap, detector clear, listeners polled |
| Backpressure.Low | src/http_server_class.c:3728-3731 | the resume level is the largest number that is at most 80 percent of the cap |
| Backpressure.Server.TriggerDrain | src/http_server_class.c:1538-1561 | bumps the epoch or counts the trigger as blocked |
| Backpressure.Server.PauseListeners | src/http_server_class.c:1017-1040 | stops every listener once, with one drain trigger |
| Backpressure.Server.ResumeListeners | src/http_server_class.c:1042-1067 | starts every listener and clears the detector |
| Backpressure.Server.OnConnectionClose | src/http_server_class.c:1671-1685 | the close hook counts down and resumes at the low level |
| Backpressure.Server.SpawnConnection | src/core/http_connection.c:3005-3147 | a connection that is destroyed while being spawned runs the close hook, whether it is then refused or reported as spawned |
| Backpressure.Server.OnAccept | src/http_server_class.c:2102-2197 | rejects at the cap, spawns, counts what was reported as spawned, and pauses on reaching the cap |
| Backpressure.Server.DestroyConnection | src/core/http_connection.c:328-387 | a live connection goes and runs the close hook |
| Backpressure.Server.OnSample | src/http_server_class.c:1076-1123 | feeds the detector and pauses on a trip |
| Backpressure.RunKeeps | src/http_server_class.c:2108-2128 | in every run the counter stays within the cap and every pause is one trigger, fired or blocked |
| Backpressure.LiveAccounting | src/core/http_connection.c:3005-3147 | in every run the live connections are the counter plus the refused ones charged to it less the dead ones credited to it |
| Backpressure.Admission | src/http_server_class.c:2108-2197 | at every point of a run the counter is the live connections, these are within the cap, and paused listeners have one left, exactly when no spawn is destroyed at the counter's expense and no uncounted sample trips |
| Backpressure.LiveCap | src/http_server_class.c:2108-2128 | the live connections pass the cap exactly when one is spawned while only the counter is below it |
| Backpressure.NeverPausedAlone | src/http_server_class.c:1671-1685 | the listeners are left paused with no live connection exactly by an uncounted sample that trips, by the last close with the counter still high, or by the cap reached by the counter alone |
| Backpressure.CapExceeded | src/core/http_connection.c:3022-3042 | a refused TLS connection lets three live connections in under a cap of two |
| Backpressure.PausedByGhost | src/core/http_connection.c:3143-3146 | a client whose first read fails leaves the listeners paused for good after the next one, every sample counted |
| Backpressure.PausedAlone | src/http_server_class.c:1112-1122 | two slow uncounted samples pause an idle server |
| Backpressure.StuckAlone | src/http_server_class.c:1069-1075 | from there no sample resumes it |
| Backpressure.ResumesAtLow | src/http_server_class.c:1681-1684 | above the low level only the close hook that reaches it resumes |
| Backpressure.CappedPauseLasts | src/http_server_class.c:1681-1684 | a capped pause lasts exactly until the close hook that reaches 80 percent, rounded down |
| Backpressure.CapPauses | src/http_server_class.c:2190-2196 | reaching the cap pauses, above the low level |
| OverloadRuns.TripsOnlyUnderPressure | src/http_server_class.c:1076-1123 | in every server run a CoDel pause ends a stretch of samples since the last resume, all at or above target, spanning at least 100 ms |
| OverloadRuns.PressurePauses | src/http_server_class.c:1076-1123 | in every server run, whatever connections come and go, an unpaused server under steady pressure is paused within 200 ms + 2d |
| OverloadRuns.EpochsSpaced | src/http_server_class.c:1012-1040 | in every server run with a monotone coarse clock the epoch counts the bumps and bumps are a cooldown apart |
| HttpResponse.Response.PutValue | src/http_response.c:106-176 | replaces a header or appends to it, a text turning into an array |
| HttpResponse.Response.Send | src/http_response.c:941-1018 | commits on the first chunk; drops chunks for HEAD |
| HttpResponse.Response.SetGrpcEncoding | src/http_response.c:1026-1076 | declares or withdraws gzip before the first message |
| HttpResponse.Response.WriteMessage | src/http_response.c:1081-1161 | commits and appends one message |
| HttpResponse.Response.SendFile | src/http_response.c:1202-1279 | records the path, refusing what the checks refuse |
| HttpResponse.Response.End | src/http_response.c:1284-1335 | ends the stream once, or closes the buffered response |
| HttpResponse.Response.EnsureStarted | src/http_sse.c:110-175 | starts the event stream with its three headers, or refuses |
| HttpResponse.Response.Sse | src/http_sse.c:258-432 | one record: checked, started, appended |
| HttpResponse.Response.SetBodyView | src/http_response_server_api.c:253-263 | borrows a body and drops the buffered one |
| HttpResponse.Lifecycle | src/http_response.c:47-87 | over every call sequence: streaming means committed and sent, SSE streams, no pending file while streaming, one body, ended at most once and nothing after it |
| HttpResponse.FrozenForGood | src/http_response.c:47-69 | once streaming or closed no handler calls change status, headers or buffered body |
| HttpResponse.SealedExactly | src/http_response.c:1042-1046 | a pending sendFile seals the response exactly unless setGrpcEncoding redeclares the encoding |
| HttpResponse.SealedForGood | src/http_response.c:47-87 | over any handler calls a sealed response stays as it is exactly when none redeclares the encoding |
| HttpResponse.SealBroken | src/http_response.c:1036-1070 | a gRPC response sealed by sendFile gets a grpc-encoding header |
| HttpResponse.ValuesKept | src/http_response.c:96-176 | values are kept in order; the expected storage shape is kept exactly unless empty arrays come in |
| HttpResponse.EmptyArrayBreaksShape | src/http_response.c:148-172 | adding an empty array to one value leaves an array of one |
| HttpResponse.HeadChunks | src/http_response.c:979-982 | over every run a HEAD response has a chunk on the wire exactly when writeMessage(), a server-sent event or final data while streaming met its guards |
| HttpResponse.SpeaksGoesThrough | src/http_response.c:1081-1116 | those guards hold exactly when such a call goes through |
| HttpResponse.HeadMessage | src/http_response.c:1118-1150 | writeMessage() puts a chunk on a HEAD response where send() puts none |
| HttpResponse.HeadEvent | src/http_sse.c:226-233 | a server-sent comment puts a chunk on a HEAD response |
| HttpResponse.EventStreamReads | src/http_sse.c:110-432 | the bytes on the wire of an event stream parse to what the accepted calls meant |
| WireData.WireIsData | src/http_response.c:941-1161 | over every run the pieces on the wire are, in order and unaltered, the data of the calls that met their guards |
| WireData.GzipIsDeclared | src/http_response.c:1026-1076 | a message is compressed according to the last gzip or identity declared before anything was sent |
| WireData.HeadIsSet | src/http_response.c:188-215 | over every run the status and buffered text are what the last call left by its arguments and guards |
| WireData.EventStreamHead | src/http_sse.c:110-175 | over every run an event stream has its three headers |
| WireData.StartsExactly | src/http_sse.c:59-108 | where a content type is set an event stream starts exactly if it begins with text/event-stream, in any case |
| WireData.OwnHeaders | src/http_response.c:777-940 | the headers that json(), html() and redirect() set |
| WireData.NamesFold | src/http_response.c:89-94 | two header names are one exactly when they differ at most in case |

## Left out

- Socket binding, TLS, listener spawning and steering, libuv timers and PHP value transfer: foreign calls, kept only as "accepted or refused" and "armed or not".
- The cancelled-parent path of `start_pool` and a `reload()` after `all_done` fired: outside the run assumptions above.
- The open-file cache: a cache hit supplies the tag, date and type that the model computes.
- HttpDate.ParseImf: the readers of the two obsolete date forms are a parameter; overflow of `%d` past a C int and times whose year does not fit `tm_year` are not modelled.
- Drain.Evaluate: the time a maximum connection age computes for a connection, with its jitter, is an input.
- HttpResponse.Response.Send: the compression wrapper, which adds its headers in the committing call, is not modelled; nor is the exception a dead peer raises, which changes no state.
- HttpResponse.Response.WriteMessage: the chunk is the message and its compressed flag; base64 for grpc-web-text is not modelled, and framing is in GrpcReader.
- GrpcReader.Request.ReadMessage: inflating a flagged payload, the null returned when no coroutine or event can be had, and cancellation while suspended are not modelled.
- FileResponse.Decide: the content type is resolved beforehand; the MIME tables would add only easy members.
- The worker-pool form of sendFile() over HTTP/3, which sends path and options to the reactor: there a fresh response is filled, so nothing is buffered.
- FileResponse.Response.ApplyExtra: names are taken as already in lower case, as the configuration stores them.
- The plain setters of the response object are modelled, each tied to its branch of `HttpResponse.Apply`, and have no row of their own.
- Telemetry counters, paused-time statistics, logging, uploads, configuration getters and the WebSocket hub: easy members or only headers and call sites.
- Memory growth of string buffers and allocation failure.
