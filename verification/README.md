# A verified model of the xrtc media server

A Dafny model of the parts of this WebRTC media server that are hardest to get right, with
proofs over every run, every interleaving or every input. `dafny verify dfyconfig.toml` checks
all of it.

What is modelled, and in which module:

* **The push pipeline across threads.** A push request travels from a signalling worker through
  the server's mutex queue to the rtc worker picked by the CRC32 of the stream name, and its reply
  travels back; every hop is "push, then write a wake-up token to a pipe". `PushPipeline` is a step
  relation over the program counters of any number of workers; `PushPipelineProofs` proves its
  inductive invariant and what follows from it. `LockFreeQueue` takes the single-producer,
  single-consumer queue apart into single pointer reads and writes and shows that it is an atomic
  queue, which is how `PushPipeline` uses it. `Crc32` relates the
  table-driven checksum to the shift register of section 8 of RFC 1952.
* **Framing and connections.** `Xrpc` is the Go client's header, request and response. `Framing`
  is the server's incremental parser and its write loop. `SignalingWorker` is the connection table
  with its watchers and reply lists as objects that callbacks change.
* **SDP.** `SdpText`, `SdpSections`, `SdpLines` and `SdpTags` are the text layer of the browser-side
  `SDPUtils`; `SessionDescription` is what the server prints and what the browser parses;
  `SessionSections` and `SessionRoundTrip` prove that the two fit; `SessionPrinter` and
  `PeerConnection` are the printing loops and `create_offer`. `Transceivers` is the shim's
  transceiver list, `Negotiation` its sessions, `Stats` its walk over the stats graph.
* **Buffers.** `BufferT` (a growable array), `CopyOnWrite` (handles that share counted storage)
  and `ByteBuffer` (typed values and varints).
* **Two compact concurrent cores.** `AsyncResolver` (an object that deletes itself while lookups
  are under way) and `GlogVerbosity` (a level cache with lock-free readers).

`Common` holds the few definitions that several modules share.

## Hypotheses

Stated where they are used, and collected here:

* Memory accesses of the queue and of the flag cache are sequentially consistent; the queue's own
  comment takes pointer operations as atomic (xrtc_server/src/base/lock_free_queue.h:28-29).
* A descriptor is at least 1, the kernel hands out only descriptors that are not open in the table,
  and the address of a connection is not reused while one of its requests is in flight.
* What lies outside the program is an argument: results of reads, writes and pipe writes, what each
  call of `_process_request` returns, clock values, certificate checks, JSON contents, generated
  identifiers, capabilities of the browser, where a browser call throws, and what uninitialised
  memory holds.
* A read gives at most as many bytes as were asked for, a write takes at most what it is given, and
  a write loop gets past a full socket after finitely many attempts. Nothing else is asked of the
  peer: reads that make the parse loop endless are among those `SignalingWorker.Worker.Serve` covers,
  and what they leave is a stuck worker.
* `Framing.FrameDispatchedOnce` is about the parse fields alone, and has no bound on the body.
* A read of a pipe gives one whole integer; one that fails or is cut short, which would lose a token
  or leave garbage in it, is not modelled. A failed write of a token is.

## Findings

Laws that look as if they should hold and do not, each with a failing input and the exact
condition under which it holds:

* The parse loop of `_process_query_buffer` does not always end. After a dispatch it sets the
  processed count to 65535, so it goes on exactly while the buffer holds at least 65535 bytes more
  than the body length and the request is accepted again (`Framing.LoopEndsIff`). Any client can get
  there with a request and 65499 bytes more (`Framing.ClientCanFlood`, `Framing.FloodLoopsIff`), and
  the request is dispatched once for every acceptance (`Framing.OverfullDispatches`).
* `_write_conn` restarts from the front of a reply after a short write. The socket gets exactly the
  replies, whatever their bytes, if and only if no write is short (`Framing.ExactIffWhole`, with
  `Framing.ShortWriteRepeats` as the smallest case).
* The fast path of the verbosity check reads the module count and `-v` separately. Its answers to
  calls with n overlapping `Set` calls are all right if and only if n is at most 1
  (`GlogVerbosity.FastPathRightIff`); from two on there is a run in which it answers as no
  configuration does (`GlogVerbosity.FastPathCanTear`).
* An answer of the shim need not have the sections of the offer. It has them if and only if every
  rejected section is of kind application, audio or video, because no m-line is written for others
  (`Negotiation.TextSectionIsMissing`); then they are rejected alike if and only if every accepted
  section has a common codec (`Negotiation.PortZeroComesBack`), and of the same kinds if and
  only if no accepted section met a transceiver of another kind (`Negotiation.OtherKindComesBack`;
  the conditions are `Transceivers.AnswerMatchesIff`).
* `createAnswer` throws on some offers that were set without an error: on a new connection, exactly
  those under BUNDLE whose first section is rejected while another is not
  (`Negotiation.FirstAnswer`, `Negotiation.NoAnswerBehindRejected`); in general as
  `Transceivers.Connection.CreateAnswer` and `Negotiation.OwnAnswerIsLawful` say. `createOffer`
  throws whenever some transceiver is rejected (`Transceivers.Connection.CreateOffer`,
  `Negotiation.NoOfferAfterRejected`).
* An answer to an own offer need not leave the mids offered: it does if and only if every section it
  rejects carries the mid offered (`Negotiation.RemoteAnswerFits`, `Negotiation.RenamedByAnswer`).
* Adding an attribute line to a media section is exact if and only if the line contains no section
  break and does not end in white space (`SdpSections.AppendLineExactIff`); a candidate text with a
  line break gets through (`SdpSections.CandidateSplitsSection`).
* Format parameters survive printing and parsing if and only if none is called `__proto__`
  (`SessionDescription.ParamsKeptIff`, with `SessionDescription.ProtoIsLost` as the smallest case).
* `AppendData` does not keep the class invariant of the copy-on-write buffer if and only if nothing
  is appended to a null buffer (`CopyOnWrite.World.AppendData`, with `CopyOnWrite.EmptyAppend` as a
  run).
* The read buffer keeps its room in signed 32-bit fields, which overflow on the first read of a body
  if and only if it is longer than 2^31 - 1 - 2^20 bytes (`Framing.BodyRoomFitsIff`, with
  `Framing.FirstOverflow` as the smallest case).

## Model

| member | source | states |
|---|---|---|
| LockFreeQueue.Fifo | xrtc_server/src/base/lock_free_queue.h:62-87 | In every interleaving of single pointer steps, the values consumed are a prefix of the values produced, in order |
| LockFreeQueue.MemorySafe | xrtc_server/src/base/lock_free_queue.h:62-87 | No step touches a freed node, the freed nodes are the oldest and all lie before `divider`, and nothing but the live chain stays allocated |
| LockFreeQueue.SizeWithinOne | xrtc_server/src/base/lock_free_queue.h:65-95 | At every point of every schedule `_size` differs from the number of queued values by at most one either way |
| LockFreeQueue.FailureMeansDrained | xrtc_server/src/base/lock_free_queue.h:76-87 | A `consume` that fails was called when every value of a finished `produce` had been consumed |
| LockFreeQueue.InitInv | xrtc_server/src/base/lock_free_queue.h:47-50 | The constructed queue, one dummy node, satisfies the invariant |
| LockFreeQueue.LinkKeepsInv | xrtc_server/src/base/lock_free_queue.h:63 | Linking the new node while the consumer is anywhere keeps the chain, the values and the absence of leaks |
| LockFreeQueue.AdvanceWriteKeepsInv | xrtc_server/src/base/lock_free_queue.h:64 | Moving `last` onto the new node keeps the invariant with the consumer anywhere |
| LockFreeQueue.SkipWriteKeepsInv | xrtc_server/src/base/lock_free_queue.h:67-69 | Moving `first` past a consumed node keeps it strictly at or before `divider` |
| LockFreeQueue.DeleteKeepsInv | xrtc_server/src/base/lock_free_queue.h:70 | Deleting the skipped node leaves every node from `first` on chained and live |
| LockFreeQueue.FetchValueKeepsInv | xrtc_server/src/base/lock_free_queue.h:78 | The value read behind `divider` is the next one in production order |
| LockFreeQueue.MoveWriteKeepsInv | xrtc_server/src/base/lock_free_queue.h:79 | Moving `divider` records that value as consumed with the producer anywhere |
| LockFreeQueue.StepKeepsInv | xrtc_server/src/base/lock_free_queue.h:62-87 | Every single step of either side keeps the invariant |
| LockFreeQueue.ScheduleInv | xrtc_server/src/base/lock_free_queue.h:41-95 | Hence it holds after every schedule |
| LockFreeQueue.StepRefines | xrtc_server/src/base/lock_free_queue.h:62-87 | Every pointer step is the step of an atomic queue it stands for, or none: a put when `last` is written, a take of the oldest value when `divider` is, a miss when they are found equal |
| LockFreeQueue.Linearizable | xrtc_server/src/base/lock_free_queue.h:62-87 | Every schedule is a run of an atomic queue in which every returned `produce` has put its value once, every returned `consume` has taken or missed once, and misses happen only while the queue is empty |
| Crc32.LoadCrc32Table | xrtc_server/thirdlib/rtcbase_v1/src/rtc_base/crc32.cc:23-37 | The nested loops fill entry i with eight folds of i |
| Crc32.UpdateCrc32 | xrtc_server/thirdlib/rtcbase_v1/src/rtc_base/crc32.cc:39-48 | The table-driven update equals the bit-by-bit shift register for every start value and byte string |
| Crc32.TableStep | xrtc_server/thirdlib/rtcbase_v1/src/rtc_base/crc32.cc:44-46 | One table lookup equals clocking the eight bits of a byte into the register |
| Crc32.ClocksAreFolds | xrtc_server/thirdlib/rtcbase_v1/src/rtc_base/crc32.cc:27-33 | Clocking bits in one by one equals exclusive-or first and folding afterwards |
| Crc32.FoldXor | xrtc_server/thirdlib/rtcbase_v1/src/rtc_base/crc32.cc:27-33 | Folding is linear over exclusive or |
| Crc32.UpdateConcat | xrtc_server/thirdlib/rtcbase_v1/src/rtc_base/crc32.cc:39-48 | Updating with a and then with b equals updating with their concatenation |
| PushPipeline.WorkerFor | xrtc_server/src/server/rtc_server.cpp:219-227 | The index computed from the checksum of the stream name is within the worker list |
| PushPipelineProofs.SameStreamSameWorkerInOrder | xrtc_server/src/server/rtc_server.cpp:182-247 | In every interleaving all requests for one stream name are handled by one rtc worker, and every worker handles its requests in the order they entered the server queue |
| PushPipelineProofs.ExactlyOnePlace | xrtc_server/src/server/rtc_worker.cpp:84-178 | An issued request is at each moment in exactly one place: a queue, a thread's hands, answered or dropped |
| PushPipelineProofs.AnsweredOnceWhereAsked | xrtc_server/src/server/signaling_worker.cpp:359-497 | A request is answered at most once, only on the live connection and worker that issued it |
| PushPipelineProofs.TokensAreBacked | xrtc_server/src/server/rtc_server.cpp:33-45 | For every queue the tokens in its pipe, in its reader's hand, still owed after a push, and lost by a failed write are exactly as many as its messages, so no pop on a token fails |
| PushPipelineProofs.NothingStranded | xrtc_server/src/server/signaling_worker.cpp:418-425 | When all threads are idle and all pipes empty, each queue holds exactly as many messages as writes to its pipe have failed |
| PushPipelineProofs.GuardsHold | xrtc_server/src/server/rtc_server.cpp:229-234 | The message dereferenced before its null check is there whenever the server gets to it, the server never crashes on one, and no thread notifies a worker that does not exist |
| PushPipelineProofs.StepConserves | xrtc_server/src/server/signaling_worker.cpp:395-425 | Every step keeps the count of each request over all places; only a dispatch adds one |
| PushPipelineProofs.StepOrdered | xrtc_server/src/server/rtc_worker.cpp:84-137 | Every step keeps, for each rtc worker, handled then queued then unrouted requests in issue order |
| PushPipelineProofs.StepBacked | xrtc_server/src/server/signaling_worker.cpp:164-184 | Every step keeps the tokens of each kind, written, in hand, owed or lost, equal in number to the messages |
| PushPipelineProofs.StepAddressed | xrtc_server/src/server/signaling_worker.cpp:440-456 | Every step keeps that a descriptor and address naming a request in flight name its own connection or none |
| PushPipelineProofs.StepInv | xrtc_server/src/server/signaling_worker.cpp:164-497 | Every step of every thread keeps the whole invariant |
| PushPipelineProofs.ReachableInv | xrtc_server/src/server/signaling_worker.cpp:164-497 | Hence it holds in every reachable state, for any number of workers |
| Xrpc.Marshal | signaling/src/framework/xrpc/header.go:28-42 | Writes the 36 little-endian bytes and leaves the rest of the buffer alone; refuses a short buffer |
| Xrpc.UnMarshal | signaling/src/framework/xrpc/header.go:44-58 | Fails exactly on fewer than 36 bytes; otherwise returns the header whose encoding stands in front, so that a marshalled header with anything behind it comes back |
| Xrpc.DecodeEncode | signaling/src/framework/xrpc/header.go:28-58 | Decoding an encoded header gives the header, whatever follows it |
| Xrpc.EncodeDecode | signaling/src/framework/xrpc/header.go:28-58 | Encoding what was decoded gives the 36 bytes back |
| Xrpc.Stream.ReadFull | signaling/src/framework/xrpc/response.go:24-26 | Takes exactly the bytes asked for off the stream, or fails |
| Xrpc.ReadResponse | signaling/src/framework/xrpc/response.go:13-29 | Returns header and body, or the error of a short stream or a wrong magic number |
| Xrpc.ReplyHeader | xrtc_server/src/server/signaling_worker.cpp:459-489 | The header of a reply is the request's header with the length of the reply body |
| Xrpc.ReplyIsReadBack | xrtc_server/src/server/signaling_worker.cpp:459-489 | The client reads from a reply frame exactly the reply body |
| Framing.LoopEndsIff | xrtc_server/src/server/signaling_worker.cpp:270-298 | Whatever successive calls of `_process_request` return, the parse loop ends if and only if the buffer holds fewer than 65535 bytes more than the body length or some call refuses |
| Framing.OverfullDispatches | xrtc_server/src/server/signaling_worker.cpp:287-294 | On a buffer with that many bytes the same request is dispatched once for every acceptance, and once more if a refusal ends it |
| Framing.OthersDispatchOnce | xrtc_server/src/server/signaling_worker.cpp:270-298 | On any other buffer at most one request is dispatched and the loop ends |
| Framing.OverfullAfterFrame | xrtc_server/src/server/signaling_worker.cpp:292-294 | After an accepted frame the buffer comes to that state exactly when 65499 more bytes are there |
| Framing.FloodLoopsIff | xrtc_server/src/server/signaling_worker.cpp:233-298 | In whatever reads the bytes behind an accepted frame come, the thread loops if and only if there are at least 65499 of them |
| Framing.ClientCanFlood | xrtc_server/src/server/signaling_worker.cpp:233-298 | Any frame with a body and 65499 further bytes do it, in reads no longer than `bytes_expected`, for any number of acceptances |
| Framing.Process | xrtc_server/src/server/signaling_worker.cpp:270-298 | A loop that ends leaves the parse fields coherent with the header at the front of the buffer |
| Framing.ProcessStaysInBody | xrtc_server/src/server/signaling_worker.cpp:270-298 | The parser never goes back to the head state, so a connection serves one request |
| Framing.FrameRead | xrtc_server/src/server/signaling_worker.cpp:233-298 | Whatever part of a frame has arrived, the next read leaves the parser where the frame's bytes say |
| Framing.FrameDispatchedOnce | xrtc_server/src/server/signaling_worker.cpp:233-298 | However the bytes of a frame are split into reads, exactly one request with its header and body is dispatched, at the last byte; if it is refused the connection ends there |
| Framing.OneMoreRead | xrtc_server/src/server/signaling_worker.cpp:233-268 | A read continues where the reads before it have left the parser, with the results they have not used |
| Framing.ClientFrame | signaling/src/framework/xrpc/request.go:15-42 | What the client writes for a body below 2^31 bytes is such a frame, with the client's header fields |
| Framing.RoomFitsIff | xrtc_server/thirdlib/rtcbase_v1/src/rtc_base/sds.cc:94-112 | The signed field `free` of the read buffer overflows if and only if a read of more than 2^31 - 1 - 2^20 bytes finds too little room |
| Framing.BodyRoomFitsIff | xrtc_server/thirdlib/rtcbase_v1/src/rtc_base/sds.cc:94-112 | Hence after the header of a frame it overflows if and only if the body is longer than that |
| Framing.FirstOverflow | xrtc_server/thirdlib/rtcbase_v1/src/rtc_base/sds.cc:94-112 | The first read of a body one byte longer overflows it |
| Framing.Exchange | xrtc_server/src/server/signaling_worker.cpp:233-489 | Request and reply together, for every body the read buffer has room for: one dispatch with the fields sent, and a reply frame the client reads as the reply body |
| Framing.WholeWritesAreExact | xrtc_server/src/server/signaling_worker.cpp:38-74 | If every write takes the whole reply, nothing, or fails, the socket gets the replies in order and nothing twice |
| Framing.ExactIffWhole | xrtc_server/src/server/signaling_worker.cpp:46-65 | For given write results, the bytes sent are the replies for all reply contents if and only if no write was short |
| Framing.ShortWriteRepeats | xrtc_server/src/server/signaling_worker.cpp:62-64 | Two bytes written one at a time go out as the first byte twice over |
| SignalingWorker.IOWatcher.Start | xrtc_server/src/base/event_loop.cpp:73-91 | Adds to the mask of an active watcher, sets it on an inactive one |
| SignalingWorker.IOWatcher.Stop | xrtc_server/src/base/event_loop.cpp:94-110 | Takes from the mask and stops the watcher when nothing is left |
| SignalingWorker.IOWatcher.Delete | xrtc_server/src/base/event_loop.cpp:112-116 | Stops the watcher for good |
| SignalingWorker.TcpConnection.constructor | xrtc_server/src/server/tcp_connection.h:12-33 | A connection starts in the head state, expecting a header, with no replies |
| SignalingWorker.Worker.NewConn | xrtc_server/src/server/signaling_worker.cpp:186-218 | The table grows to hold the descriptor and its slot gets a live connection with READ armed; failures leave the table alone |
| SignalingWorker.Worker.CloseConn | xrtc_server/src/server/signaling_worker.cpp:220-231 | The slot is emptied, the connection closed and its watcher deleted, all others untouched |
| SignalingWorker.Worker.ProcessTimeout | xrtc_server/src/server/signaling_worker.cpp:82-89 | Closes exactly the connections idle for the timeout, and those whose last activity lies in the future after the clock was set back, as the unsigned difference says |
| SignalingWorker.Worker.ProcessQueryBuffer | xrtc_server/src/server/signaling_worker.cpp:270-298 | The loop on the connection's fields dispatches, ends or does not end as the parser specification says, for every buffer and all outcomes |
| SignalingWorker.Worker.ReadConn | xrtc_server/src/server/signaling_worker.cpp:233-268 | Dispatches what the received bytes complete, closes on a broken read or a refused request, gets stuck in the endless loop or on a body the buffer has no room for, ignores a descriptor without connection |
| SignalingWorker.Worker.AddReply | xrtc_server/src/server/signaling_worker.cpp:492-497 | Queues the reply at the end and arms WRITE |
| SignalingWorker.Worker.ResponseServerOffer | xrtc_server/src/server/signaling_worker.cpp:440-490 | A reply is queued if and only if the table still holds that connection under that descriptor and memory is there; it is the request's header with the new length and body |
| SignalingWorker.Worker.WriteLoop | xrtc_server/src/server/signaling_worker.cpp:46-65 | The loop on the reply list gives the socket what the write specification says |
| SignalingWorker.Worker.WriteConn | xrtc_server/src/server/signaling_worker.cpp:38-74 | Afterwards either the connection is closed or no reply is left and WRITE is off |
| SignalingWorker.Worker.ConnIoCb | xrtc_server/src/server/signaling_worker.cpp:27-36 | One event with READ and WRITE never acts on a connection its read has closed, by a broken read or a refused request, nor when the read does not return |
| SignalingWorker.Worker.Callback | xrtc_server/src/server/signaling_worker.cpp:27-89 | Every callback keeps: slot i holds a live connection with descriptor i, READ armed, WRITE armed exactly when replies are queued, and each connection has dispatched exactly what its reads deliver; a stuck thread changes nothing any more |
| SignalingWorker.Worker.Serve | xrtc_server/src/server/signaling_worker.cpp:27-497 | So does every sequence of callbacks; the reads are those of its events, in their order |
| SignalingWorker.ReadIsTold | xrtc_server/src/server/signaling_worker.cpp:233-298 | A read of one connection continues the delivery of its bytes, appends what it dispatches, and leaves the deliveries and dispatches of all others alone |
| SdpText.SplitOfJoin | screen_share/static/js/adapter.js:4740-4751 | Splitting joined parts gives the parts, if no part contains the separator |
| SdpText.SplitIsClean | screen_share/static/js/adapter.js:4740-4751 | Joining split parts gives the text, and no part contains the separator |
| SdpText.TrimNeat | screen_share/static/js/adapter.js:4740-4751 | Trimming takes white space off the end of a text that has none at its ends, and nothing else |
| SdpSections.SplitGivesSections | screen_share/static/js/adapter.js:4746-4751 | Every section of every blob ends in one line end, is trimmed, contains no section break, and begins with `m=` unless it is the first |
| SdpSections.ConcatResplits | screen_share/static/js/adapter.js:4746-4764 | Such sections, joined, are split into the same sections |
| SdpSections.SplitJoinSplit | screen_share/static/js/adapter.js:4746-4764 | Split, join and split equals split for every blob |
| SdpSections.AppendLineExactIff | screen_share/static/js/adapter.js:3519-3529 | Adding an attribute line to media section k changes section k by exactly that line and no other, if and only if the line contains no section break and does not end in space |
| SdpSections.CandidateSplitsSection | screen_share/static/js/adapter.js:4579-4589 | For every blob and section, a candidate text with a line break and `m=` in it makes the result wrong |
| SdpSections.TrailingSpaceIsLost | screen_share/static/js/adapter.js:3519-3529 | So does every line that ends in a space |
| SdpLines.LinesOfText | screen_share/static/js/adapter.js:4740-4744 | Lines written with CRLF are split into the same lines |
| SdpLines.ParseDecimal | screen_share/static/js/adapter.js:4859-4872 | `parseInt` reads a printed number back |
| SdpTags.FilterPrinted | screen_share/static/js/adapter.js:4767-4771 | A search by prefix finds exactly the lines of that kind whose remainder begins as asked |
| SdpTags.Apart | xrtc_server/src/pc/session_description.cpp:95-213 | No kind of line that is printed begins like another kind that is searched for |
| SessionDescription.ParamMapHolds | xrtc_server/src/pc/session_description.cpp:99-105 | With distinct keys the parameter map holds exactly the parameters, but for one called `__proto__` |
| SessionDescription.ParamsKeptIff | screen_share/static/js/adapter.js:4912-4921 | No parameter is lost if and only if none has that name |
| SessionDescription.ProtoIsLost | screen_share/static/js/adapter.js:4912-4921 | Of the parameters `__proto__` and `apt` only the second is kept |
| SessionSections.SectionsOfText | xrtc_server/src/pc/session_description.cpp:153-213 | The printed text is split exactly where the printed sections meet |
| SessionSections.PrintedLines | xrtc_server/src/pc/session_description.cpp:153-213 | A printed section is read as the lines it was printed from |
| SessionSections.TransportIsThere | xrtc_server/src/pc/session_description.cpp:85-93 | The transport found has the mid asked for; none is found only if none has it |
| SessionRoundTrip.RtpMapReadBack | screen_share/static/js/adapter.js:4859-4873 | `parseRtpMap` reads id, name, clock rate and channels from what `build_rtp_map` wrote |
| SessionRoundTrip.FeedbackReadBack | screen_share/static/js/adapter.js:4946-4952 | `parseRtcpFb` reads type and parameter, spaces inside it included, from what `add_rtcp_fb_line` wrote |
| SessionRoundTrip.FmtpReadBack | screen_share/static/js/adapter.js:4912-4921 | `parseFmtp` reads the parameter map from what `add_fmtp_line` wrote; a JavaScript object does not keep a string under `__proto__` |
| SessionRoundTrip.FindOwn | screen_share/static/js/adapter.js:5071-5083 | With distinct payload types a search for one finds that codec's lines and no other's |
| SessionRoundTrip.CodecReadBack | screen_share/static/js/adapter.js:5071-5084 | Each codec is read back with its mapping, parameters and feedback |
| SessionRoundTrip.RtpParametersReadBack | screen_share/static/js/adapter.js:5062-5101 | The codecs of a section are read back in order |
| SessionRoundTrip.MidReadBack | screen_share/static/js/adapter.js:5000-5005 | The mid is read back |
| SessionRoundTrip.IceReadBack | screen_share/static/js/adapter.js:5040-5053 | The ICE parameters are those of the section's transport, and are missing exactly when it has none |
| SessionRoundTrip.DirectionReadBack | screen_share/static/js/adapter.js:5422-5440 | The direction is the printed one, whatever the session part says |
| SessionRoundTrip.RoundTrip | xrtc_server/src/pc/session_description.cpp:95-213 | For every session description with delimiter-free tokens the printed text parses into the same sections, in order, with the same mid, direction, ICE parameters, codecs, feedback and parameters |
| SessionPrinter.AddFmtpLine | xrtc_server/src/pc/session_description.cpp:95-109 | The loop appends the parameter line, or nothing if there are no parameters |
| SessionPrinter.AddRtcpFbLine | xrtc_server/src/pc/session_description.cpp:111-119 | The loop appends one line per feedback parameter |
| SessionPrinter.BuildRtpMap | xrtc_server/src/pc/session_description.cpp:140-151 | The loop appends mapping, feedback and parameters codec by codec |
| SessionPrinter.FindTransport | xrtc_server/src/pc/session_description.cpp:85-93 | The loop finds the first transport with the mid |
| SessionPrinter.PrintMedia | xrtc_server/src/pc/session_description.cpp:179-210 | One section is printed line by line as specified |
| SessionPrinter.PrintSession | xrtc_server/src/pc/session_description.cpp:153-177 | The session part, with at most one bundle group |
| SessionPrinter.ToString | xrtc_server/src/pc/session_description.cpp:153-213 | The stream holds exactly the text the round trip is about |
| PeerConnection.AddTransportInfo | xrtc_server/src/pc/session_description.cpp:62-83 | The credentials are found under the section's mid afterwards, with the fingerprint exactly if there is a certificate, unless an earlier transport has that mid; other mids find what they found; nothing changes if the fingerprint cannot be made |
| PeerConnection.Describe | xrtc_server/src/pc/peer_connection.cpp:31-59 | The description built step by step: a section for each kind to be received, its transport, the bundle |
| PeerConnection.OfferIsGood | xrtc_server/src/pc/session_description.cpp:9-47 | Every offer with the fixed codec lists is within the round trip |
| PeerConnection.CreateOffer | xrtc_server/src/pc/peer_connection.cpp:25-62 | Without a needed certificate nothing; otherwise the browser side reads exactly the sections to be received with their mid, direction, credentials and codecs |
| Stats.WalkStats | screen_share/static/js/adapter.js:2825-2839 | Ends on every graph; adds only reports reachable from the base, each with everything it refers to |
| Stats.FilterStats | screen_share/static/js/adapter.js:2842-2862 | Returns exactly the reports reachable from the rtp reports of the track, although all starting points share one visited map |
| Stats.ClosedHoldsPath | screen_share/static/js/adapter.js:2830-2838 | A set closed under reference holds every path that starts in it |
| Stats.NothingMissing | screen_share/static/js/adapter.js:2854-2860 | A closed map with all starting points holds everything wanted and nothing else |
| Transceivers.Connection.CreateTransceiver | screen_share/static/js/adapter.js:3269-3300 | The new transceiver is the last and free one of its kind, has the transports of transceiver 0 under BUNDLE, counts once, and nothing moves |
| Transceivers.Connection.AddTrack | screen_share/static/js/adapter.js:3302-3338 | Refuses a known track; otherwise the last free transceiver of the kind, or a new one at the end, gets it and no other changes |
| Transceivers.Connection.LimitReceiving | screen_share/static/js/adapter.js:4282-4294 | Changes nothing but the wish to receive and computes how many of each kind are missing |
| Transceivers.Connection.AddReceiving | screen_share/static/js/adapter.js:4297-4306 | Appends exactly the missing transceivers of each kind, with the transports of transceiver 0 under BUNDLE |
| Transceivers.Connection.Prepare | screen_share/static/js/adapter.js:4310-4383 | Gives every transceiver a mid, a gatherer and an SSRC made from its index unless it has them, up to a browser call that throws |
| Transceivers.Connection.CreateOffer | screen_share/static/js/adapter.js:4239-4416 | Throws if and only if a browser call does or some transceiver has no transports, as every rejected one; else one section per transceiver at its index, which then has an encoding, a gatherer and local capabilities. Either way as many of each kind as asked for or already there, and kinds, tracks and transports stay |
| Transceivers.Connection.CreateAnswer | screen_share/static/js/adapter.js:4418-4512 | Throws if and only if a browser call does or an accepted section's transceiver lacks capabilities, transports or encoding; else the sections are those of `AnswerSections`, with no m-line for rejected sections of other kinds and port 0 without a common codec |
| Transceivers.Connection.ApplySection | screen_share/static/js/adapter.js:3782-4045 | Section i changes transceiver i only, and to exactly what `Applied` says: an offer names, creates or recycles it, an answer leaves mid, track and primary SSRC alone. It throws exactly if a browser call does or an answer accepts what was not there, has no local capabilities or, on its own, no transports |
| Transceivers.Connection.SetRemoteDescription | screen_share/static/js/adapter.js:3745-4058 | It succeeds exactly if nothing throws at any section, and then every section has left its mark at its index; a throw part way leaves the old description, and transceivers neither rejected nor replaced remain what they were, with their mids for an answer |
| Transceivers.SsrcsDistinct | screen_share/static/js/adapter.js:4363-4374 | SSRCs made from different indices, retransmission ones included, are distinct |
| Transceivers.StaysAligned | screen_share/static/js/adapter.js:3871-3904 | What keeps order, mids and encodings keeps the sections of the remote offer at their indices |
| Transceivers.AppliedServes | screen_share/static/js/adapter.js:3786-3904 | What section k of an offer leaves serves it: its mid and kind at its index, with encoding and capabilities, and transports exactly as the list before says |
| Transceivers.OfferAligns | screen_share/static/js/adapter.js:3745-4058 | So after an offer set whole every section is the transceiver at its index |
| Transceivers.AnswerMatchesIff | screen_share/static/js/adapter.js:4442-4504 | An answer has the sections of its offer if and only if every rejected section is application, audio or video; then they are rejected alike if and only if codecs are shared, and of the same kind if and only if the offer met no transceiver of another kind |
| Transceivers.AnswerSectionsAt | screen_share/static/js/adapter.js:4446-4467 | A section is lost for exactly those transceivers that are rejected and of another kind |
| Negotiation.TextSectionIsMissing | screen_share/static/js/adapter.js:4447-4467 | The answer to an offer of an audio and a rejected text section has one section |
| Negotiation.PortZeroComesBack | screen_share/static/js/adapter.js:5105-5110 | An accepted section comes back rejected when no codec is shared |
| Negotiation.OtherKindComesBack | screen_share/static/js/adapter.js:3871-3874 | A video section that meets an audio transceiver is answered with an audio section |
| Transceivers.BundleNeedsFirst | screen_share/static/js/adapter.js:3288-3290 | On a new connection an offer can be answered unless, under BUNDLE, its first section is rejected and another is not |
| Negotiation.NoAnswerBehindRejected | screen_share/static/js/adapter.js:2888-2897 | The offer of a rejected audio and an accepted video section under BUNDLE is not answered |
| Negotiation.NoOfferAfterRejected | screen_share/static/js/adapter.js:2891-2896 | After a remote offer with a rejected section `createOffer` throws |
| Negotiation.RenamedByAnswer | screen_share/static/js/adapter.js:3791-3806 | An answer that rejects the only section under another mid leaves that mid on the transceiver |
| Negotiation.FirstAnswer | screen_share/static/js/adapter.js:3745-4512 | A new connection answers an offer unless, under BUNDLE, the first section is rejected and another is not, and the answer is the offer's list of sections if and only if nothing vanishes and codecs are shared |
| Negotiation.StaysAtIndex | screen_share/static/js/adapter.js:3786-4045 | In every session, between any two points, the list grows at its end only, and the transceiver at an index keeps kind, rejection and primary SSRC unless a section rejects or recycles it, and its mid unless that or a remote offer renames it |
| Negotiation.OwnOfferStays | screen_share/static/js/adapter.js:4385-4410 | In every session section i of an own offer is transceiver i at every later point, with its kind and mid, until such a call |
| Negotiation.RemoteAnswerFits | screen_share/static/js/adapter.js:3965-4041 | In every session an answer to the own offer is set if and only if no browser call throws and it accepts no section that was not offered; each offered section then has its transceiver, kind, track and SSRC at its index, and its mid unless the answer rejects it under another |
| Negotiation.RemoteOfferServed | screen_share/static/js/adapter.js:3871-3960 | In every session the sections of an offer set whole are the transceivers at their indices at every point until the next remote description |
| Negotiation.OwnAnswerIsLawful | screen_share/static/js/adapter.js:4418-4512 | In every session every `createAnswer` in that time answers exactly if no call throws and the accepted sections have transports, and the answer matches the offer exactly as `AnswerMatchesIff` says |
| Negotiation.SessionKeeps | screen_share/static/js/adapter.js:3302-4512 | All of it together, with all SSRCs pairwise distinct at every point |
| Negotiation.Negotiate | screen_share/static/js/adapter.js:3745-4512 | Whatever the calls, the connection goes through a session of these calls, one call after the other with what each returns, and the session keeps all of the above |
| BufferT.BufferT.EnsureCapacityWithHeadroom | xrtc_server/thirdlib/rtcbase_v1/src/rtc_base/buffer.h:358-380 | Keeps the contents; a new block has the asked capacity or one and a half times the old; the old block is wiped if so configured |
| BufferT.BufferT.AppendData | xrtc_server/thirdlib/rtcbase_v1/src/rtc_base/buffer.h:261-269 | The contents grow by the elements |
| BufferT.BufferT.SetData | xrtc_server/thirdlib/rtcbase_v1/src/rtc_base/buffer.h:207-215 | The contents become the elements; with zero-on-free no old element stays behind them |
| BufferT.BufferT.SetSize | xrtc_server/thirdlib/rtcbase_v1/src/rtc_base/buffer.h:323-330 | Keeps what fits; with zero-on-free cut elements are wiped |
| BufferT.BufferT.EnsureCapacity | xrtc_server/thirdlib/rtcbase_v1/src/rtc_base/buffer.h:335-339 | Exactly the capacity asked for, same contents |
| BufferT.BufferT.Clear | xrtc_server/thirdlib/rtcbase_v1/src/rtc_base/buffer.h:343-347 | Empty, same block, wiped if so configured |
| BufferT.BufferT.ZeroTrailingData | xrtc_server/thirdlib/rtcbase_v1/src/rtc_base/buffer.h:209-214 | Wipes exactly the cells behind the contents |
| BufferT.Replay | xrtc_server/thirdlib/rtcbase_v1/src/rtc_base/buffer.h:207-380 | Over any run from empty the contents follow a plain sequence, reallocations copy at most three times the capacity, and the capacity is at most 1.5 times the largest size |
| CopyOnWrite.AssignKeeps | xrtc_server/thirdlib/rtcbase_v1/src/api/scoped_refptr.h:121-129 | Assigning a pointer, its own included, keeps every count equal to the number of handles and storage alive exactly while it has one, and changes what one handle shows |
| CopyOnWrite.EditKeeps | xrtc_server/thirdlib/rtcbase_v1/src/rtc_base/copy_on_write_buffer.cc:97-105 | Writing storage with one reference is seen through no other handle |
| CopyOnWrite.MoveIsCopyThenDrop | xrtc_server/thirdlib/rtcbase_v1/src/api/scoped_refptr.h:140-157 | A move ends in the same memory as a copy followed by dropping the source |
| CopyOnWrite.MoveKeeps | xrtc_server/thirdlib/rtcbase_v1/src/api/scoped_refptr.h:140-157 | A move hands the value over and empties the source; onto itself it changes nothing |
| CopyOnWrite.Store.Release | xrtc_server/thirdlib/rtcbase_v1/src/api/ref_counted_base.h:24-31 | Deletes the object when the last reference goes |
| CopyOnWrite.World.Assign | xrtc_server/thirdlib/rtcbase_v1/src/api/scoped_refptr.h:121-129 | Counting up, releasing and pointing is that assignment, and never touches deleted storage |
| CopyOnWrite.World.CopyFrom | xrtc_server/thirdlib/rtcbase_v1/src/rtc_base/copy_on_write_buffer.h:111-118 | The handle shows what the other shows |
| CopyOnWrite.World.MoveFrom | xrtc_server/thirdlib/rtcbase_v1/src/rtc_base/copy_on_write_buffer.h:120-125 | The value moves, self-move included |
| CopyOnWrite.World.Swap | xrtc_server/thirdlib/rtcbase_v1/src/rtc_base/copy_on_write_buffer.h:219-222 | Two handles exchange what they show, and a handle swapped with itself keeps it |
| CopyOnWrite.World.Destroy | xrtc_server/thirdlib/rtcbase_v1/src/api/scoped_refptr.h:100-103 | The handle is gone and all others show what they showed |
| CopyOnWrite.World.CloneDataIfReferenced | xrtc_server/thirdlib/rtcbase_v1/src/rtc_base/copy_on_write_buffer.cc:97-105 | Afterwards the storage has one reference and the same bytes |
| CopyOnWrite.World.WriteAt | xrtc_server/thirdlib/rtcbase_v1/src/rtc_base/copy_on_write_buffer.h:76-136 | One byte of one handle changes |
| CopyOnWrite.World.SetData | xrtc_server/thirdlib/rtcbase_v1/src/rtc_base/copy_on_write_buffer.h:148-158 | One handle shows the new bytes |
| CopyOnWrite.World.AppendData | xrtc_server/thirdlib/rtcbase_v1/src/rtc_base/copy_on_write_buffer.h:180-192 | One handle shows its bytes followed by the new ones; the class stays consistent unless nothing is appended to a null buffer |
| CopyOnWrite.World.SetSize | xrtc_server/thirdlib/rtcbase_v1/src/rtc_base/copy_on_write_buffer.cc:48-66 | One handle is cut or extended, shared or not |
| CopyOnWrite.World.EnsureCapacity | xrtc_server/thirdlib/rtcbase_v1/src/rtc_base/copy_on_write_buffer.cc:68-83 | Room for what was asked, nothing seen to change |
| CopyOnWrite.World.Clear | xrtc_server/thirdlib/rtcbase_v1/src/rtc_base/copy_on_write_buffer.cc:85-95 | One handle is empty and keeps its capacity |
| CopyOnWrite.Run | xrtc_server/thirdlib/rtcbase_v1/src/rtc_base/copy_on_write_buffer.h:76-192 | Every program of copies, moves, swaps, writes, non-self appends, resizes, clears and destructions computes what it computes over independent byte strings, with every count exact; without empty appends no storage has capacity 0 |
| CopyOnWrite.EmptyAppend | xrtc_server/thirdlib/rtcbase_v1/src/rtc_base/copy_on_write_buffer.h:180-186 | Nothing appended to a new buffer makes storage of capacity 0 |
| ByteBuffer.BigEndianRoundTrip | xrtc_server/thirdlib/rtcbase_v1/src/rtc_base/byte_buffer.h:38-58 | A number in n bytes is read back modulo 256 to the n |
| ByteBuffer.VarintScans | xrtc_server/thirdlib/rtcbase_v1/src/rtc_base/byte_buffer.cc:107-128 | Every 64-bit varint decodes to itself whatever follows it |
| ByteBuffer.VarintAtMostTen | xrtc_server/thirdlib/rtcbase_v1/src/rtc_base/byte_buffer.h:62-72 | It takes at most ten bytes |
| ByteBuffer.ScanSucceedsIff | xrtc_server/thirdlib/rtcbase_v1/src/rtc_base/byte_buffer.cc:107-128 | Reading succeeds if and only if one of the first ten bytes ends the varint, and uses at most those |
| ByteBuffer.ReadsBack | xrtc_server/thirdlib/rtcbase_v1/src/rtc_base/byte_buffer.cc:45-151 | Every typed value is read back, 24-bit ones modulo 2^24, using exactly its bytes |
| ByteBuffer.Writer.WriteUVarint | xrtc_server/thirdlib/rtcbase_v1/src/rtc_base/byte_buffer.h:62-72 | The loop appends the varint |
| ByteBuffer.Writer.Write | xrtc_server/thirdlib/rtcbase_v1/src/rtc_base/byte_buffer.h:38-76 | Each write appends its encoding; three bytes are the low ones of four |
| ByteBuffer.Reader.ReadBytes | xrtc_server/thirdlib/rtcbase_v1/src/rtc_base/byte_buffer.cc:143-151 | Returns the next bytes and moves past them, or fails and stays |
| ByteBuffer.Reader.ReadUVarint | xrtc_server/thirdlib/rtcbase_v1/src/rtc_base/byte_buffer.cc:107-128 | The loop reads what the scan specification says and uses up those bytes, also when it fails |
| ByteBuffer.Reader.ReadKind | xrtc_server/thirdlib/rtcbase_v1/src/rtc_base/byte_buffer.cc:45-105 | Each typed read agrees with its specification |
| ByteBuffer.Exchange | xrtc_server/thirdlib/rtcbase_v1/src/rtc_base/byte_buffer.h:38-76 | Any sequence of writes read by the same sequence of reads returns the same values and consumes exactly the bytes written |
| AsyncResolver.DeletedExactlyOnce | xrtc_server/thirdlib/rtcbase_v1/src/rtc_base/async_resolver.cc:175-204 | In every schedule the resolver is deleted at most once and only after `Destroy`; between tasks it is deleted if and only if `Destroy` was called |
| AsyncResolver.NeverOnDeleted | xrtc_server/thirdlib/rtcbase_v1/src/rtc_base/async_resolver.cc:122-151 | No member function, `ResolveDone` among them, runs on a deleted resolver |
| AsyncResolver.DeliveredOnce | xrtc_server/thirdlib/rtcbase_v1/src/rtc_base/async_resolver.cc:122-151 | Each lookup is delivered at most once, and none is lost while `Destroy` has not been called |
| AsyncResolver.DestroyCompletes | xrtc_server/thirdlib/rtcbase_v1/src/rtc_base/async_resolver.cc:106-113 | The destructor cannot deadlock: after `Destroy` the deletion is always at most seven steps away |
| AsyncResolver.StepDeliveries | xrtc_server/thirdlib/rtcbase_v1/src/rtc_base/async_resolver.cc:122-151 | Every step keeps deliveries made, in hand and to come without repetition |
| AsyncResolver.RunInv | xrtc_server/thirdlib/rtcbase_v1/src/rtc_base/async_resolver.cc:96-204 | The invariant on lifetime, mutex and deliveries holds at every point of every run |
| GlogVerbosity.FirstMatchDecides | signaling/src/third_lib/glog/glog_flags.go:205-210 | The first matching pattern decides the level, `-v` if none matches |
| GlogVerbosity.CacheCoherent | signaling/src/third_lib/glog/glog_flags.go:115-213 | Whenever the mutex is free every cached level is the one the current flags give |
| GlogVerbosity.LookupLinearizes | signaling/src/third_lib/glog/glog_flags.go:188-227 | An answer through cache or lock is the one of a configuration in force or being set between the beginning and the end of the call |
| GlogVerbosity.FastPathAgrees | signaling/src/third_lib/glog/glog_flags.go:215-220 | While no configuration during the call has module patterns, the fast path answers as the slow path would |
| GlogVerbosity.OneSetIsHarmless | signaling/src/third_lib/glog/glog_flags.go:215-220 | With at most one overlapping `Set` the answer of the fast path is that of a configuration during the call, patterns or not |
| GlogVerbosity.FastPathRightIff | signaling/src/third_lib/glog/glog_flags.go:215-220 | All answers of the fast path to calls with n overlapping `Set` calls are right if and only if n is at most 1 |
| GlogVerbosity.FastPathCanTear | signaling/src/third_lib/glog/glog_flags.go:215-220 | For every number of overlapping `Set` calls from two on, a run in which the fast path says yes and every configuration says no |
| GlogVerbosity.SetVStep | signaling/src/third_lib/glog/glog_flags.go:121-127 | Every step of setting `-v` keeps the invariant |
| GlogVerbosity.SetModulesStep | signaling/src/third_lib/glog/glog_flags.go:180-186 | Every step of setting `-vmodule` keeps the invariant |
| GlogVerbosity.LookupStep | signaling/src/third_lib/glog/glog_flags.go:193-213 | Every step of a lookup under the mutex keeps the invariant |
| GlogVerbosity.RunInv | signaling/src/third_lib/glog/glog_flags.go:115-227 | The invariant holds at every point of every run of any number of goroutines |

## Left out

- Weak memory: the plain pointers of the lock-free queue are read and written under sequential consistency only.
- The destructor of the lock-free queue, `empty` and `size` beyond what is said about `_size`.
- Thread shutdown: the QUIT token, `_stop`, closing of pipes, and descriptors closed by a failed accept.
- Certificate generation and expiry, which is an outcome the server may or may not have.
- Commands other than push: no return value is defined for them in `_process_request`.
- Descriptor 0 and a table index that wraps: `resize(fd * 2)` makes no room for descriptor 0.
- What the server does once a header has announced more than 2^31 - 1 - 2^20 bytes: the worker counts as stuck from the next read on.
- Parsing of request JSON and of flag strings; a flag that does not parse changes nothing.
- Framing.Exchange: bodies longer than 2^31 - 1 - 2^20 bytes, for which the read buffer overflows its fields.
- SignalingWorker.Worker.ProcessQueryBuffer: a loop that would make more calls than outcomes are given counts as not ended; which loops really do not end is what `Framing.LoopEndsIff` says.
- Framing.WholeWritesAreExact: says nothing about a write that would block for ever; the results of writes are a finite list.
- CopyOnWrite.World.AppendData: bytes that lie in the buffer itself are not covered.
- CopyOnWrite.Store.Grow: storage is a byte sequence with a capacity; the array behind it is the subject of module BufferT.
- Moves and swaps of BufferT, and the overloads of `SetData` and `AppendData` that let a function write the elements.
- BufferT.BufferT.AppendData: elements that lie in the buffer's own block are not covered, as reallocation would free them first.
- SessionPrinter.ToString: with two or more bundle groups the code breaks the group line in two; only at most one is specified.
- Payload types, clock rates and channel counts are natural numbers, as SDP has them; the C++ fields are signed.
- `fecMechanisms`, header extensions, fingerprints and candidates of the SDP parser, and the SDP writer of the shim.
- Transceivers.Connection.CreateAnswer: the signalling-state guards that reject a call without effect are not modelled, so more runs are covered than the shim allows.
- Transceivers.Connection.ApplySection: candidates in a section whose transceiver has no transports make the code throw; that is one of the faults given as an argument.
- `addIceCandidate` in runs of the shim, which can change the text of the remote description; and creating a transport, which is taken not to throw.
- Negotiation.RemoteOfferServed: is about offers whose mids are not empty; the shim makes one up for a section without a mid, which could come out empty only if the random number is 0.
- `setLocalDescription` in sessions, which sets local capabilities for the sections it is given; `removeTrack`, and `close`.
- ICE and DTLS transports of the shim beyond whether they are there, its streams and events.
- Stats.FilterStats: asks for a map keyed by each report's own id and for lists under names ending in `Ids`, without which the code throws or loses reports.
- AsyncResolver.NeverOnDeleted: client calls come from one sequence, as the class demands, and stop with `Destroy`.
- Chrome, Firefox and Safari wrappers, pages, HTTP routing, configuration, logging front end and file rotation.
- Signed partial widths of byte_io.h and the remaining wrappers of rtc_base.
