# Passive TCP-to-application pipeline, modelled and proved

The system watches packets of other machines' connections, puts each direction of each TCP connection back together,
and hands the bytes to incremental parsers for HTTP and TLS; it also decodes DNS datagrams and bencoded values. This
project models that pipeline in Dafny and proves what it promises, for every input and every interleaving.

How the files follow the program:

- `Bytes` is `cdpi_bytes` and the list-of-segments queue (`ByteQueue`); `Decimal` is decimal text; `FlowId` is the
  canonical flow id.
- `TcpTable` holds the shared tables of `cdpi_tcp`, one function and one method per critical section (class `Tcp`).
  `TcpSystem` is the state machine of the three threads: a run is any sequence of producer, collector and consumer
  steps. `TcpWakeup`, `TcpSleep`, `TcpSafety`, `TcpDelivery`, `TcpLiveness` and `TcpStreams` are its theorems;
  `TcpOneFlow` and `TcpFinData` run it on a single flow; `TcpRun` is the consumer loop as straight code, proved against
  the machine.
- `HttpSpec` and `SslSpec` say what the parsers do as functions on values; `HttpParser` and `SslParser` are the
  objects with their loops over the byte queue, proved equal to those functions; `HttpSegmentation`, `HttpChunked`,
  `HttpMessages`, `HttpResponses`, `HttpPairing`, `HttpMispairing`, `HttpShadow` and `SslTheorems` are what the
  functions satisfy.
- `StreamSpec` is the stream table on values, `StreamTable` the object with entries updated in place,
  `StreamTheorems`, `StreamRuns`, `StreamClients` and `StreamServers` what every log of calls, and every run of the reassembler,
  keeps true of it.
- `DnsName`, `DnsMessage`, `DnsRoundTrip`, `DnsExchange`, `DnsParser` and the `Bencode*` files are the two recursive decoders in the
  same style: functions, theorems, objects.

Facts of the code that the theorems depend on, kept as they are:

- The test for stale segments is `(! flags) & TH_RST` and never fires (src/cdpi_tcp.cpp:433): segments behind the cursor
  stay in the map and count toward the packet limit.
- The payload of a FIN and of a SYN is not passed on (src/cdpi_tcp.cpp:188-191, src/cdpi_tcp.cpp:429), so a stream is fed
  what was reassembled exactly when no FIN carried data.
- A chunk-size line cut by a segment border throws (src/cdpi_http.cpp:534); that is the only cut that matters.
- The server side pops the method queue once per header end and once more per trailer (src/cdpi_http.cpp:288-302), so a
  response behind a chunked one is paired with a later request.
- The length of the compression methods of a client hello is read before it is known to lie in the message
  (src/cdpi_ssl.cpp:770-777); inside the record that is harmless, behind it the outcome is `Undefined`.
- The collector queues its events without a notification (src/cdpi_tcp.cpp:81, src/cdpi_tcp.cpp:95), and only a deposit
  notifies (src/cdpi_tcp.cpp:458), so a consumer that waits (src/cdpi_tcp.cpp:113-114) can have collections queued; it
  never has anything else queued.
- The exchange of an MX record is read from where its preference stands (src/cdpi_dns.cpp:482-484): below 256 it is the
  empty name, from 256 up to 0x3FFF a walk that starts in the middle of the preference, then refused, and from 0xC000 up
  the name the preference points to.
- The step over the first HINFO string is an 8-bit number (src/cdpi_dns.cpp:436), so two strings are read back exactly
  when the first is shorter than 255, and 256 bytes of data that start with 255 are accepted and read twice.

Where the C++ program's behaviour is undefined (an unset variable is read, a read goes past a buffer, a loop does not
end) the model has an outcome of its own: `Undefined` in the parsers, `Broken` in a stream entry. No theorem says
anything about what follows it.

## Model

| member | source | states |
|---|---|---|
| `Bytes.LessIsLexicographic` | src/cdpi_bytes.hpp:49-67 | `operator<` of byte strings is the lexicographic order with a proper prefix first |
| `Bytes.LessIsStrictTotalOrder` | src/cdpi_bytes.hpp:41-71 | that order is a strict total one, as `std::map` demands of its keys |
| `Bytes.ByteQueue.ReadThrough` | src/cdpi_bytes.cpp:17-43 | for any list of segments, `read_bytes_ec` copies what reading the flat string through the first delimiter, at most len bytes, would |
| `Bytes.UpTo` | src/cdpi_bytes.cpp:17-43 | what is copied: a prefix of at most len bytes with no delimiter before its last byte, and all there is when it does not end in one |
| `Bytes.UpToIsTheOnlyOne` | src/cdpi_bytes.cpp:17-43 | those properties leave exactly one answer |
| `Bytes.UpToStable` | src/cdpi_bytes.cpp:17-43 | more segments behind do not change a line that is complete |
| `Bytes.ByteQueue.Skip` | src/cdpi_bytes.cpp:45-70 | `skip_bytes` removes exactly the first min(len, total) bytes, shrinking or erasing segments in place |
| `Bytes.ByteQueue.Read` | src/cdpi_bytes.cpp:72-98 | `read_bytes` copies exactly the first min(len, total) bytes and changes neither the list nor the rest of the buffer |
| `Bytes.FindChar` | src/cdpi_bytes.cpp:100-114 | the index of the first occurrence, or -1 when there is none |
| `Decimal.DecTextReads` | src/cdpi_bencode.cpp:172 | printed decimal digits read back as the number, whatever follows them |
| `FlowId.CdpiId.SetIph` | src/cdpi_id.cpp:18-65 | of an IPv4 header, the object holds the two peers in canonical order, and the returned direction tells which one sent it |
| `FlowId.SameIdBothWays` | src/cdpi_id.cpp:55-65 | a header whose source and destination are another's destination and source gets an equal id, and the opposite direction exactly when the peers differ |
| `FlowId.ReverseExchangesPeers` | src/cdpi_id.cpp:33-50 | swapping the addresses and the ports behind them makes such a header |
| `FlowId.IdDeterminesConversation` | src/cdpi_id.hpp:127-165 | packets of one id that travel the same way have the same source and destination |
| `FlowId.PeerOrder` | src/cdpi_id.hpp:27-37 | the order of peers is strict and total and agrees with `operator==` |
| `FlowId.IdOrder` | src/cdpi_id.hpp:59-86 | the same for ids |
| `FlowId.IdDirOrder` | src/cdpi_id.hpp:111-124 | the same for ids with a direction, the keys of both tables |
| `TcpTable.StaleTestIsDead` | src/cdpi_tcp.cpp:433-436 | for no flags byte and no cursor does the test for stale segments drop anything |
| `TcpTable.Tcp.ReserveFlow` | src/cdpi_tcp.cpp:389-402 | first critical section of `input_tcp`: a flow is created by a SYN only, otherwise found or missing |
| `TcpTable.Tcp.DepositSegment` | src/cdpi_tcp.cpp:404-459 | second critical section: next sequence number, SYN acceptance, storing, event; tied to the function the theorems use |
| `TcpTable.Tcp.GarbageCollect` | src/cdpi_tcp.cpp:61-98 | the sweep marks half-open and half-closed flows that timed out and queues their events |
| `TcpTable.Tcp.TakePacket` | src/cdpi_tcp.cpp:323-360 | `get_packet` returns the packet at the cursor, removes it, moves the cursor and notes a FIN |
| `TcpTable.Tcp.FinReceived` | src/cdpi_tcp.cpp:284-307 | the flow is erased exactly when the other direction has seen its FIN |
| `TcpTable.Tcp.RemoveFlow` | src/cdpi_tcp.cpp:309-321 | the flow, and nothing else, leaves the table |
| `TcpTable.Tcp.CountPackets` | src/cdpi_tcp.cpp:264-282 | the number of stored packets of one direction, 0 for a flow that is gone |
| `TcpSystem.ConsumerProgress` | src/cdpi_tcp.cpp:173-260 | every consumer step inside an iteration brings it nearer to the top of the loop: each returned packet shrinks the map, so the drain ends |
| `TcpSystem.PutStepEffect` | src/cdpi_tcp.cpp:412-459 | a deposit changes one direction of one flow and nothing of any other |
| `TcpWakeup.AlwaysAwake` | src/cdpi_tcp.cpp:102-262 | the invariant behind the next rows holds in every state any interleaving of the three threads reaches |
| `TcpWakeup.NoLostWakeup` | src/cdpi_tcp.cpp:102-262 | in every reachable state a live direction with a packet at its cursor is queued or being drained, one over the limit is queued or being processed, a marked one is queued or about to go |
| `TcpWakeup.IdleMeansDrained` | src/cdpi_tcp.cpp:113-118 | at the top of the loop with an empty queue, no live direction has a packet at its cursor, more than MAX_PACKETS packets or a removal mark |
| `TcpSleep.SleepMissesOnlyCollections` | src/cdpi_tcp.cpp:113-118 | while the consumer waits, in any interleaving and with wake-ups for no reason, no live direction has a packet at its cursor or too many packets, and exactly the directions marked by the collector are queued |
| `TcpSleep.SleepsThroughSweep` | src/cdpi_tcp.cpp:60-98 | that does happen: whenever the consumer waits and the collector passes over the flows, it goes on waiting, and every half-open or half-closed direction that timed out is marked and queued |
| `TcpSleep.SleepsOnCollection` | src/cdpi_tcp.cpp:73-81 | a run in which it does: a SYN is processed, nothing more arrives, and the collector comes by two minutes later |
| `TcpWakeup.EventsStayUnique` | src/cdpi_tcp.cpp:454-456 | no event is ever queued twice |
| `TcpSafety.ReassemblySafety` | src/cdpi_tcp.cpp:323-460 | under reordering, duplication, re-segmentation, loss and sequence wrap, the payloads returned since the SYN are a prefix of length k of the sender's stream and the cursor is ISN + 1 + k modulo 2^32 |
| `TcpSafety.AlwaysSafe` | src/cdpi_tcp.cpp:362-460 | the invariant behind it, over every interleaving of honest deposits with the other threads |
| `TcpSafety.StaleKeyStays` | src/cdpi_tcp.cpp:433-442 | over every honest run: a packet stored behind the cursor is never returned, and its sequence number stays in the map, whether by it or by one that replaced it |
| `TcpSafety.DepositReplacesIff` | src/cdpi_tcp.cpp:439-444 | a deposit replaces a packet stored away from the cursor exactly when it is another one with that sequence number |
| `TcpSafety.HonestReplacement` | src/cdpi_tcp.cpp:440 | an honest retransmission that does replace a packet behind the cursor |
| `TcpDelivery.ReturnedInOrder` | src/cdpi_tcp.cpp:323-360 | at every moment what was returned is the first segments of the fixed cutting, each once and in order |
| `TcpDelivery.QuiescentDelivery` | src/cdpi_tcp.cpp:173-238 | once every segment has arrived at least once and the consumer is at the top with an empty queue, exactly the cutting was returned, in order |
| `TcpLiveness.QueueIsEmptied` | src/cdpi_tcp.cpp:102-262 | from every reachable state the consumer alone gets to the top of its loop with an empty queue |
| `TcpLiveness.ArrivedIsDelivered` | src/cdpi_tcp.cpp:173-238 | after any run in which every segment has arrived, the consumer alone gets there, and unless it removed the flow it has then returned exactly the cutting, in order |
| `TcpLiveness.KeptIsDelivered` | src/cdpi_tcp.cpp:173-260 | delivery without that condition: when neither direction of the flow is marked, stores a reset or more than MAX_PACKETS packets, and one of them is unfinished, the flow is kept and the cutting returned |
| `TcpLiveness.StaleKeysRemoveFlow` | src/cdpi_tcp.cpp:244-260 | more than MAX_PACKETS packets behind the cursor make the consumer remove the flow |
| `TcpStreams.StreamTableInFlowTable` | src/cdpi_tcp.cpp:134-168 | at every top of the consumer loop an open stream belongs to a flow in the table that has returned that direction's SYN |
| `TcpStreams.OpenCloseAlternate` | src/cdpi_tcp.cpp:173-260 | over every run two opens of one stream have a close of it between them |
| `TcpStreams.AlwaysAgrees` | src/cdpi_tcp.cpp:102-262 | every open stream was fed exactly the passed-on payloads of what its direction returned since its SYN, in every reachable state |
| `TcpStreams.PlainIsJoinedIffNoFinData` | src/cdpi_tcp.cpp:188-191 | what is passed on equals what was reassembled if and only if no returned packet lost its payload on the way |
| `TcpStreams.StreamsAreFedPrefixes` | src/cdpi_tcp.cpp:173-238 | end to end, an open stream was fed a prefix of the sender's bytes, all that was reassembled, if and only if no FIN carried data |
| `TcpFinData.FinDataIsLost` | src/cdpi_tcp.cpp:188-191 | a run that shows it, for every id, sequence number and payload: SYN and FIN arrive, the FIN's payload is reassembled whole, and the open stream was fed nothing |
| `TcpFinData.FinRunIsHonest` | src/cdpi_tcp.cpp:362-460 | the sender of that run is honest |
| `TcpRun.Runner.RunOnce` | src/cdpi_tcp.cpp:102-262 | an uninterrupted iteration of the loop, written as the source writes it, does what the consumer steps of the machine do |
| `HttpSpec.StepShrinks` | src/cdpi_http.cpp:62-96 | every step makes twice the remaining bytes, plus one inside a body, smaller: `parse` ends on every input, zero-length bodies included |
| `HttpParser.ParseByHandlers` | src/cdpi_http.cpp:62-96 | running handlers until one returns false is the step-wise parse, and each that returns true makes the measure smaller |
| `HttpParser.BodyBlock` | src/cdpi_http.cpp:473-486 | reading a block of a body is reading its bytes one by one |
| `HttpParser.ChunkBlock` | src/cdpi_http.cpp:562-578 | the same for a block of a chunk |
| `HttpParser.Parser.ParseMethod` | src/cdpi_http.cpp:98-156 | the request line handler on the object and its byte list is the specified one, including what is stored when it throws half-way |
| `HttpParser.Parser.ParseResponse` | src/cdpi_http.cpp:158-219 | the same for the status line |
| `HttpParser.Parser.ParseHead` | src/cdpi_http.cpp:221-394 | the same for header lines, blank line, method queue of the peer and trailers |
| `HttpParser.Parser.ParseBody` | src/cdpi_http.cpp:458-520 | the same for a body with a content length |
| `HttpParser.Parser.ParseChunkLen` | src/cdpi_http.cpp:522-554 | the same for a size line |
| `HttpParser.Parser.ParseChunkBody` | src/cdpi_http.cpp:556-586 | the same for a chunk |
| `HttpParser.Parser.ParseChunkEl` | src/cdpi_http.cpp:588-632 | the same for the end of a chunk and the rebuilt content |
| `HttpParser.Parser.ParseAll` | src/cdpi_http.cpp:62-96 | `parse` on the object leaves the state, the peer's queue, the byte list and the trace that the specification says |
| `HttpSegmentation.SegmentationDoesNotMatter` | src/cdpi_http.cpp:62-632 | from any parser state and for every cut, parsing in two calls equals parsing at once, unless the first call stopped for good; it stops for a reason of its own exactly when a size line was cut |
| `HttpSegmentation.SplitOnlyInSizeLine` | src/cdpi_http.cpp:529-535 | the exception for a cut line is thrown exactly in front of a proper part of a size line |
| `HttpSegmentation.FeedIsParse` | src/cdpi_http.cpp:62-632 | the same for any number of segments |
| `HttpSegmentation.ParseEndsQuiet` | src/cdpi_http.cpp:62-96 | what is left after a call is a suffix of the input with which the parser can do nothing more |
| `HttpChunked.ChunkParses` | src/cdpi_http.cpp:522-632 | one encoded chunk is appended to the chunks, and the content becomes all chunks so far |
| `HttpChunked.ContentIsChunksSoFar` | src/cdpi_http.cpp:608-623 | after each chunk terminator the content is the concatenation of the chunks so far |
| `HttpChunked.ChunkedRoundTrip` | src/cdpi_http.cpp:522-632 | for every non-empty list of non-empty chunks, decoding its chunked encoding leaves the concatenation as content and reaches the trailer |
| `HttpChunked.ForbiddenCuts` | src/cdpi_http.cpp:534-535 | a first part of an encoding throws exactly when it ends strictly inside a size line |
| `HttpChunked.ChunkedRoundTripInPieces` | src/cdpi_http.cpp:522-632 | the round trip for the encoding fed in any number of pieces cut at allowed points |
| `HttpChunked.CanonicalSizeLine` | src/cdpi_http.cpp:537-538 | a length printed in hexadecimal is a size line that reads back as it |
| `HttpMessages.FieldLineParses` | src/cdpi_http.cpp:356-391 | a printed header field ends up under its lower-case name with its value |
| `HttpMessages.RequestRoundTrip` | src/cdpi_http.cpp:98-520 | a printed request with a content length parses back to its method, URI, version, fields and body, one event each |
| `HttpResponses.StatusLineParses` | src/cdpi_http.cpp:158-219 | a printed status line gives back its version, code and message |
| `HttpResponses.ResponseRoundTrip` | src/cdpi_http.cpp:158-520 | a printed response with a content length, behind the request it answers, parses back to its parts and body, one event each, and uses up exactly that request's method |
| `HttpResponses.BodilessRoundTrip` | src/cdpi_http.cpp:325-331 | the answer to HEAD, or one with code 204, 205 or 304, ends with its header whatever length it announces |
| `HttpMessages.PrintedLengthReads` | src/cdpi_http.cpp:466-467 | every length up to INT_MAX can be announced by printing it |
| `HttpPairing.ParseQueue` | src/cdpi_http.cpp:123 | a call appends to the client's queue exactly what it pushed, or removes from the front of the peer's exactly what it popped |
| `HttpPairing.ResponsesArePaired` | src/cdpi_http.cpp:288-302 | for every state, queue and input of a call, a header end in its trace sees the queued method numbered by the header ends and trailers before it: its own request's number exactly when no chunked response ended before |
| `HttpPairing.LateMethodsDoNotMatter` | src/cdpi_http.cpp:242-331 | for every state, queue and input, parsing with more methods at the end of the queue is parsing with the first ones and then, from what that left, with the others |
| `HttpMispairing.ChunkedResponseRoundTrip` | src/cdpi_http.cpp:158-632 | a printed chunked response comes back with its parts and content, and uses up the method of its request and that of the next |
| `HttpMispairing.ChunkedThenMispaired` | src/cdpi_http.cpp:288-331 | the response behind it sees the method of the request after its own, which decides whether a body is expected |
| `HttpMispairing.HeadAnswerWaitsForBody` | src/cdpi_http.cpp:288-331 | on a concrete wire for GET, HEAD, GET: behind a chunked answer the answer to HEAD is taken for one to GET, and the parser waits for its body |
| `HttpShadow.PoppingDoesNotMatter` | src/cdpi_http.cpp:242-284 | however much of a client's queue its server has popped, the client parser does the same, unless it ends a header block on the emptied queue |
| `SslParser.Parser.TakeRecord` | src/cdpi_ssl.cpp:420-471 | a complete record is taken from the front of the list, an incomplete one is left, and the version is noted either way |
| `SslParser.Parser.ParseHandshake` | src/cdpi_ssl.cpp:485-528 | the message loop on the object is the specified one |
| `SslParser.Parser.ParseCertificate` | src/cdpi_ssl.cpp:530-577 | the certificate loop on the object is the specified one |
| `SslParser.Parser.ParseClientHello` | src/cdpi_ssl.cpp:681-802 | the fields stored, the lists appended to and the event of a client hello, with every early return |
| `SslParser.Parser.ParseServerHello` | src/cdpi_ssl.cpp:579-679 | the same for a server hello |
| `SslParser.Parser.ParseAll` | src/cdpi_ssl.cpp:420-471 | `parse` on the object leaves the state, the byte list and the events that the specification says |
| `SslTheorems.RecordCutsDoNotMatter` | src/cdpi_ssl.cpp:420-471 | for every state and every cut of the stream, two calls give the events, state and residue of one |
| `SslTheorems.OnlyWholeRecordsConsumed` | src/cdpi_ssl.cpp:429-470 | only whole records are consumed, and no complete one is left unless the parser stopped |
| `SslTheorems.HandshakeTiles` | src/cdpi_ssl.cpp:485-528 | before ChangeCipherSpec a record is refused only when it is not exactly a non-empty row of messages, and handled only when it is, message by message |
| `SslTheorems.MessagesAreRun` | src/cdpi_ssl.cpp:485-528 | a record that is exactly a non-empty row of messages is handled message by message |
| `SslTheorems.SplitRecordInverts` | src/cdpi_ssl.cpp:494-527 | splitting a record into messages and writing messages down are inverse, both ways |
| `SslTheorems.CertLoopInverts` | src/cdpi_ssl.cpp:549-573 | the list loop ends cleanly with exactly these certificates if and only if the bytes are their encoding with at most two stray bytes behind |
| `SslTheorems.CertificateRoundTrip` | src/cdpi_ssl.cpp:530-577 | the 24-bit length-prefixed encoding of any certificate list appends exactly that list and raises one event |
| `SslTheorems.CertificateEventIff` | src/cdpi_ssl.cpp:530-577 | the event is raised exactly on such messages |
| `SslTheorems.ClientHelloRoundTrip` | src/cdpi_ssl.cpp:681-802 | a client hello written down field by field, with anything behind it, gives back its version, time, random, session id, suites and methods, and one event |
| `SslTheorems.ClientHelloEventIff` | src/cdpi_ssl.cpp:681-802 | the event is raised exactly on complete client hellos of a known version |
| `SslTheorems.ServerHelloRoundTrip` | src/cdpi_ssl.cpp:579-679 | the same round trip for a server hello with its one suite and method |
| `StreamTable.Streams.InStreamEvent` | src/cdpi_stream.cpp:29-57 | the object with entries updated in place makes the table and the events that the table on values makes |
| `StreamTable.Streams.TakeData` | src/cdpi_stream.cpp:80-209 | `in_data` in place: size count, detection, give-up, parser run, exceptions |
| `StreamTable.Streams.DetectProtocol` | src/cdpi_stream.cpp:94-165 | the order of the detection tests, the new parser and its link to the peer |
| `StreamTable.Streams.DestroyEntry` | src/cdpi_stream.cpp:74-78 | one entry leaves the table, and the other direction's parser loses its link |
| `StreamTheorems.DataTaken` | src/cdpi_stream.cpp:80-209 | a segment is counted, what stays unparsed is a suffix of what was there plus the segment, the parser has nothing left to do (HTTP no step, TLS no complete record), and only the peer's method queue may change elsewhere |
| `StreamTheorems.DataInSettles` | src/cdpi_stream.cpp:38-50 | after STREAM_DATA_IN, which parses one direction and then the other once, no parser of either has a step or a complete record left |
| `StreamTheorems.DestroyFits` | src/cdpi_stream.cpp:51-55 | closing a stream keeps every other entry consistent and settled |
| `StreamRuns.LogsConsistent` | src/cdpi_stream.cpp:29-209 | after every log of calls: the keys are the open streams, the size count is the bytes given, unparsed bytes are a suffix of them, a TLS state is that of parsing them in one piece, no parser has work left |
| `StreamRuns.GiveUpIsAbsorbing` | src/cdpi_stream.cpp:85-87 | once a stream is given up its bytes are gone and its size stays, whatever follows, until it is closed |
| `StreamRuns.MethodsArePairedInOrder` | src/cdpi_http.cpp:288-302 | after every log, a linked server has popped, in order, the first methods its client pushed since the link, one per header end and trailer, and the queue is the rest |
| `StreamRuns.EveryResponseIsPaired` | src/cdpi_http.cpp:288-302 | after every log, each response header a linked server has read saw its client's method numbered, from the link on, by the header ends and trailers before it: its own request's number exactly when no trailer came before |
| `StreamRuns.AlternatingIsWellFormed` | src/cdpi_stream.cpp:59-72 | when opens and closes alternate, no open stream is ever created again |
| `StreamRuns.EveryRunIsConsistent` | src/cdpi_tcp.cpp:102-262 | every interleaving of the three threads leads the stream table through such a log, so all of that holds at every moment of every run |
| `StreamRuns.TlsFollowsTheSender` | src/cdpi_stream.cpp:188-196 | end to end from packets: a running TLS parser is where parsing a prefix of the sender's bytes in one piece would leave it, unless a FIN carried data |
| `StreamClients.LogsFollow` | src/cdpi_stream.cpp:176-187 | after every log, a running HTTP client has the trace, and but for popped methods the state, of parsing all its bytes in one piece |
| `StreamClients.HttpClientFollowsTheSender` | src/cdpi_stream.cpp:176-187 | end to end from packets: the trace of a running HTTP client is that of a prefix of the sender's bytes, unless a FIN carried data |
| `StreamServers.LogsServe` | src/cdpi_stream.cpp:38-50 | after every log, a linked running HTTP server has the trace and the state of parsing all its bytes in one piece with all the methods its client pushed since the link, and the client's queue is what that parse leaves |
| `StreamServers.HttpServerFollowsTheSender` | src/cdpi_stream.cpp:176-187 | end to end from packets: the trace and state of a linked running HTTP server are those of a prefix of the sender's bytes, whenever the client's methods arrived, unless a FIN carried data |
| `DnsName.ReadsExactlyExpansions` | src/cdpi_dns.cpp:321-395 | `read_domain` succeeds if and only if the walk along labels and pointers is finite, in range and has at most 256 jumps; it returns that walk's labels joined by dots and the length in place |
| `DnsName.InPlaceFits` | src/cdpi_dns.cpp:325-394 | the length in place is positive and within the buffer |
| `DnsName.CyclesAreRejected` | src/cdpi_dns.cpp:327-328 | a walk that comes back to a position, through pointers and labels alike, is rejected |
| `DnsName.NameRoundTrip` | src/cdpi_dns.cpp:321-395 | the wire form of a name reads back as its labels joined by dots, in place and through a pointer |
| `DnsMessage.AcceptsIffTiled` | src/cdpi_dns.cpp:21-85 | `decode` returns true if and only if header and announced numbers of questions and records cover the datagram with nothing left, and then the lists have those lengths |
| `DnsMessage.QuestionIff` | src/cdpi_dns.cpp:286-319 | a question is read exactly where a name and four bytes stand, and ends there |
| `DnsMessage.RecordIff` | src/cdpi_dns.cpp:87-258 | a record is read exactly where a name, ten bytes and as much acceptable data as they announce stand |
| `DnsMessage.HinfoIff` | src/cdpi_dns.cpp:419-455 | HINFO data is accepted exactly when it is two strings, or 256 bytes that start with 255 |
| `DnsMessage.SoaIff` | src/cdpi_dns.cpp:492-546 | SOA data is read without leaving the datagram exactly when two names and twenty bytes stand there |
| `DnsRoundTrip.MessageRoundTrip` | src/cdpi_dns.cpp:21-319 | any header, questions and records written down without compression are accepted, and the four lists hold exactly the names, types, classes, times and data written, in order |
| `DnsRoundTrip.RecordReads` | src/cdpi_dns.cpp:93-254 | one record written down anywhere is read back field by field, and its end is found |
| `DnsRoundTrip.DataReads` | src/cdpi_dns.cpp:130-248 | addresses, names, text and host data written down are read back; data of other types is passed over |
| `DnsRoundTrip.HinfoReadsBackIff` | src/cdpi_dns.cpp:419-455 | host data written down reads back exactly when its first string is shorter than 255, and is refused otherwise |
| `DnsRoundTrip.HinfoReadTwice` | src/cdpi_dns.cpp:436-452 | 255 and 255 bytes of anything, the data of no two strings, are accepted, and both strings read are those bytes |
| `DnsExchange.ExchangeReadsBackIff` | src/cdpi_dns.cpp:475-490 | for every message, preference and name: MX data reads back exactly when the preference is below 256 and the name empty, or the walk from the middle of a preference below 0x4000 spells the name, or the preference points to a name that reads the same |
| `DnsExchange.NoExchange` | src/cdpi_dns.cpp:475-490 | every preference from 0x4000 up to 0xBFFF is refused |
| `DnsExchange.OnlyOddNamesSurvive` | src/cdpi_dns.cpp:475-490 | from 256 up to 0x3FFF nothing reads back but names with a byte from 0xC0 up or with a NUL in front of the last byte of their last label |
| `DnsExchange.OrdinaryExchangeReadsBackIff` | src/cdpi_dns.cpp:475-490 | a name without such bytes reads back exactly when it is empty behind a preference below 256, or the preference points to one that reads the same |
| `DnsExchange.TenMxIsLost` | src/cdpi_dns.cpp:475-490 | a whole datagram of one answer, the host "mx" with preference 10, is accepted, and its exchange is read as the empty name |
| `DnsExchange.NulTwoSurvives` | src/cdpi_dns.cpp:475-490 | preference 0x0200 and the label of a NUL and a two do read back, in every message |
| `DnsParser.ParseDomain` | src/cdpi_dns.cpp:321-395 | the loop and recursion of `read_domain` on a moving position compute the specified name or -1 |
| `DnsParser.Dns.DecodeQuestion` | src/cdpi_dns.cpp:286-319 | the loop appends the specified questions, also in front of one that is refused, while position plus remaining length stays the datagram's length |
| `DnsParser.Dns.DecodeRr` | src/cdpi_dns.cpp:87-258 | the same for records |
| `DnsParser.Dns.Decode` | src/cdpi_dns.cpp:21-85 | the whole call: header stored, four lists extended, true exactly when the datagram is accepted |
| `BencodeTheorems.RoundTrip` | src/cdpi_bencode.cpp:48-287 | for every value the program can hold, and anything behind it, decoding its printed form gives the value and uses exactly its bytes |
| `BencodeTheorems.PrintedIntReads` | src/cdpi_bencode.cpp:172 | `atoi` inverts printing on the whole range of int, signs included |
| `BencodeTheorems.InsertLast` | src/cdpi_bencode.cpp:109 | assigning under a key above all others appends the pair |
| `BencodeNormal.NormalForm` | src/cdpi_bencode.cpp:68-121 | whatever was read, keys in any order or repeated, has strictly increasing keys, and prints to bytes that read back as the same value |
| `BencodeNormal.InsertKeepsSorted` | src/cdpi_bencode.cpp:109 | map assignment keeps keys strictly increasing |
| `BencodeNormal.LookupInsert` | src/cdpi_bencode.cpp:109 | after an assignment the key has the new value and every other key its old one |
| `BencodeNormal.LastKeyWins` | src/cdpi_bencode.cpp:80-118 | in a dictionary read from any input each key has the value of its last pair |
| `BencodePrinters.PrintersAgree` | src/cdpi_bencode.cpp:222-358 | the evbuffer encoder, with its `(int)` lengths and its own loops, yields the bytes of the ostream encoder for every value |
| `BencodeInfo.ValueStays` | src/cdpi_bencode.cpp:48-214 | what is read depends on the bytes used alone |
| `BencodeInfo.InfoSliceIsValue` | src/cdpi_bencode.cpp:112-117 | the hashed slice is exactly the bytes consumed for the value of the last completed key that begins with "info", and reads back as that value; without such a key nothing is hashed |
| `BencodeInfo.PrintedCompletions` | src/cdpi_bencode.cpp:68-121 | reading a printed value completes its keys inside out, each with the printed form of its value as slice |
| `BencodeInfo.TorrentInfo` | src/cdpi_bencode.cpp:112-117 | for a printed dictionary with a last "info" key the slice is the printed form of that key's value |
| `Bencode.Decoder.CalcInfoHash` | src/cdpi_bencode.cpp:360-377 | the stream position is unchanged, and the slice between the noted positions is what is hashed |
| `Bencode.Decoder.DecodeValue` | src/cdpi_bencode.cpp:48-66 | decoding on a stream with a position computes the specified value, consumes the specified bytes and keeps the specified info slice, also where it fails |
| `Bencode.Decoder.DecPair` | src/cdpi_bencode.cpp:88-117 | one round of the dictionary loop: key, value, info slice |
| `Bencode.Decoder.Decode` | src/cdpi_bencode.cpp:29-46 | the call succeeds exactly on one value with nothing behind it; a value with something behind it is kept though the call fails |
| `Bencode.EncodeValue` | src/cdpi_bencode.cpp:222-287 | the ostream encoder appends the printed form, through its loops |
| `Bencode.EvEncodeValue` | src/cdpi_bencode.cpp:295-358 | the evbuffer encoder appends its printed form, through its loops |

## Left out

- Packet capture, divert sockets, callbacks and the UDP queue (src/cdpi_pcap.cpp, src/cdpi_divert.cpp,
  src/cdpi_callback.cpp): input and output only.
- The listeners, databases and everything under examples/ of the repository: they consume events.
- Protocol detection patterns (src/cdpi_http.cpp:11-12, src/cdpi_ssl.cpp:23-24): four arbitrary predicates on the first
  segment; the theorems hold for all of them.
- Condition variables, timers, shutdown and destructors: the sweep of the collector may happen at any moment with any
  clock value, and runs end before shutdown.
- Shared pointers to flows are indices into a store that only grows; a flow erased from the table stays there for a
  producer that still holds it. The order in which the collector visits flows is arbitrary.
- A direction of FROM_NONE reaches no flow; a negative data length (a header longer than its packet) is not modelled.
- Truthful senders: `TcpSafety.ReassemblySafety` and the end-to-end rows assume that deposited packets carry pieces of one
  stream per direction, shorter than 2^32 - 1 bytes; the other TCP theorems assume nothing about packets.
- TcpRun.Runner.RunOnce: one iteration that no other thread interrupts; interleavings are the state machine's.
- StreamTable.Streams.TakeData: after CONNECT the stream becomes a proxy whose bytes are kept; detecting a new protocol
  inside it, and giving it up, is not modelled.
- StreamTable.Streams.InStreamEvent: the same.
- StreamRuns.LogsConsistent: the same, so what it says of a proxied stream is that its bytes are kept.
- StreamRuns.EveryRunIsConsistent: the same.
- StreamRuns.TlsFollowsTheSender: TLS that starts inside a tunnel, in the middle of the sender's bytes, is not detected.
- StreamClients.HttpClientFollowsTheSender: the same for HTTP inside a tunnel.
- StreamServers.HttpServerFollowsTheSender: the same; and only servers whose link to a client is in place, since one
  without a peer waits at its first header end.
- StreamTable.Streams.DetectProtocol: the walk over `m_proxy` for the peer (src/cdpi_stream.cpp:119-139) is left out; it
  advances the iterator of the table instead of its own.
- StreamTable.Streams.DestroyEntry: the link between a server parser and its client is a key that is looked up in the
  table and is dropped when the client's entry is destroyed; in the source it is a shared pointer. The consumer always
  closes both directions together.
- StreamTable.Streams.RunHttp: uses the HTTP parser through its specification instead of holding an `HttpParser.Parser`
  object; the same for TLS.
- The plain fields of a `cdpi_http` and of a `cdpi_ssl` object are one record field of the class; content and chunk buffers
  are the bytes received so far, not preallocated blocks.
- DnsRoundTrip.MessageRoundTrip: uncompressed names, and no MX or SOA records; reading compressed names is
  `DnsName.ReadsExactlyExpansions`.
- HttpMessages.RequestRoundTrip: requests with a content length; chunked bodies have their own round trip.
- HttpResponses.ResponseRoundTrip: the same; chunked responses are `HttpMispairing.ChunkedResponseRoundTrip`.
- HttpMispairing.ChunkedResponseRoundTrip: bodies of a selected type, and no trailer fields.
- A missing content length, and a length or size that is not an int, are `Undefined`; so is a negative one where a block
  of that length would be allocated.
- Null-pointer segments inside a list, integer overflow of segment lengths and counts, IPv6 headers (src/cdpi_id.cpp:70-160).
- Digests and X.509 and gzip parsing: the info hash is modelled as the slice that is hashed.
- Cipher suite and compression tables: constant data. TLS extensions: the source does not read them.
- DNSKEY data, which `decode_rr` never dispatches to, and the flag getters of `cdpi_dns`.
- An empty handshake record makes the source look at one byte behind it before it throws; the model throws.
- DnsMessage.AcceptsIffTiled: SOA data with four to nineteen bytes behind its names is `Undefined` and counts as not
  accepted, where the source reads past the datagram and may return true.
- Bencode strings shorter than announced, numbers outside the range of int, and a number or length without its end
  character are `Undefined`, where the source uses memory it did not fill or a character it did not read. The failure flags
  of the stream are not modelled beyond that.
- Recursion depth is unbounded in the model.
