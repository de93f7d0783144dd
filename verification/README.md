# A model of the Hallmaster proxy

The proxy sits between a Discord bot and Discord. It terminates the bot's TLS with leaf
certificates that it issues on the fly, reads HTTP/1.1 requests, shows them to a tamperer, forwards
them over at most one upstream connection, mirrors the answers, and relays WebSocket frames once a
connection is upgraded. This project states what these parts keep over whole runs, and proves it.
`dafny verify dfyconfig.toml` checks everything.

| file | part of the program | form |
|---|---|---|
| `CertCache.dfy` | the leaf-certificate cache and its singleflight group | transition system over any number of goroutines and hosts; one undisturbed call as an object |
| `ZlibDecoder.dfy` | `Decode` and `drain` over a synchronous pipe | transition system of the caller, the writer goroutines, the pipe and an abstract inflater |
| `HttpsSession.dfy`, `HttpsHandler.dfy` | the session loop | specification functions; the handler as an object proved equal to them |
| `SessionRounds.dfy` | one round of the loop: whom it intercepts, where it dials, what goes out and comes back, how it ends | lemmas in terms of names, literals and bytes |
| `KeepAlive.dfy`, `Tunnels.dfy`, `InterimResponses.dfy`, `HostBinding.dfy`, `SessionLogging.dfy` | whole sessions: answers in step, inside nested CONNECTs too; requests at their hosts; one session under two tamperers | lemmas about the loop |
| `HttpMessages.dfy`, `BodyPipeline.dfy` | messages on a connection; `DecodeBody`, `Encode` and the write | functions, and objects that drain and replace a body in place |
| `LoggingTamper.dfy`, `Utf8.dfy` | the default tamperer and `preview` | objects and a loop, against functions |
| `WsRelay.dfy` | the frames that the two WebSocket pumps write | loops, masking in place, against functions |
| `WsShutdown.dfy` | how the two pumps stop each other, with the decoder between them | transition system of both pumps and of the decoder in `ZlibDecoder.dfy` |
| `Handoff.dfy` | bytes already buffered when a connection changes hands | objects: connection, buffered reader, multi-reader, sink |
| `Latency.dfy` | the measuring tamperer and its matcher | object with nested loops, against a greedy pairing |
| `StressDriver.dfy` | the worker pool and arrival slots of the stress driver | transition system; slots as an object |
| `Hosts.dfy`, `Common.dfy` | host names; shared datatypes | functions |

Concurrent code is modelled with one event per atomic action, so a statement about every run is a
statement about every interleaving. The documented contracts of `singleflight.Do`, `io.Pipe`,
`bufio.Reader`, `io.ReadAll`, `io.Copy`, `http.ReadRequest`, `Request.Write`, `http.ReadResponse`
and `Response.Write` are part of the model. What a tamperer, resolver, dial, handshake, write,
network read, inflater or key generation does is given by arbitrary functions or by events. Failed
writes leave a first part of their message on the wire: of a request, `Request.Write` flushes the
head before a body that comes off a connection, and not before one in memory.

## Where the code and its promises differ

Each of these is proved about the code as it is, with the condition under which it happens.

- `docs/known-issues.md:93-104` says that a hung `drain` is freed by the next `Decode`. It is not:
  after a call on a frame that is not answerable no other `Decode` and no `Close` can start
  (`ZlibDecoder.HungDecodeKeepsTheMutex`), and the WebSocket session that made the call never ends
  (`WsShutdown.HungDecodeHoldsTheSession`).
- `proxy/internals/discord/wscompress.go:51-53` promises an answer for every frame. A call returns in
  some scheduling exactly when the frame is answerable (`ZlibDecoder.DecodeCanReturnIffAnswerable`):
  a frame that is not drained must be the first of its stream and fit in the 4096 bytes that the
  header read takes; a drained one must end the stream or leave, after its last byte has been taken,
  a read of fewer than 8192 bytes. Two frames that hang are given (`ZlibDecoder.FramesThatHang`).
- `docs/features.md:134-152` calls `Logging`'s rewinding byte-identical. A session puts the same on
  the wire under `Logging` and `Nop` exactly when it forwards no request without a body whose method
  usually has one, and no body that breaks off (`SessionLogging.LoggingIsTransparentIff`). The first
  is sent chunked and means the same (`LoggingTamper.LoggingSendsTheSameMessage`). Of the second Nop
  has sent the head, and some of the body, when it fails; `Logging` sends nothing, or if it was
  chunked a complete and empty body (`LoggingTamper.BrokenBodyIsSentIffChunked`).
- `proxy/internals/handlers/https.go:234-235` drops the connection rather than hand the bot a short
  body. It does hand one over, head and all that arrived, exactly when the type is binary
  (`HttpsSession.ShortBodyReachesTheClientIff`, with the input in `BodyPipeline.ShortImageIsForwarded`).
- `proxy/internals/handlers/https.go:43-46` keeps one upstream per host. A request is yet written to
  the connection of another host exactly when it comes behind one that is passed through, or when a
  tamperer changes its Host (`HostBinding.RequestsReachTheirHostsIff`, with inputs for both).
- An interim response is taken for the answer: the client gets all final answers exactly when there
  are none (`InterimResponses.InStepIffNoInterimResponses`).
- The answer to a HEAD request keeps its announced length only if its type is binary, or the length
  is 0 and the status announces it (`BodyPipeline.HeadAnswerKeepsItsLengthIff`).
- A binary body that the upstream ends by closing is forwarded without an end: the client's connection
  stays open (`BodyPipeline.ForwardsBinaryBodies`, `HttpsSession.UntilClosedBodyHasNoEnd`).
- Fragmented WebSocket messages cannot be reassembled behind the proxy
  (`WsRelay.ReassemblyIffUnfragmented`), and a masked frame from Discord survives only if its key is
  zero where it meets the payload (`WsRelay.ServerMaskSurvivesIff`).
- A nested CONNECT drops what came behind it in the same read (`Handoff.NestedConnectIsLosslessIff`).
- `proxy/internals/handlers/https.go:21-24` speaks of one level of subdomains; the last two labels
  decide (`Hosts.DiscordHeadersByLabels`).
- `Pairs` counts all round trips exactly when no two overlap (`Latency.AllTripsAreCountedIff`).

## Model

| member | source | states |
|---|---|---|
| CertCache.IssuancesAreSpaced | proxy/internals/certs/certs.go:71-97 | in every interleaving, two stored issuances for one host are more than validity less renewal window less one second apart |
| CertCache.TightestSpacing | proxy/internals/certs/certs.go:118-123 | that bound cannot be improved: a reachable state with two issuances at the smallest distance it allows |
| CertCache.OneLeaderPerHost | proxy/internals/certs/certs.go:79-92 | never two goroutines inside the flight function for one host |
| CertCache.CacheHoldsOnlyIssuedLeaves | proxy/internals/certs/certs.go:86-91 | the cache is exactly the replay of the successful issuances, so no error is cached; entries carry their host's name and no two hosts share one |
| CertCache.FlightSharesOneOutcome | proxy/internals/certs/certs.go:79-96 | everyone served by one flight, at whatever time, got the same certificate or the same error |
| CertCache.ResultsStay | proxy/internals/certs/certs.go:79-92 | a published flight result never changes later in the run |
| CertCache.NoCallerIsStranded | proxy/internals/certs/certs.go:79-96 | a waiting caller can go on, or its flight's leader exists and can |
| CertCache.BoundIsCurrent | proxy/internals/certs/certs.go:72-91 | when a caller's answer is settled, the cache holds it at that very step |
| CertCache.ReturnsAnEntryOfItsOwnTime | proxy/internals/certs/certs.go:72-96 | every certificate returned, late joiners included, was the entry for that host at some instant within the call |
| CertCache.ReturnedLeafIsFresh | proxy/internals/certs/certs.go:24-44 | it names the host without port and had 24 hours left when vetted, less the time since; vetting lies within the call or after its flight opened |
| CertCache.InvStep | proxy/internals/certs/certs.go:71-97 | every action of every goroutine keeps the invariant that ties callers, flights, table, cache and issue log together |
| CertCache.NotAfterFor | proxy/internals/certs/certs.go:118-123 | NotAfter read back from the certificate is whole seconds, within one second below issue time plus validity |
| CertCache.MITMProxyCerts.GetOrCreateCert | proxy/internals/certs/certs.go:71-97 | one undisturbed call: the cached leaf unless it expires soon, else a fresh one that is stored, else an error and an unchanged cache; and it is one of the interleavings |
| CertCache.MITMProxyCerts.CreateCertificate | proxy/internals/certs/certs.go:99-142 | a leaf with a new identity, the server name and the validity counted from after key generation; nothing on failure |
| Hosts.PortIsStripped | proxy/internals/certs/certs.go:24-29 | a plain host gets its port stripped, and stays as it is without one |
| Hosts.BracketsAreStripped | proxy/internals/certs/certs.go:24-29 | a bracketed host, colons and all, loses brackets and port |
| Hosts.ColonsAreLeftAlone | proxy/internals/certs/certs.go:24-29 | an unbracketed host with colons cannot be split and is kept whole |
| Hosts.SplitsIff | proxy/internals/certs/certs.go:24-29 | for any name: a host and a port are found exactly in the forms host:port, without further colons or brackets, and [host]:port |
| Hosts.CanonicalIs | proxy/internals/handlers/https.go:28-32 | the name compared has one trailing dot less and is the host letter by letter in lower case, the two letters outside ASCII included |
| Hosts.DiscordHeadersByLabels | proxy/internals/handlers/https.go:25-37 | any Host header matches exactly when the last two labels of its name are discord.com or discord.gg, case and one trailing dot aside |
| Hosts.DiscordHostsByLabels | proxy/internals/handlers/https.go:25-37 | the same for a plain name, and a port changes nothing |
| ZlibDecoder.StreamsStayInOrder | proxy/internals/discord/wscompress.go:54-109 | for any calls under any scheduling, after errors too: bytes received are a prefix of the frames in order, bytes returned a prefix of their inflation |
| ZlibDecoder.WritesNeverOverlap | proxy/internals/discord/wscompress.go:58-85 | until the first inflater error, a Decode that returned had its frame taken whole and its writer finished |
| ZlibDecoder.WaitingReturnsIffFrameTaken | proxy/internals/discord/wscompress.go:67-78 | a call waiting on writeDone returns in some continuation exactly when its frame has been taken whole |
| ZlibDecoder.DrainReturnsIffShortReadAhead | proxy/internals/discord/wscompress.go:90-109 | a drain returns in some scheduling exactly when the stream ends, or a read shorter than the buffer is still to come once the frame is all taken |
| ZlibDecoder.DrainIsARace | proxy/internals/discord/wscompress.go:101-107 | with the frame taken, one short read to come and the writer not yet reported, the scheduler can still choose either outcome |
| ZlibDecoder.HungForever | proxy/internals/discord/wscompress.go:54-109 | no scheduling frees a hung call |
| ZlibDecoder.HungDecodeKeepsTheMutex | proxy/internals/discord/wscompress.go:54-56 | after a Decode on a frame that is not answerable, no Decode and no Close ever starts |
| ZlibDecoder.DecodeCanReturnIffAnswerable | proxy/internals/discord/wscompress.go:54-85 | before the call: Decode of a given frame returns in some scheduling exactly when the frame is answerable, which the frame and the bytes inflated so far decide |
| ZlibDecoder.FramesDecide | proxy/internals/discord/wscompress.go:54-85 | whether a Decode can return is told from the frames given so far and this one, whatever the scheduling was |
| ZlibDecoder.FlushMarkIff | proxy/internals/discord/wscompress.go:10-16 | a frame is drained exactly when it ends in 00 00 ff ff |
| ZlibDecoder.LongFirstFrameHangs | proxy/internals/discord/wscompress.go:67-78 | a first frame of more than 4096 bytes that is not drained hangs, header good or bad |
| ZlibDecoder.FullReadHangs | proxy/internals/discord/wscompress.go:94-107 | a message whose last part inflates to exactly one full buffer hangs |
| ZlibDecoder.FramesThatHang | proxy/internals/discord/wscompress.go:54-109 | two such frames, of 5000 bytes without a flush and of a message that inflates to 8192 |
| ZlibDecoder.DecodingIsBounded | proxy/internals/discord/wscompress.go:54-109 | no run goes on for ever inside a call: a call hangs by standing still |
| ZlibDecoder.InvStep | proxy/internals/discord/wscompress.go:54-109 | every step of caller, writers and pipe keeps order, ownership of the pipe and the two stream positions |
| ZlibDecoder.SomeCodecIsLawful | proxy/internals/discord/wscompress.go:67-74 | the laws assumed of an inflater can be met, for any block size |
| HttpMessages.ReadBackWhole | proxy/internals/httpio/encode.go:29-39 | what is written under a framing is read back whole and nothing behind it is touched (section 6.3 of RFC 9112) |
| HttpMessages.ReadSplits | proxy/internals/httpio/decode.go:34-37 | what is read is what stands there: the items read and those left make up the connection |
| HttpMessages.ReadSucceedsIff | proxy/internals/httpio/decode.go:34-37 | a body read succeeds exactly when a body that fits its framing stands there in full |
| HttpMessages.FailureIsSticky | proxy/internals/httpio/decode.go:34-37 | a body read that failed fails again and yields nothing more |
| HttpMessages.Source.ReadAll | proxy/internals/httpio/decode.go:34-37 | the reading loop takes exactly the body, reports whether its end was reached, and leaves the connection behind it |
| BodyPipeline.ForwardsTheUpstreamsBytes | proxy/internals/httpio/encode.go:20-45 | a whole non-binary body leaves with the same bytes, exact Content-Length, no Transfer-Encoding, its Content-Type unless it is empty, and every other header as it was; the client reads it back |
| BodyPipeline.ViewOfABody | proxy/internals/httpio/decode.go:25-71 | for a server that sends a body: the tamperer is shown it decompressed if its encoding is gzip, deflate or br, told if that fails, shown it as it is under any other, and nothing of an empty one |
| BodyPipeline.HeadsAlone | proxy/internals/httpio/encode.go:20-45 | the answer to HEAD, or one with status 1xx, 204 or 304, goes on as its head alone and takes nothing more off the upstream |
| BodyPipeline.BinaryTypesAre | proxy/internals/httpio/content_type.go:5-24 | a type is left alone exactly when it contains one of the six names, in any case |
| BodyPipeline.ItoaIsDecimal | proxy/internals/httpio/encode.go:37-42 | the Content-Length written is the decimal numeral of the body's length, for every length |
| BodyPipeline.ForwardsBinaryBodies | proxy/internals/httpio/encode.go:25-27 | a binary body leaves as the upstream framed it, and the client finds its end exactly when the framing does not rest on a close |
| BodyPipeline.BrokenBodyIsForwardedIffBinary | proxy/internals/httpio/encode.go:25-32 | of a body that breaks off nothing is written, though DecodeBody has swallowed a part; of a binary type the head and all that arrived is |
| BodyPipeline.ShortImageIsForwarded | proxy/internals/httpio/encode.go:25-27 | such an input: two bytes of an image of three |
| BodyPipeline.HeadAnswerKeepsItsLengthIff | proxy/internals/httpio/encode.go:37-42 | through Encode and the write: the announced length n is kept exactly when the type is binary (n > 0), or the status announces a length (n = 0) |
| BodyPipeline.Response.DecodeBody | proxy/internals/httpio/decode.go:25-71 | in place: which body is left, where the connection stands, and the view, nothing, the bytes, the bytes inflated or an error, in every case |
| BodyPipeline.Response.Reframe | proxy/internals/httpio/encode.go:20-45 | Encode in place: new fields and headers, or the failure |
| Utf8.ValidPrefixIffRuneStart | proxy/internals/tamper/logging.go:112-116 | in valid UTF-8 the valid proper prefixes are exactly those that end before a rune start |
| Utf8.RuneStartNearby | proxy/internals/tamper/logging.go:113-115 | a rune start lies at most three bytes back |
| Utf8.CutPoint | proxy/internals/tamper/logging.go:112-116 | the loop ends within the limit; on valid UTF-8 it keeps a valid prefix, drops at most three bytes, and no longer valid prefix fits |
| LoggingTamper.Preview | proxy/internals/tamper/logging.go:108-117 | short texts whole, long ones cut on a rune boundary and marked |
| LoggingTamper.LoggingSendsTheSameIff | proxy/internals/tamper/logging.go:88-103 | with a readable body, Logging sends what Nop sends exactly unless the request has no body and its method usually has one |
| LoggingTamper.NopKeepsTheFraming | proxy/internals/handlers/https.go:190-192 | under Nop a request goes out framed as it came, and without a body with a length of 0 exactly if it is POST, PUT or PATCH |
| LoggingTamper.LoggingSendsTheSameMessage | proxy/internals/tamper/logging.go:39-47 | either way the upstream recovers the same method, target, headers and body |
| LoggingTamper.BrokenBodyIsSentIffChunked | proxy/internals/tamper/logging.go:94-97 | the write of a body that breaks off fails under Nop; under Logging it is sent as complete and empty exactly when it is chunked |
| LoggingTamper.LoggedTextIs | proxy/internals/tamper/logging.go:88-103 | the text is the body with its length, or <empty> or <read-error> with 0 |
| LoggingTamper.Logging.ReadAndRewindBody | proxy/internals/tamper/logging.go:88-103 | in place: the body is replaced by what was read, or by nothing on an error, with the text and length to log |
| LoggingTamper.Logging.OnRequest | proxy/internals/tamper/logging.go:39-47 | one record is appended, with the length read and, exactly when bodies are logged, a preview of the text |
| LoggingTamper.Logging.OnFrame | proxy/internals/tamper/logging.go:62-82 | the payload comes back unchanged, and one record with a preview or none is appended |
| HttpsSession.SessionsCloseWhatTheyOpen | proxy/internals/handlers/https.go:47-175 | on every way out all upstreams opened are closed, every write upstream went to one that was dialled, and at most four nested handshakes took place |
| HttpsSession.InterceptedIff | proxy/internals/handlers/https.go:71-72 | a request is for the tamperer exactly when its Host is one of the proxy's two names or its last two labels are Discord's |
| SessionRounds.PassesThroughIff | proxy/internals/handlers/https.go:71-72 | a round over any request but CONNECT, with a connection and a whole body, ends in a passthrough exactly when the Host is neither the proxy's nor Discord's |
| SessionRounds.PassesThroughByLabels | proxy/internals/handlers/https.go:25-37 | the same told from a plain name with or without port, by its last two labels |
| SessionRounds.PassthroughIsACopy | proxy/internals/handlers/https.go:153-175 | such a round puts the request and then the rest of the client's stream on the upstream, and all that the upstream sends on the client's connection; no tamperer is asked |
| SessionRounds.ConnectsTo | proxy/internals/handlers/https.go:101-151 | the connection in use stays for its host; for another it is closed and one dialled, at the resolver's answer for Discord's names if there is one and else at the host itself |
| SessionRounds.RequestGoesOut | proxy/internals/handlers/https.go:180-192 | what goes upstream reads as the request that the tamperer returned, or the client's own if it failed, with the whole body; what came behind stays for the next round |
| SessionRounds.AnswerGoesBack | proxy/internals/handlers/https.go:222-247 | the tamperer is shown the request sent, the response with its whole body and the body inflated; what it returns, or else the upstream's, is what the client gets, re-framed |
| SessionRounds.UpgradesIff | proxy/internals/handlers/https.go:208-220 | the session turns into a WebSocket relay exactly when Connection contains upgrade, Upgrade is websocket, in any case, the status is 101 and the client could be told |
| SessionRounds.UpgradeLeavesTheFrames | proxy/internals/handlers/https.go:208-220 | then the client has the head of the answer alone, and both streams stand right behind their heads |
| SessionRounds.FailedRequestEnds | proxy/internals/handlers/https.go:190-193 | a request that breaks off or cannot be written ends the session with no more than a first part of it sent, and nothing given to the client |
| SessionRounds.AnswerIsNeeded | proxy/internals/handlers/https.go:194-198 | no answer, no write to the client; and the loop goes on only once an answer is out |
| SessionRounds.EndsBeforeAWriteIff | proxy/internals/handlers/https.go:62-70 | when a round ends because the client is done, its request is malformed, or the dial fails, with nothing written |
| HostBinding.RequestsReachTheirHostsIff | proxy/internals/handlers/https.go:101-192 | every request head put on an upstream connection, of failed requests too, names the host it was dialled for, exactly when no passthrough carries a request for another host and nothing goes out of a request whose Host a tamperer changed |
| HostBinding.DefaultTamperersBind | proxy/internals/handlers/https.go:178-192 | under Nop and Logging that holds for every session that does not end in a passthrough |
| HostBinding.PassthroughCarriesOtherHosts | proxy/internals/handlers/https.go:153-175 | after a request that is passed through, one for any other host goes to its connection |
| HostBinding.PassthroughInput | proxy/internals/handlers/https.go:153-175 | such a session: a.example, then discord.com |
| HostBinding.RewrittenHostGoesAstray | proxy/internals/handlers/https.go:180-192 | a request whose Host the tamperer changed goes to the connection of the old one |
| HttpsSession.StepKeepsInv | proxy/internals/handlers/https.go:62-175 | every round keeps: at most one upstream, dialled as dialledHost, opened less closed, and every write on a connection that was dialled |
| HttpsSession.BrokenBodyEndsTheSession | proxy/internals/handlers/https.go:222-245 | an upstream body that breaks off ends the session; the client has been given nothing of it, or of a binary type the head and all that arrived |
| HttpsSession.ShortBodyReachesTheClientIff | proxy/internals/handlers/https.go:234-245 | something of such an answer reaches the client exactly when its type is binary |
| HttpsSession.UntilClosedBodyHasNoEnd | proxy/internals/handlers/https.go:241-247 | a binary body that ends with the upstream's close is sent on without an end of its own, and the session goes on with the client's connection open |
| HttpsSession.StepConsumes | proxy/internals/handlers/https.go:62-98 | each round consumes client input or uses up one of the four CONNECT levels |
| HttpsHandler.Handler.Serve | proxy/internals/handlers/https.go:47-248 | the loop over the handler's own variables ends in the state and with the exit of the specified session, upstream closed |
| HttpsHandler.Handler.Round | proxy/internals/handlers/https.go:62-247 | one turn of the loop, with all its early returns, is one specified step, about which SessionRounds and Tunnels are |
| HttpsHandler.Handler.NestedConnect | proxy/internals/handlers/https.go:74-99 | at depth 4 the end with nothing written; below it one reply and one handshake, and if that succeeds the session stands on the nested stream, one level deeper, with no upstream |
| HttpsHandler.Handler.Connect | proxy/internals/handlers/https.go:101-151 | keep the upstream for the same host, else close and redial |
| KeepAlive.WholeSessionStaysInStep | proxy/internals/handlers/https.go:62-248 | for any number of requests to any hosts: request k goes upstream as it came and the k-th thing the client gets is its connection's answer to it; both streams end at a boundary |
| KeepAlive.AnswersStayInStep | proxy/internals/handlers/https.go:178-248 | the same from any loop head at which both streams stand at a message boundary, with anything behind the requests, before which the session then stands |
| Tunnels.TunnelledSessionsStayInStep | proxy/internals/handlers/https.go:62-99 | requests inside nested CONNECTs, in every layer: all are asked and answered in step, layer by layer, with one 200 between a layer and the next; with four CONNECTs or fewer the session ends well, the fifth ends it |
| Tunnels.LayersStayInStep | proxy/internals/handlers/https.go:74-99 | the same from any depth, with the handshakes counted |
| Tunnels.ConnectLeadsInside | proxy/internals/handlers/https.go:79-98 | below depth 4 a CONNECT writes one 200, and the session goes on exactly as one on the client's stream inside the new layer, with no upstream; what came behind the CONNECT outside is not read |
| Tunnels.ConnectEndsIt | proxy/internals/handlers/https.go:75-88 | at depth 4 nothing is written and no handshake tried; a handshake that fails ends the session after the 200 |
| KeepAlive.RoundStaysInStep | proxy/internals/handlers/https.go:178-248 | one round asks one request, delivers one answer, and leaves both streams at a boundary |
| InterimResponses.InStepIffNoInterimResponses | proxy/internals/handlers/https.go:194-198 | for requests to any hosts, each answered: the client gets every final answer exactly when no server sends an interim response, whatever the session does after the first |
| KeepAlive.AnswerIsForwarded | proxy/internals/handlers/https.go:222-245 | the client reads the upstream's status and body, and the upstream stands behind it |
| KeepAlive.QueryIsForwarded | proxy/internals/handlers/https.go:180-192 | the upstream reads the client's method, host, target, headers and body |
| SessionLogging.LoggingIsTransparentIff | proxy/internals/handlers/https.go:180-245 | every session puts the same on the wire under Logging and Nop exactly when it forwards no empty request under a method that usually has a body and no body that breaks off, as far as the connection carries enough to tell |
| SessionLogging.StepsCompare | proxy/internals/tamper/tamper.go:36-52 | round by round the two runs agree in all, or differ in the very next write |
| SessionLogging.OutsDifferIff | proxy/internals/tamper/logging.go:88-103 | what the two put on the connection for one request differs exactly in those cases, a failed write's first part included |
| WsRelay.MaskingTwice | proxy/internals/handlers/ws.go:56-61 | masking with a key is its own inverse (section 5.3 of RFC 6455) |
| WsRelay.Cipher | proxy/internals/handlers/ws.go:58-60 | the buffer is masked in place, every byte once |
| WsRelay.DiscordSeesTheBotsFrames | proxy/internals/handlers/ws.go:45-77 | up to the first Close, frame k for Discord is final, without extension bits, masked with its fresh key byte by byte, and unmasks to the bot's payload, tampered, or unchanged where the tamperer failed |
| WsRelay.BotSeesDiscordsFrames | proxy/internals/handlers/ws.go:85-131 | frame k for the bot is final and not masked, with the payload tampered, or as it was sent on a compressed binary frame |
| WsRelay.RelayEndsAtClose | proxy/internals/handlers/ws.go:73-76 | each pump copies all frames, or those up to and including the first Close |
| WsRelay.PlainByteByByte | proxy/internals/handlers/ws.go:56-61 | the payload that the tamperer is shown: byte i xor key byte i mod 4 of a masked frame |
| WsRelay.PassingTamperersRelayAlike | proxy/internals/tamper/logging.go:62-82 | two tamperers that return what they are given, as Logging and Nop do, relay the same frames |
| WsRelay.ServerMaskSurvivesIff | proxy/internals/handlers/ws.go:103-121 | a masked frame from Discord reaches the bot with its payload exactly when the key bytes that meet the payload are zero |
| WsRelay.ReassemblyIffUnfragmented | proxy/internals/handlers/ws.go:69-77 | a stream that could be reassembled (section 5.4 of RFC 6455) still can be, into the same messages, exactly when no message was fragmented |
| WsRelay.PumpsReassembleIffUnfragmented | proxy/internals/handlers/ws.go:45-131 | so it is for both pumps under a tamperer that changes nothing |
| WsRelay.PumpToDiscord | proxy/internals/handlers/ws.go:45-77 | the first loop: what each frame written looks like, bit by bit, and what the tamperer was shown |
| WsRelay.PumpToBot | proxy/internals/handlers/ws.go:85-131 | the second loop: what each frame written looks like, and that the tamperer was shown the inflated view, or the original where there is none |
| WsShutdown.ReturnLeavesNothingOpen | proxy/internals/handlers/ws.go:37-134 | when InspectWS has returned, both connections are closed and no pump can move |
| WsShutdown.FramesAreReadInOrder | proxy/internals/handlers/ws.go:45-52 | in every interleaving each pump reads its frames in the order in which they came, each once |
| WsShutdown.PumpEndsIff | proxy/internals/handlers/ws.go:69-77 | after a write a pump ends exactly if the write failed or the frame was a Close |
| WsShutdown.NothingIsReadBehindAClose | proxy/internals/handlers/ws.go:73-76 | a pump that has a Close to pass on never reads another frame, whatever else happens |
| WsShutdown.ShutdownIsBounded | proxy/internals/handlers/ws.go:41-134 | once one pump has returned, the pumps' steps left are bounded by the frames buffered, in every continuation |
| WsShutdown.DecodingIsBounded | proxy/internals/handlers/ws.go:109-114 | and so are the decoder's between two of them |
| WsShutdown.ShutdownFinishesUnlessDecodeHangs | proxy/internals/handlers/ws.go:41-134 | a continuation that can go no further has returned with both connections closed, or Decode hangs and the bot's is still open |
| WsShutdown.HungDecodeHoldsTheSession | proxy/internals/handlers/ws.go:109-114 | a Decode that hangs, or a next frame on which it would, keeps the session from returning for ever, with the bot's connection open |
| WsShutdown.SessionCanEndIff | proxy/internals/handlers/ws.go:37-134 | with one pump gone and no peer failing, the session can still end exactly when the running Decode is not hung and every buffered frame up to the first Close is answerable in its turn |
| WsShutdown.PeerFailureCanEndItIff | proxy/internals/handlers/ws.go:85-131 | if peers may fail: exactly when the running Decode is not hung and the next frame is answerable |
| Handoff.HandleHTTPConn | proxy/internals/mitm.go:122-151 | by the first byte and the parsed request: an empty stream, TLS for discord.com, a malformed request, TLS for the CONNECT target, or a refusal; the TLS stage sees all of the stream behind the CONNECT, however much was buffered |
| Handoff.TunnelIsReadWhole | proxy/internals/mitm.go:122-151 | a client that sends a CONNECT and then any bytes has exactly those bytes read by the TLS stage |
| Handoff.DrainBuffered | proxy/internals/mitm.go:53-60 | reads of any sizes through the buffered connection yield the whole stream in order |
| Handoff.MultiReader.Drain | proxy/internals/handlers/ws.go:44 | a WebSocket pump reads buffered bytes and then the connection's, each once |
| Handoff.Copy | proxy/internals/handlers/https.go:158-174 | at every point of a passthrough each byte is at the destination in order or still to be read; all are delivered if nothing fails or closes |
| Handoff.NestedConnect | proxy/internals/handlers/https.go:74-98 | the nested handshake sees the stream without what the reader had buffered, and how much that is |
| Handoff.NestedConnectIsLosslessIff | proxy/internals/handlers/https.go:81-97 | nothing is dropped exactly when one of the reads that brought the CONNECT in ended with its last byte |
| Handoff.DroppedIsWhatCameBehind | proxy/internals/handlers/https.go:81-97 | the bytes dropped are those that these reads brought in behind the request |
| Handoff.WaitingClientLosesNothing | proxy/internals/handlers/https.go:81-83 | a client that waits for the 200 loses nothing at any pace |
| Handoff.EagerClientLoses | proxy/internals/handlers/https.go:81-83 | one that does not, and whose bytes arrive at once, loses all of them |
| Handoff.BufReader.Peek | proxy/internals/mitm.go:127-133 | peeking shows the first bytes and takes none |
| Handoff.SniAndConnectTargetAgree | proxy/internals/mitm.go:160-170 | with or without SNI the certificate names the same host, from two different cache entries |
| Latency.GreedyIsLargest | proxy/internals/internaltest/latency.go:112-128 | no pairing of the samples into disjoint stretches has more pairs |
| Latency.GreedyIsAPairing | proxy/internals/internaltest/latency.go:112-128 | the pairs are enter and exit samples, in order and disjoint, at most half the samples |
| Latency.DurationsFitTheSpan | proxy/internals/internaltest/latency.go:119-123 | with nondecreasing timestamps no duration is negative and they sum to at most the span |
| Latency.AllTripsAreCountedIff | proxy/internals/internaltest/latency.go:105-128 | of round trips that account for all enter and exit samples, Pairs counts all exactly when no two overlap, and then it pairs them right |
| Latency.TripsAreFoundIff | proxy/internals/internaltest/latency.go:105-128 | with unanswered enters among the samples, Pairs finds exactly the trips that took place iff no two overlap and every other enter lies within a trip or behind all |
| Latency.OverlappingRoundTripsAreMerged | proxy/internals/internaltest/latency.go:112-128 | an input: two overlapping round trips yield one pair |
| Latency.LatencyTamperer.Match | proxy/internals/internaltest/latency.go:112-128 | the nested loops return the durations of the greedy pairing |
| Latency.LatencyTamperer.Record | proxy/internals/internaltest/latency.go:61-71 | over any calls the samples are the first `cap` of them and the rest are counted as dropped |
| StressDriver.IndicesStartInOrder | tests/stress/driver/main.go:272-311 | in every interleaving op is called with 0, 1, 2, ... in order, once each, never beyond the target |
| StressDriver.FirstArrivalIsFirst | tests/stress/driver/main.go:255-259 | the slot holds the first nonzero of the values stored, or zero if there is none |
| StressDriver.ReturnCoversAPrefix | tests/stress/driver/main.go:272-313 | on return exactly 0..k-1 have been run to their end, k at most the target and equal to it unless cancelled |
| StressDriver.UncancelledRunDoesEverything | tests/stress/driver/main.go:272-313 | an uncancelled run that goes on for as long as it can returns with every index done |
| StressDriver.RunsAreBounded | tests/stress/driver/main.go:272-313 | no run goes on for ever |
| StressDriver.NeverStuck | tests/stress/driver/main.go:278-311 | before it returns something other than a cancellation is always possible |
| StressDriver.FirstArrivalAppend | tests/stress/driver/main.go:255-259 | a later store changes a slot only if nothing but zeros was stored there |
| StressDriver.Slots.Store | tests/stress/driver/main.go:255-259 | after any stores each slot holds the first nonzero value stored to it; other indices are ignored |
| StressDriver.AllArrived | tests/stress/driver/main.go:261-268 | true exactly when every op failed or was first-stored on both paths |

## Left out

- RSA, X.509 encoding, PEM, the TLS handshake, CA loading: a leaf is its identity, server name and expiry, and issuing succeeds or fails. A cached leaf without a parsed form is not modelled.
- A panic or Goexit inside a flight, and the clock going backwards.
- Sockets, DNS, dial internals and timeouts: resolve, dial, handshake and write results are arbitrary functions of their place in the run.
- DEFLATE, gzip and brotli: abstract functions; the stream decoder's inflater is any function that only extends its output and stops at an error.
- Header syntax, chunk sizes, trailers, Expect and Content-Length/Transfer-Encoding conflicts: messages are heads with a framing, octets and a last chunk. WebSocket byte layout: frames are records.
- How much of a failed message is out by then is arbitrary, head by head and octet by octet: a head of more than 4096 bytes, which the write buffer cannot hold back, is not modelled, nor is a body that a tamperer makes longer than its length.
- CertCache, ZlibDecoder, WsShutdown and runOps under concurrency are modelled on values: goroutines interleave as events on one state, so aliasing and update in place show only in the objects beside them.
- CertCache.MITMProxyCerts.GetOrCreateCert: one call that no other goroutine interrupts; the lemmas about runs cover interleavings.
- Letters outside ASCII in host names and headers: only those whose lower case is an ASCII letter are mapped.
- KeepAlive.WholeSessionStaysInStep: for Nop, successful writes and dials, intercepted hosts and well-formed traffic; CONNECT is in Tunnels, upgrades and other tamperers in SessionRounds.
- SessionRounds.AnswerGoesBack: for a non-binary answer with a body, and a tamperer whose response has its body in memory; whether an old body that a tamperer puts aside unread is read off the upstream depends on whose Close runs.
- InterimResponses.InStepIffNoInterimResponses: under the same conditions on the traffic; an interim 101 is not covered.
- SessionLogging.LoggingIsTransparentIff: the loop up to an upgrade; the frames behind it are in WsRelay.PassingTamperersRelayAlike.
- WsShutdown.ShutdownFinishesUnlessDecodeHangs: a write is taken to end at some time, with success or failure; a peer that neither reads nor closes holds its own pump.
- ZlibDecoder.DecodeCanReturnIffAnswerable: what some scheduling of the goroutines allows; which one the Go scheduler picks is open. What a read takes and returns is fixed by the bytes read, through functions of the codec.
- Whether a WebSocket session is compressed: a parameter of WsRelay, where the program looks for compress=zlib-stream in the query.
- Handoff.NestedConnect: what a TLS layer makes of the bytes it is given.
- Logging's Response hook and the text of log lines; the Custom tamperer stands for any other.
- The accept loop and its ready flag, config, health check, main and main_stress.
- Percentiles, whose index is rounded in floating point, the summary and CSV output, and the rest of the stress driver: sessions, HTTP, gateway, Docker sampling.
