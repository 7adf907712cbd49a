# The relay core of the Telegram proxy, modelled and proved in Dafny

The proxy takes MTProto connections from Telegram clients, removes their obfuscation, and relays them to Telegram over
WebSockets, over plain POST requests multiplexed on HTTP/2 lanes, or over Cloudflare workers and fronts. This project
models the code that decides what happens to every byte, slot, credit and socket, and proves what that code is for.

The code is cooperative (asyncio), so everything between two suspension points is one atomic step. Tasks, sockets and
connections are numbers, the clock is an argument that never runs backwards, random bytes are arguments, and AES-CTR,
SHA-256 and HMAC are function arguments of which nothing is assumed. The text of the files follows the program:

| files | what they model |
|---|---|
| `CfH2Channel`, `CfH2Invariants`, `CfH2Steps`, `CfH2System`, `CfH2Safety`, `CfH2Theorems`, `CfH2Objects` | `_HttpChannel` and `_HttpLane` of proxy/cf_h2.py: the steps on values, the invariant each keeps, all interleavings of any number of channels on one lane, the guarantees over every run, and the objects with their loops |
| `CfH2Requests`, `CfH2Answers`, `CfH2Delivery` | the same machine: a packet becomes a request and enters the history, its answer reaches the client, and when a channel fails |
| `CfH2Recovery`, `CfH2Replays`, `CfH2Rotation`, `CfH2Stalled` | exactly which packets are sent again, how often over a run, how room is made for an upload, and the ends of a stalled replay or send |
| `NativeFraming` | `_read_packet` and `_encode_reply` of proxy/cf_h2.py |
| `H2Receive`, `H2Responses`, `H2Upload` | flow control, responses and uploads in proxy/h2_transport.py (section 6.9 of RFC 9113) |
| `MsgSplitter`, `Relay` | `MsgSplitter`, the two re-encrypting loops of proxy/bridge.py, and a whole client connection |
| `Obfuscation` | the handshakes and ciphers of proxy/tg_ws_proxy.py |
| `WebSocket`, `ExclusiveOr` | masking, frames and reassembly in proxy/raw_websocket.py (RFC 6455) |
| `FakeTls`, `ClientHello`, `TlsHandshake`, `ServerHello` | the record stream, the ClientHello parser, the handshake and what a client reads in the answer, of proxy/fake_tls.py (RFC 8446) |
| `WsPool`, `WsPoolSafety`, `WsPoolRefills`, `WsPoolObjects` | `_WsPool` of proxy/pool.py |
| `WorkerBreaker`, `Balancer` | the circuit breakers of proxy/pool.py and proxy/balancer.py |
| `Prelude`, `Bytes`, `Streams` | options, sums, byte strings, and a reader that hands out any non-empty piece of what is to come |

Where the source updates an object in place, a class does the same with the same loops, and each method's contract
equates the new state with a function of the old one; the theorems are about those functions, over every run. Seven
results are not quite what a first reading of the source suggests, and are stated as the code behaves:

- `_read_packet` reads back what `_encode_reply` (or a client) framed exactly for the bodies described by
  `NativeFraming.Native`; a padded body whose own length field disagrees, or an unpadded body under 24 bytes, is not.
- `recv` can leave more than 16 MiB in `_frag`: `WebSocket.OverflowKeepsFragments` gives two frames after which it
  does. It happens if and only if the frames sent hold a message that is not one single frame and passes the limit
  before it ends (`WebSocket.TooLong`, proved in `WebSocket.KeptOnlyTooLong`).
- Eight requests of one channel are a hard limit only because reservations are serialised by `send_lock`; the proof
  carries the reservation in progress along.
- `FakeTlsStream.read` ends in two ways. It raises when the connection ends where a record header or the body of a
  change-cipher-spec record is due, also in the middle of one; it returns the empty string when payload is due, or when
  a record of another type or an empty one comes (`FakeTls.EndRaises`, exact in `FakeTls.FakeTlsStream.Read`).
- A fake-TLS client that closes after whole records therefore ends `tcp_to_ws` by an exception, before
  `splitter.flush()`: a packet it left incomplete is dropped, which a plain client's is not. `Relay.LostTail` gives the
  input; by `Relay.TailIsLost` something is lost if and only if the end raises and an incomplete packet is buffered.
- A response whose end has been read survives the failure of its connection, but not a reset of its stream that
  follows all the same (`H2Responses.ResetSpoilsCompleteResponse`); `H2Responses.CompleteResponseSurvives` is exact.
- Local aborts during a worker's rest may stretch it by up to their own five seconds, but never climb the ladder.

## Model

| member | source | states |
|---|---|---|
| CfH2Theorems.SlotAccounting | proxy/cf_h2.py:379-433 | in every reachable state the lane's request and byte counters equal the sums over its channels plus the slots on their way back, within 64 requests and 32 MiB; each channel stays within 8 requests and 8 MiB |
| CfH2Theorems.SlotReturnedOnce | proxy/cf_h2.py:511-533 | over every run a slot is given back by exactly one release, however its request ended |
| CfH2Theorems.DrainedLaneIsEmpty | proxy/cf_h2.py:584-608 | once every request has ended and every release has run, nothing is counted and every slot ever taken is back |
| CfH2Replays.ReplaysAreBounded | proxy/cf_h2.py:265-285 | over every run, as its steps show them: one packet is replayed at most 16 times, at least 2 seconds apart, none later than 30 seconds after it was first sent, at most 3 times between two replies that differ |
| CfH2Recovery.RecoveryIsExact | proxy/cf_h2.py:265-285 | in every reachable state the recovery loop may choose a packet if and only if its channel is open with nothing waiting for the client, nothing of the packet is arriving, the packet is lost (no response 3 seconds after its upload, or given up for room) or is the last one with nothing under way, it may be replayed once more, and a replay slot is free or can be freed |
| CfH2Recovery.LostIsReplayed | proxy/cf_h2.py:535-574 | with a free slot and room such a packet is sent again: the loop's three steps put a replay of the same body on its way and note it |
| CfH2Requests.UnansweredIsSentAgain | proxy/cf_h2.py:535-574 | from any reachable state with a channel at rest: a new packet that is sent, uploaded and not answered for 3 seconds is on its way a second time |
| CfH2Stalled.StalledReplayIsReplaced | proxy/cf_h2.py:551-573 | a replay without a response for 30 seconds is given up and a new one takes its place and its room |
| CfH2Stalled.ProgressIsNoted | proxy/cf_h2.py:282-284 | the progress that holds an idle replay back is renewed by a response's start, chunk and end and by a finished native write, and by nothing else |
| CfH2Theorems.FewReplaysInFlight | proxy/cf_h2.py:535-574 | at most one replay of a packet and two of a channel are in flight |
| CfH2Theorems.RotationIsSafe | proxy/cf_h2.py:214-263 | a request given up for room had finished uploading 3 seconds before, had no response, was no handshake and at most 64 KiB, and is a replay or leaves a young retained packet of the same body marked for recovery |
| CfH2Rotation.ChannelMakesRoom | proxy/cf_h2.py:214-237 | for an upload that waits in its channel a rotation is possible if and only if one of the channel's requests has been uploaded for 3 seconds without a response and is a replay or belongs to a retained packet of at most 30 seconds |
| CfH2Rotation.LaneMakesRoom | proxy/cf_h2.py:238-246 | for one that waits in the lane, if and only if any channel has such a request |
| CfH2Rotation.RoomIsMade | proxy/cf_h2.py:246-263 | the request given up is the first in order, replays before others and then by upload time; it is gone with its slot, and unless it was a replay its packet counts as lost and can be sent again |
| CfH2Theorems.HistoryIsWellFormed | proxy/cf_h2.py:435-461 | the history holds at most 16 packets and 64 KiB, of the one current key of 8 bytes that are not all zero, with different bodies, in sending order |
| CfH2Requests.SentHistory | proxy/cf_h2.py:435-461 | what one native packet does to the history, case by case: handshake, other key, too large, repeated, new; with space none of the packets retained before goes, and all others are untouched |
| CfH2Requests.TrimmedGoesNoFurther | proxy/cf_h2.py:453-461 | trimming stops as soon as the limits are met |
| CfH2Theorems.SentPacketIsRetained | proxy/cf_h2.py:409-423 | a packet just sent survives the trimming that follows, exactly when it may be retained at all, and knows its request |
| CfH2Requests.SendIsCommitted | proxy/cf_h2.py:379-433 | with room, a packet becomes exactly one more running request of the next slot, and nothing else about requests, replies and other channels changes |
| CfH2Stalled.AbortedSendReturns | proxy/cf_h2.py:391-396 | a send that finds its channel closed once it has a slot leaves the lane as it was and frees the send lock |
| CfH2Stalled.SendIsGivenUp | proxy/cf_h2.py:363-385 | a send that has no slot yet may be given up, and frees the send lock |
| CfH2Stalled.ClosedLaneTakesNothing | proxy/cf_h2.py:660-672 | a closed lane stays closed and no channel gets another request |
| CfH2Stalled.OpenedAtRest | proxy/cf_h2.py:152-187 | a new channel is open and at rest, with nothing under way and nothing retained |
| CfH2Theorems.RepliesInCompletionOrder | proxy/cf_h2.py:463-476 | until a channel fails, replies handed out are the non-empty responses in completion order, none lost or doubled; the byte counter is exact and bounded |
| CfH2Delivery.FailsExactly | proxy/cf_h2.py:463-509 | an open channel fails in a step if and only if it is closed, a request of it fails, or a reply comes while 16 wait or 8 MiB would be passed; then only the failure is left to hand out, otherwise the reply waits behind the others |
| CfH2Delivery.FailedStays | proxy/cf_h2.py:351-361 | a failed channel stays failed and hands out nothing but the failure |
| CfH2Delivery.ClosedForGood | proxy/cf_h2.py:584-606 | after its close nothing of a channel is retained, replayed or waited for |
| CfH2Answers.AnswerIsQueued | proxy/cf_h2.py:748-803 | a response in any pieces waits whole behind the others, its request leaves every table and its slot is back at the lane |
| CfH2Answers.WaitingIsHandedOut | proxy/cf_h2.py:576-582 | with a client that goes on reading, all that waits is handed out in order and recovery is no longer held back |
| CfH2Theorems.ReplyMemory | proxy/cf_h2.py:748-758 | the lane's reply buffer counter equals what its running responses hold, at most 32 MiB |
| CfH2Safety.StepKeeps | proxy/cf_h2.py:363-608 | every atomic step of every coroutine keeps the invariant of the lane and all its channels |
| CfH2Safety.RunKeeps | proxy/cf_h2.py:363-608 | so does every interleaving |
| CfH2Invariants.TrimmedFits | proxy/cf_h2.py:453-461 | trimming ends within both limits |
| CfH2Invariants.TrimmedKeepsLast | proxy/cf_h2.py:453-461 | trimming never evicts the packet just remembered |
| CfH2Invariants.TrimmedPrefersUnprotected | proxy/cf_h2.py:453-461 | a packet with an original in flight, or retired and still recoverable, goes only when all that remain are such |
| CfH2Objects.HttpLane.TryReserve | proxy/cf_h2.py:660-672 | a slot is taken exactly when the lane is open and has room, and counted |
| CfH2Objects.HttpLane.Release | proxy/cf_h2.py:674-678 | both counters go down by the slot |
| CfH2Objects.HttpLane.BufferChunk | proxy/cf_h2.py:749-756 | a chunk is counted exactly when the lane's reply buffers stay within their bound |
| CfH2Objects.HttpChannel.RememberPacket | proxy/cf_h2.py:438-451 | the history afterwards is the one of the value-level step: cleared on a new key, extended only by a new body |
| CfH2Objects.HttpChannel.FindVictim | proxy/cf_h2.py:456-459 | the search finds the first unprotected packet, or the oldest |
| CfH2Objects.HttpChannel.TrimHistory | proxy/cf_h2.py:453-461 | the loop with its running byte count leaves the history the repeated eviction leaves, and ends |
| CfH2Objects.HttpChannel.CommitNativeSend | proxy/cf_h2.py:402-423 | the new request, its bytes, its packet and the trimmed history |
| CfH2Objects.HttpChannel.CommitReplaySend | proxy/cf_h2.py:402-432 | the new replay and its packet's budget, clock and pending task |
| CfH2Objects.HttpChannel.FinishRequest | proxy/cf_h2.py:511-529 | a request leaves every table and its packet, once; a second call changes nothing |
| CfH2Objects.HttpChannel.CompleteRequest | proxy/cf_h2.py:463-476 | a response refreshes its packet's budget, is queued or overflows, and the request leaves; the result is the length to be released |
| CfH2Objects.HttpChannel.FailWith | proxy/cf_h2.py:351-361 | the queue is drained down to the failure itself, once |
| CfH2Objects.HttpChannel.ReceiveReply | proxy/cf_h2.py:576-582 | the oldest item is taken and its bytes are no longer counted |
| CfH2Objects.HttpChannel.FindCapacityCandidate | proxy/cf_h2.py:214-225 | the search returns a request that may be given up, replays first and then the longest uploaded, and none only if there is none |
| CfH2Objects.HttpChannel.RetireRequest | proxy/cf_h2.py:246-248 | the chosen request's upload time is forgotten and its packet marked retired |
| CfH2Objects.ReserveNative | proxy/cf_h2.py:386-433 | reservation and commitment of a native packet: both objects afterwards are those of the machine's step, also when the lane or the channel was closed meanwhile |
| CfH2Objects.CompleteAndRelease | proxy/cf_h2.py:466-530 | a request from the return of `_post` to its slot back at the lane: lane and channel objects afterwards are those of the machine's two steps, for any state of the other channels |
| NativeFraming.ReadInvertsFrame | proxy/cf_h2.py:108-138 | a frame is read back as its body and acknowledgement flag if and only if the body is a native packet with tellable padding |
| NativeFraming.ReplyIsReadBack | proxy/cf_h2.py:141-149 | a reply written to a client is read back by the same reader for exactly those bodies, for all three framings |
| NativeFraming.ReplyLayout | proxy/cf_h2.py:141-149 | the bytes of a reply: its count of words or bytes, lowest byte first, the body, the padding; and which bodies are refused |
| NativeFraming.ReadPacketIsExact | proxy/cf_h2.py:108-138 | on arbitrary bytes: incomplete, invalid or the one native body of the frame, decided by header and length |
| NativeFraming.FramersAgree | proxy/cf_h2.py:108-149 | on whatever stretch of a stream the packet reader accepts, the splitter cuts at the same places |
| H2Receive.CreditIsConserved | proxy/h2_transport.py:277-287 | for every live stream, peer window + queued credit + credit in hand + batched credit is 256 KiB |
| H2Receive.ConnectionWindowIsWhole | proxy/h2_transport.py:144-182 | while the connection works its own window is whole after every batch, whatever its streams and their consumers do |
| H2Receive.BatchingNeverStalls | proxy/h2_transport.py:277-287 | a drained consumer has reopened its whole window, a slow one holds back less than a batch |
| H2Responses.CreditIsReturned | proxy/h2_transport.py:277-287 | credit goes back in batches: the window stays while more waits and less than 64 KiB have come together, and otherwise opens by all of it |
| H2Receive.BuffersAreBounded | proxy/h2_transport.py:138-182 | a stream, ended or not, buffers at most its window, also after the connection has failed, and there are never more streams than slots |
| H2Responses.ConsumerSeesThePeer | proxy/h2_transport.py:138-188 | over every run, with the peer's payloads, end and reset told from the steps alone: the consumer has been handed a prefix of the payloads and is next given the following one, the normal end, an error, or made to wait, exactly as the peer's story says |
| H2Responses.EndMeansComplete | proxy/h2_transport.py:65-76 | the iterator ends normally if and only if the peer ended the stream, no reset or failure came before, and every payload the peer sent has been handed out |
| H2Responses.CompleteResponseSurvives | proxy/h2_transport.py:65-76 | over every continuation, failures included, a response whose end was read raises if and only if the peer resets its stream afterwards; otherwise it never waits and its consumer alone gets every payload the peer sent |
| H2Responses.ResetSpoilsCompleteResponse | proxy/h2_transport.py:172-177 | a run in which a reset follows the end and the whole response is lost |
| H2Responses.SlotIsFree | proxy/h2_transport.py:194-210 | a slot may be taken exactly while the connection works and fewer streams are open than both ends allow |
| H2Receive.ReceivingConnection.ConsumeCredit | proxy/h2_transport.py:277-287 | the stream's batched credit and window after consuming, as on values |
| H2Receive.ReceivingConnection.FailAll | proxy/h2_transport.py:128-136 | the first failure marks exactly the streams that have not ended |
| H2Receive.ReceivingConnection.ReadEvents | proxy/h2_transport.py:144-182 | one batch of events, cut short by GOAWAY, as on values |
| H2Upload.UploadsRespectTheReceiver | proxy/h2_transport.py:212-236 | a receiver that checks stream and connection windows (also negative ones) and frame sizes accepts everything sent by any number of interleaved uploads; each body arrives exactly, whole before END_STREAM, with nothing after it |
| H2Upload.OnlyShutWindowsStall | proxy/h2_transport.py:212-236 | in every run an upload waits only while a window is shut; otherwise it sends as much of its piece as windows and 64 KiB allow |
| H2Upload.UploadCompletes | proxy/h2_transport.py:212-236 | with windows wide enough the steps of its own loop bring the receiver the whole request and its end |
| H2Upload.BatchAdvances | proxy/h2_transport.py:227-231 | a batch is sent to its end and touches no other upload |
| H2Upload.SendingConnection.SendSome | proxy/h2_transport.py:215-233 | the inner loop sends the batch frame by frame, or waits exactly when no window is open |
| MsgSplitter.ChunkingDoesNotMatter | proxy/bridge.py:58-88 | for every division of a stream the parts are the complete packets of the whole stream, the rest is buffered, and after an impossible header everything passes through |
| MsgSplitter.NothingIsLost | proxy/bridge.py:58-96 | parts and flush concatenate to the input, the two buffers stay aligned, no complete packet stays buffered |
| MsgSplitter.NextLenMeans | proxy/bridge.py:98-140 | the next packet ends where its header says, in all framings, with the acknowledgement bit set or not; an empty one starts no packet |
| MsgSplitter.Splitter.SplitChunk | proxy/bridge.py:58-88 | the offset loop over both buffers emits those parts and leaves that state |
| MsgSplitter.Splitter.TakeTail | proxy/bridge.py:90-96 | flushing returns what is buffered, once |
| Relay.TcpToWs | proxy/bridge.py:358-398 | however the ciphertext of a plain or fake-TLS client is cut on arrival, the frames carry the plaintext under Telegram's keystream, one packet per frame while framing is valid, the rest flushed at the end unless the last read raises |
| Relay.TcpToWsWhole | proxy/bridge.py:393-398 | without a splitter the whole stream is sent, however it ends |
| Relay.TailIsLost | proxy/bridge.py:362-404 | what is sent is the whole stream if and only if not both the end raises and an incomplete packet is buffered; otherwise exactly that packet is missing |
| Relay.LostTail | proxy/bridge.py:362-404 | a fake-TLS client whose last byte is dropped, and which a plain client would have had sent |
| Relay.WsToTcp | proxy/bridge.py:407-425 | however Telegram fragments its messages, and whether it ends the stream by a close frame or breaks it off, the client is written the same plaintext under its own keystream |
| Relay.HandleClient | proxy/tg_ws_proxy.py:254-338 | from a client's bytes alone, with or without fake TLS: a bad ClientHello or handshake sends nothing; otherwise Telegram reads the client's tag, a fitting DC index and the client's plaintext out of the frames, all but a lost tail |
| Relay.FramingOfTag | proxy/tg_ws_proxy.py:283-288 | the framing a client announces by its tag is the one its stream is split by |
| Relay.ReadClientInit | proxy/tg_ws_proxy.py:131-207 | a connection is accepted exactly when a masked one opens with a ClientHello made with the secret, and 64 bytes follow; handshake and stream are those bytes and what is behind them |
| Relay.MessagePerFrame | proxy/raw_websocket.py:167-180 | every part sent arrives as one message |
| Relay.FrameLog.SendBatch | proxy/raw_websocket.py:174-180 | parts become final, masked, binary frames in order |
| Obfuscation.ClientIsRecognised | proxy/tg_ws_proxy.py:48-72 | a handshake made with the secret is accepted if and only if its tag is one of the three, with the DC, media flag and tag it was made for |
| Obfuscation.RelayIndexFits | proxy/tg_ws_proxy.py:281-295 | the DC index sent on always fits a signed 16-bit field and keeps its sign, whatever index the client sent |
| Obfuscation.IndexPassesOn | proxy/tg_ws_proxy.py:276-295 | the index a client asks for is the one sent on, less the 10000 of test DCs on either side of zero |
| Obfuscation.GenerateRelayInit | proxy/tg_ws_proxy.py:75-106 | recovering the keystream from an encryption of the packet yields a packet that hides tag and index, and looks like no other protocol |
| Obfuscation.RelayInitDecrypts | proxy/tg_ws_proxy.py:75-106 | with the key inside the packet it decrypts to the tag and the DC index |
| Obfuscation.BuildCryptoCtx | proxy/tg_ws_proxy.py:210-251 | four separate ciphers with the keys the peers derive, the upward ones past the 64-byte handshake, the downward ones at the start of the reversed keys |
| WebSocket.MaskingTwice | proxy/raw_websocket.py:43-54 | masking twice is the identity |
| WebSocket.XorMask | proxy/raw_websocket.py:43-54 | the strided table path and the big-integer path both equal bytewise exclusive or with the repeated key |
| ExclusiveOr.XorOfNumbers | proxy/raw_websocket.py:52-54 | the exclusive or of two strings read as big-endian numbers is that of their bytes |
| WebSocket.ReadInvertsEncode | proxy/raw_websocket.py:262-297 | a frame is read back as sent in all three length encodings, masked or not; above 16 MiB it is refused |
| WebSocket.HeadLayout | proxy/raw_websocket.py:262-279 | the head of a frame has the layout of section 5.2 of RFC 6455, with lengths in 7, 16 and 64 bits |
| WebSocket.FrameLayout | proxy/raw_websocket.py:262-279 | behind it come the key and the data under it, byte by byte |
| WebSocket.CutOff | proxy/raw_websocket.py:281-297 | a frame cut off anywhere is waited for |
| WebSocket.RecvFirst | proxy/raw_websocket.py:182-225 | one call returns the first message of any fragmentation with control frames in between and leaves exactly the frames after it |
| WebSocket.RecvReturnsAllMessages | proxy/raw_websocket.py:182-225 | repeated calls return exactly the messages, in order |
| WebSocket.FragmentsReassemble | proxy/raw_websocket.py:212-223 | a message cut into any fragments is reassembled |
| WebSocket.RecvEnds | proxy/raw_websocket.py:182-225 | when no whole message is left none is returned: the call fails on a message already too long, or else ends as the stream does, by a close frame, a break or an oversized frame |
| WebSocket.RecvAnswersPings | proxy/raw_websocket.py:200-207 | every ping on the way is answered with its own payload, in order, and nothing else is written |
| WebSocket.CloseIsEchoed | proxy/raw_websocket.py:186-198 | a close frame is echoed with its code and ends all reading |
| WebSocket.KeptFragmentsAreBounded | proxy/raw_websocket.py:212-223 | whatever arrives, one call leaves more than 16 MiB only together with the error, and never more than 32 MiB |
| WebSocket.KeptOnlyTooLong | proxy/raw_websocket.py:212-223 | it does so if and only if the frames sent hold a fragmented message that passes the limit before it ends |
| WebSocket.OverflowKeepsFragments | proxy/raw_websocket.py:215-218 | two fragments after which they do exceed it |
| WebSocket.RawWebSocket.Receive | proxy/raw_websocket.py:182-225 | the loop over frames does all of that to the object |
| FakeTls.ChunksFit | proxy/fake_tls.py:318-329 | records hold 1 to 16384 bytes, all but the last the maximum, together all of the data |
| FakeTls.WrapTlsRecord | proxy/fake_tls.py:318-329 | the loop writes exactly those records |
| FakeTls.RecordLayout | proxy/fake_tls.py:318-329 | a record has the layout of section 5.1 of RFC 8446 |
| FakeTls.PlainOfWire | proxy/fake_tls.py:364-391 | what a reader can still deliver of any writes with change-cipher-spec records between them is the data written |
| FakeTls.FakeTlsStream.ReadTlsPayload | proxy/fake_tls.py:364-391 | on arbitrary bytes, a piece of what is left; the end exactly when nothing is left, by an error exactly when the bytes behind end as `EndRaises` says |
| FakeTls.FakeTlsStream.ReadExactly | proxy/fake_tls.py:341-349 | the next n bytes if and only if that many are left, without touching how the stream will end |
| FakeTls.FakeTlsStream.Read | proxy/fake_tls.py:351-362 | at least one and at most n of the next bytes while any are left; then the error or the empty string, decided by the bytes that remain |
| FakeTls.ReadBack | proxy/fake_tls.py:341-391 | any mix of calls, over any segmentation, returns consecutive pieces of what was written |
| FakeTls.WholeRecordsEndRaising | proxy/fake_tls.py:374-391 | any sequence of whole records ends in the error |
| ClientHello.ParseIsExact | proxy/fake_tls.py:117-159 | for every well-formed ClientHello exactly its suites and its key shares, among any other extensions |
| ClientHello.CutOffTellsNothing | proxy/fake_tls.py:117-159 | a message cut off before its extensions tells nothing |
| ClientHello.ParseClientHello | proxy/fake_tls.py:117-159 | the parser on arbitrary bytes: empty on any read past the end, otherwise the value-level result |
| ClientHello.ReadExtensions | proxy/fake_tls.py:143-155 | the nested loops end on arbitrary bytes, stay inside the message and keep the first length of each group |
| TlsHandshake.SignedIsVerified | proxy/fake_tls.py:83-114 | a ClientHello signed with the secret is accepted exactly while its time is within 120 seconds, with that time |
| TlsHandshake.VerifiedIsSigned | proxy/fake_tls.py:83-114 | every ClientHello accepted is one so signed |
| TlsHandshake.SelectCipherSuite | proxy/fake_tls.py:162-166 | the loop selects the suite the next row describes |
| TlsHandshake.SuiteIsPreferred | proxy/fake_tls.py:162-166 | the first offered suite in order of preference, or the first of all |
| TlsHandshake.ClientAccepts | proxy/fake_tls.py:193-232 | the answer's random is the digest of the answer with that field zeroed, as clients check |
| TlsHandshake.AnswerHasThreeRecords | proxy/fake_tls.py:193-232 | the answer is three records, and the first application record measured in it is the one drawn; what the first one says is the next row |
| ServerHello.AnswerIsRead | proxy/fake_tls.py:193-232 | a reader of section 4.1.3 of RFC 8446 finds in it the client's session id, the first preferred suite offered, TLS 1.3, the digest as random, and one key share, of the hybrid group if and only if that was offered with 1216 bytes |
| ServerHello.HandshakeIsAnswered | proxy/fake_tls.py:83-232 | the same from the bytes of any well-formed ClientHello that was accepted |
| TlsHandshake.MeasureFirstAppData | proxy/fake_tls.py:243-258 | the scan over record headers ends on arbitrary bytes with the length of the first application record |
| TlsHandshake.MeasureIsStable | proxy/fake_tls.py:243-258 | a length once known is not changed by bytes that arrive later |
| WsPoolSafety.SocketOwnership | proxy/pool.py:41-136 | over every interleaving each connected socket is in exactly one place: an attempt, idle, handed to one client, closed; none is handed out or listed twice |
| WsPoolSafety.IdleIsBounded | proxy/pool.py:85-105 | idle sockets and those the key's one registered refill may still add never exceed the pool size |
| WsPoolSafety.NothingLeaks | proxy/pool.py:127-136 | when no refill is running, every socket is idle, handed out or closed |
| WsPoolSafety.OvertakenAddsNothing | proxy/pool.py:219-235 | a refill that a reset has overtaken never adds a socket again, however long afterwards it connects |
| WsPoolSafety.GetIsFirstFresh | proxy/pool.py:50-64 | a call hands out the oldest fresh idle socket and closes exactly the stale ones before it |
| WsPoolSafety.SweepKeepsFresh | proxy/pool.py:148-169 | a round of rotation keeps exactly the fresh sockets in their order, closes the others, and has a refill under way if some are missing |
| WsPoolSafety.GetRefills | proxy/pool.py:75-83 | after a call a refill of the key is under way unless it must wait out a failed one |
| WsPoolSafety.ResetStartsOver | proxy/pool.py:219-235 | after a reset the next call for any key starts a refill of its own at once |
| WsPoolRefills.RefillDials | proxy/pool.py:85-97 | a refill that begins dials exactly the sockets that are missing, all at once, or ends and gives up its registration if none is |
| WsPoolRefills.RefillOutcome | proxy/pool.py:85-136 | however its attempts end and whatever happens to other keys meanwhile, a refill adopts what connects behind what was idle, is never stuck, and at its end clears the backoff or, if nothing connected, doubles it from one second up to an hour |
| WsPoolObjects.SocketPool.Take | proxy/pool.py:41-68 | the loop over the deque does what the value-level step says |
| WsPoolObjects.SocketPool.SweepBucket | proxy/pool.py:148-169 | likewise one round of rotation with its two lists |
| WsPoolObjects.SocketPool.TakeResult | proxy/pool.py:99-121 | only the registered refill adopts a socket; backoff is settled with the last result |
| WsPoolObjects.SocketPool.ResetPool | proxy/pool.py:219-235 | every idle socket of every key is closed and all bookkeeping is cleared |
| WorkerBreaker.RestNeverShortened | proxy/pool.py:398-439 | from any state reached from an empty breaker, a running rest is shortened by nothing but a success or a reset, also when failures of other kinds follow |
| WorkerBreaker.RestIsRespected | proxy/pool.py:377-439 | in any such state and on any run from it, a worker stays unavailable until its rest is over |
| WorkerBreaker.BurstClimbsOnce | proxy/pool.py:414-425 | any number of ordinary failures within the rest the first one began climb one step only, whatever other workers do and however often workers are asked for meanwhile; local aborts add at most their five seconds |
| WorkerBreaker.SuccessStartsOver | proxy/pool.py:394-439 | after a success the rests start over at 60 (or 900) seconds and double up to their caps |
| WorkerBreaker.WorkersAreSeparate | proxy/pool.py:377-439 | over every run, whether a worker rests and how far it has climbed is what a record of that worker's own events says, by the two ladders written out |
| WorkerBreaker.Workers.AvailableDomains | proxy/pool.py:377-392 | exactly the workers that are not resting, each once, expired rests dropped |
| WorkerBreaker.Workers.Fail | proxy/pool.py:398-439 | the new state of the breaker, and the time left as the result |
| Balancer.RestNeverShortened | proxy/balancer.py:75-119 | from any state reached from an empty balancer, a running rest is shortened by nothing but a success or the front leaving the pool |
| Balancer.RestIsRespected | proxy/balancer.py:99-104 | until then no sweep offers the front, however many run at once |
| Balancer.DeadFrontIsDialledRarely | proxy/balancer.py:111-119 | a front that fails after every offer gets its n-th offer (n at least 5) no sooner than 900 + 600 (n - 5) seconds after the first |
| Balancer.SuccessStartsOver | proxy/balancer.py:106-119 | after a success the rests start over at 60 seconds and double up to 600, for this front alone |
| Balancer.FrontFromStart | proxy/balancer.py:44-119 | over every run, what is known of a front is what a record of its own events and the changes of the pool says, by the ladder written out |
| Balancer.HeldWhileDialled | proxy/balancer.py:91-104 | while an unproven front is dialled no other sweep offers it for 12 seconds, unless it is heard of before |
| Balancer.CandidatesOrder | proxy/balancer.py:76-89 | the current front first, then proven ones before unproven ones |
| Balancer.CandidatesComplete | proxy/balancer.py:76-89 | every front of the pool is a candidate |
| Balancer.OfferSweep.Next | proxy/balancer.py:91-104 | the next candidate that does not rest, held while unproven; at most three offers, and an early end only when all others rest |
| Balancer.FrontBalancer.Fail | proxy/balancer.py:111-119 | the new state of the breaker and the length of the rest |
| Balancer.FrontBalancer.Refresh | proxy/balancer.py:44-66 | a changed pool prunes what is known of fronts that left it; a reordered one changes nothing |

## Left out

- Sockets, TLS, DNS, httpx and the connect functions: a reader hands out any non-empty piece of what is to come, a writer is a log, a connection attempt ends either way.
- AES, SHA-256, HMAC, X25519 and proxy/_aes.py: a keystream is any function of key, counter and position, a digest any function of the right length.
- The h2 library: its windows, settings limit, frame size and events are modelled; it is taken to reject a peer that overruns a window and to credit data of streams already closed.
- Replay packets and response streams are values in maps keyed by number rather than heap objects: two references to one packet are two equal numbers, and aliasing is not otherwise modelled.
- The order in which `_recover` looks at retained packets, and ties between requests equally long uploaded, are left open: the proofs hold for every order.
- One uploader per channel, as the relay runs it: `upload_wait_since`, `upload_wait_phase` and `upload_wait_bytes` follow from the phase of the one `send` in progress.
- The monotonic clock is positive, since the source tells a packet replayed by a last attempt after time zero.
- Cancellation while `_release` waits for the lane's lock, and a second cancellation of a refill during its clean-up, count as one step with the first.
- The rejection sampling of `_generate_relay_init` as a loop: its accepted bytes are an argument.
- Obfuscation.BuildCryptoCtx: does not model that the key lengths suit AES, because the keystream is abstract.
- Relay.HandleClient: covers connections that get a WebSocket from the pool. The Cloudflare WebSocket fallbacks relay through the modelled loops; `_bridge_tcp_reencrypt` and `bridge_h2` are other loops and are not modelled.
- Relay.ReadClientInit: leaves out the PROXY protocol line, timeouts, a transport that fails in the middle, and what is written to the client: the ServerHello (see `TlsHandshake`), the redirect and the masking domain's answer.
- The task that wakes up a rotation and when: rounds of `_rotate` may come at any time in the model.
- The idle sockets of `_CfWorkerPool`: only its breaker is modelled.
- That the balancer's current front is in the pool: a late success after a refresh can make it false.
- `CfH2Pool` (choice and setup of lanes), preflight, logging, traces, statistics and diagnostics; proxy/config.py, proxy/stats.py, the user interface, updaters and scripts.
