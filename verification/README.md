# EMUNEL: verified models

EMUNEL relays proxy traffic (VLESS, Trojan, Shadowsocks, VMess over WebSocket and
xHTTP) and runs a set of optional engines over the byte streams: coalescing and
shaping of downlink frames, a shape-shifting record protocol, ClientHello tools, an
erasure code, a bandit that picks shaping profiles, rate limiters and connection
pools. This project models the parts whose correctness has to be argued over
unbounded inputs, runs or interleavings, and proves it with Dafny 4.11:

    dafny verify dfyconfig.toml

Every file is one module and stands for one component. Objects that the source
updates in place are classes with the same fields; each method is tied to a
function from the old state to the new one, and the theorems are about runs of that
function. Code between two suspension points of a coroutine is one step, and a run
is any list of steps. Clock readings, random choices, cancellations, process exits
and transport failures are inputs. Hashes, ciphers and seeds are arbitrary functions
with only the laws that are stated.

| file | component |
|---|---|
| Prelude, Cuts | options, bytes, big-endian integers, joining of chunks, streams cut at arbitrary places |
| QuotaGate | batched quota accounting of many connections on one link |
| PacketUp, SessionTable | ordered upload rebuilt from packets in any order; the capped session table |
| TokenBucket, RateLimiter | link speed limit, operations limit, the two-level limiter with a table that forgets |
| AeadStream | Shadowsocks chunk stream |
| ChaosSchedule, ChaosCodecs, ChaosSession | the shared schedule, the frame shapes and records, the stream decoder |
| ClientHello, SniSpoof | scanner, in-place name replacement, fragment plans, hello builders |
| Fec | XOR erasure code |
| Checksum | internet checksum and the packets that carry it |
| EngineContext, Coalescing, Morphing, CircuitBreaker, Pipeline, Downlink | the frame pipeline from sender to socket |
| XrayRuntime, WarmPool, DebouncedSave | ownership of processes and connections, lost updates |
| Linear, GaussJordan, LinUcb | matrix inversion in place and the bandit that rests on it |

## Where the code and its documentation differ

- The chaos comments promise that a shape never persists past three ticks. The tight
  bound is four; `ChaosSchedule.HoldOfFourIff` and `ChaosSchedule.PromisedBoundIff`
  give the exact raw patterns for which the promise fails. `switch_at` is exact all
  the same.
- `plan_fragments` promises that its parts always concatenate to the input. That
  holds if and only if the strategy is not record fragmentation of twelve bytes or
  more (`SniSpoof.PlanKeepsStreamIff`), where a record header is added.
- `build_hostfakesplit_hello` promises never to shift bytes. A hello whose name
  length reaches past the end of the data makes it grow, by exactly the overrun:
  `ClientHello.FakeKeepsLayoutIff`, and `ClientHello.TruncatedHelloGrows` for a name
  of twelve bytes, a length the host generator always produces
  (`ClientHello.DrawIsTaken`).
- `try_decrypt_chunks` advances its nonce before it knows that the payload is there.
  A stream decodes whenever every feed boundary is safe, and under a cipher that
  rejects foreign nonces only then (`AeadStreams.RoundTripIff`); one byte of payload
  missing at the wrong moment ends the connection.
- A flush is meant to lose nothing short of a failed send. Closing the connection
  during a flush cancels the flusher, and the rest of its batch is gone
  (`Downlink.CloseDropsBatch`); so it is when the task that handles a disconnect is
  cancelled (`Downlink.DisconnectDropsBatch`). `Downlink.DownlinkOrder` holds up to
  there.
- A holder of an Xray runtime that is cancelled while it waits for the lock in
  `finally` keeps its reference, so its process runs until close
  (`XrayRuntimes.LeakedRuns`), and a close that is interrupted in one stop never
  stops the entries behind it (`XrayRuntimes.StrandedRuns`).
  `XrayRuntimes.OwnershipHolds` gives the exact count of stops with both.
- `seq_buf_bytes` is never decreased. It bounds what is buffered and also what a
  session may ever buffer (`PacketUp.CapsHold`, `PacketUp.OpenIff`).
- The warm pool is described as an LRU; a key keeps the place of its first put. The
  pool stays in LRU order all through a run if and only if no event uses a key with
  other keys behind it (`WarmPools.AlwaysLruIff`), and in LRU order what is evicted
  was least recently used (`WarmPools.EvictsLeastRecentlyUsed`). Put into a, b, a and
  c with room for two keys, and a goes (`WarmPools.EvictsMostRecentlyUsed`).
- `decode_group` is documented to return None when recovery is impossible. It raises
  exactly when there is parity, there are data blocks and nothing at all was received
  (`Fec.RaisesIff`).
- The checksums are promised to be over IPv4 pseudo headers; `build_tcp_segment` sums
  no addresses. A receiver accepts a built segment if and only if the words of both
  addresses, the protocol and the length happen to sum to a multiple of 65535
  (`Checksum.TcpAcceptedIff`), which no bare segment from 10.0.0.1 to 10.0.0.2 does
  (`Checksum.BareSegmentRefused`).

## Model

| member | source | states |
|---|---|---|
| QuotaGates.QuotaGate.AccountFor | core/emunel_core/relay/base.py:64-77 | accounting denies at the instance cap without counting, otherwise counts the total first and then lets the link decide |
| QuotaGates.QuotaGate.Begin | core/emunel_core/relay/base.py:95-133 | the whole new state of gate and counters after add up to its pause: denial, batching, flush by size or age, new rate estimate and batch size |
| QuotaGates.QuotaGate.End | core/emunel_core/relay/base.py:118-133 | an add that flushed answers with the gate's state after its pause, any other with yes |
| QuotaGates.QuotaGate.Flush | core/emunel_core/relay/base.py:135-143 | pending bytes are accounted once, and only while the gate is open |
| QuotaGates.OvershootBound | core/emunel_core/relay/base.py:64-143 | over every interleaving of any number of gates on any number of links that share one instance cap: each link passes its limit and the total passes the cap by at most one batch and one frame, the bytes let through on a link exceed those charged by at most one batch per gate, no link is charged more than the instance, pending stays under the batch size |
| QuotaGates.AdmissionHolds | core/emunel_core/relay/base.py:64-143 | over every interleaving: as long as, whenever a connection accounts, its link is usable, its limit is 0 or not used up and the cap is 0 or not reached, its gate stays open, every add answers yes, and the bytes let through are exactly those of its adds, all charged but the pending ones |
| QuotaGates.ChargesInBatches | core/emunel_core/relay/base.py:95-133 | an add charges nothing before the batch is full or a quarter of a second has passed, and then all that is pending |
| QuotaGates.FlushMeasures | core/emunel_core/relay/base.py:109-117 | a flush measures bytes over time; the first measurement is the estimate, a later one counts for three tenths |
| QuotaGates.BatchTracksRate | core/emunel_core/relay/base.py:112-117 | after flushes measured between two rates the batch lies between a quarter of a second of each, within 32 KiB and 2 MiB |
| QuotaGates.DenialIsFinal | core/emunel_core/relay/base.py:95-97 | once a gate has closed, no run whatever of all gates changes what it admitted or charged, and every later add on it answers no |
| PacketUp.Session.Upload | core/emunel_core/relay/xhttp.py:376-444 | the state after a packet: caps, quota verdict, buffering, write in order and drain, teardown on failure; a second packet 0 before the connection is up starts a second open |
| PacketUp.Session.FinishOpen | core/emunel_core/relay/xhttp.py:253-274 | the payload of packet 0 goes first, then what was buffered meanwhile |
| PacketUp.Session.DrainFrom | core/emunel_core/relay/xhttp.py:408-415 | buffered packets are written in order until a gap or a closing transport |
| PacketUp.CapsHold | core/emunel_core/relay/xhttp.py:399-435 | in every run at most 256 packets are buffered, and the bytes buffered never exceed seq_buf_bytes, which never exceeds 4 MiB |
| PacketUp.Refused | core/emunel_core/relay/xhttp.py:366-393 | a number over ten million or an empty body changes nothing, a body over 8 MiB or one not admitted closes session and connection |
| PacketUp.UploadInOrder | core/emunel_core/relay/xhttp.py:396-435 | in every reachable open state the upstream bytes are exactly the sender's stream up to next_seq - 1 and next_seq is not buffered; after a failure they are a prefix |
| PacketUp.OrderIndependence | core/emunel_core/relay/xhttp.py:396-435 | for every arrival order of packets 0..n-1, each once, also during the open, the end state has the whole stream upstream, next_seq n and an empty buffer |
| PacketUp.StaysOpen | core/emunel_core/relay/xhttp.py:396-435 | no order of at most 257 packets of at most 4 MiB together closes the session |
| PacketUp.OpenIff | core/emunel_core/relay/xhttp.py:376-444 | with bodies of at most 8 MiB and numbers up to 10,000,000, an admitting gate and a working transport, a session stays open exactly as long as each packet before its turn finds fewer than 256 waiting and such packets are 4 MiB together at most; packets in turn are never refused, whatever their number and size |
| PacketUp.SmallIsRoomy | core/emunel_core/relay/xhttp.py:399-435 | 257 packets of 4 MiB together always have that room |
| PacketUp.Delivered | core/emunel_core/relay/xhttp.py:396-435 | from the arrival order alone, for a transmission of any size: packets 0..n-1, each once, in any order, with the connection up at any moment after packet 0 and room for those before their turn, end with the session open, the whole stream upstream and an empty buffer |
| SessionTable.XHttpEngine.GetOrCreateSession | core/emunel_core/relay/xhttp.py:138-171 | the session of the key, a new one, or a refusal at the global cap, the link cap or the address limit |
| SessionTable.XHttpEngine.TearDown | core/emunel_core/relay/xhttp.py:173-185 | the session of the key leaves the table, is closed and has its task cancelled if it has one, any other stays |
| SessionTable.XHttpEngine.EndTearDown | core/emunel_core/relay/xhttp.py:186-192 | after the wait for the task the writer the session then has is closed |
| SessionTable.XHttpEngine.SetConnection | core/emunel_core/relay/xhttp.py:269-273 | a connection that comes up is set on its session, torn down or not |
| SessionTable.TableIsSound | core/emunel_core/relay/xhttp.py:138-179 | in every run at most 2048 sessions and 64 per link are open, a link is only given its own sessions, and each session ever created is listed or was closed exactly once |
| SessionTable.GivenIff | core/emunel_core/relay/xhttp.py:138-171 | an existing session is given always, a new one exactly if fewer than 2048 are open, fewer than 64 of the link, and the address is allowed |
| SessionTable.ConnectionsClosedIff | core/emunel_core/relay/xhttp.py:173-192 | once a session is torn down its task was cancelled and its writer closed at most once, and all its connections were closed exactly when there was at most one and it came up before the teardown |
| TokenBuckets.TokenBucket.TakeNow | core/emunel_core/state.py:272-290 | a pass refills for the time gone by and takes what is there |
| TokenBuckets.TokenBucket.Consume | core/emunel_core/state.py:279-294 | consuming n ends for every n, also beyond the capacity, after at most 2 + n / 4 passes, having been granted exactly n |
| TokenBuckets.RateBound | core/emunel_core/state.py:253-294 | any interleaving of consumers is granted at most one bucket plus (last minus first request) times the rate |
| TokenBuckets.WorkConserving | core/emunel_core/state.py:279-294 | while somebody waits, any interleaving of consumers is granted more than what the bucket held, up to its capacity, plus seconds times the rate, less one byte |
| TokenBuckets.SleepsAreShort | core/emunel_core/state.py:264-294 | no bucket can fill up within the longest sleep, even one 80 percent late |
| TokenBuckets.SleepYieldsTokens | core/emunel_core/state.py:288-294 | after the shortest sleep a pass gets at least four tokens or all it wants |
| TokenBuckets.SleepSuffices | core/emunel_core/state.py:288-294 | a sleep of less than half a second is long enough for the bytes waited for, or for a full bucket |
| TokenBuckets.OpsLimiter.Allow | engines/manager.py:658-665 | an operation passes exactly when the refilled bucket holds a token, and then takes one |
| RateLimiter.Limiter.Bucket | engines/mesh/mesh_engine.py:88-98 | an unknown key starts full, and a table that grows past 4096 drops the keys idle for two minutes |
| RateLimiter.Limiter.Allow | engines/mesh/mesh_engine.py:106-115 | the answer and the whole new state of both levels |
| RateLimiter.FillsCompose | engines/mesh/mesh_engine.py:101-104 | refilling in two steps is refilling in one, in spite of clipping |
| RateLimiter.EvictionIsInvisible | engines/mesh/mesh_engine.py:88-115 | for every run under a monotone clock the limiter that forgets gives the same answers as one that never forgets |
| RateLimiter.CostOfACall | engines/mesh/mesh_engine.py:106-115 | an allowed call costs one token of its key and one global token, a denied call costs nothing now or later, other keys are untouched |
| RateLimiter.KeyRateBound | engines/mesh/mesh_engine.py:101-115 | over any stretch the calls allowed to a key, times 60, are at most 60 times the tokens it finds at the start, never more than its rate, plus its rate times the seconds |
| RateLimiter.GlobalRateBound | engines/mesh/mesh_engine.py:101-115 | the same for all keys together and the global rate |
| RateLimiter.SlidingWindows | engines/mesh/mesh_engine.py:80-115 | the limiter, forgetful table and all, refines a reference without buckets: a call is allowed exactly if over no stretch that ends with it its key, or all keys together, would be given more than a full allowance plus the rate per minute times the seconds over 60 |
| RateLimiter.DenialIsEarned | engines/mesh/mesh_engine.py:101-115 | a key denied while there is global room was allowed, over some stretch, more than its full allowance plus its rate per minute for that time, less one call |
| AeadStreams.AEADStream.constructor | core/emunel_core/relay/shadowsocks.py:58-73 | a new stream has used no nonce, sent no salt and buffered nothing |
| AeadStreams.AEADStream.EncryptChunk | core/emunel_core/relay/shadowsocks.py:78-88 | the salt once, then the chunk under the next two nonces; the i-th nonce ever used is i, so none repeats |
| AeadStreams.ChunkFormat | core/emunel_core/relay/shadowsocks.py:78-88 | a chunk is its length in two sealed bytes, most significant first, and its payload sealed under the next nonce |
| AeadStreams.AEADStream.FeedAndDecrypt | core/emunel_core/relay/shadowsocks.py:90-133 | feeding and iterating the decoder to its end does what the stream specification says, including the failures |
| AeadStreams.AEADStream.DrainBuffer | core/emunel_core/relay/shadowsocks.py:104-133 | the loop hands out every complete chunk and keeps buffer and nonce as specified |
| AeadStreams.RoundTripIff | core/emunel_core/relay/shadowsocks.py:78-133 | cut anyhow, a transmission decodes to its payloads in order with an empty buffer and equal counters if every feed boundary falls into the salt or leaves less than a length block of the next chunk, for every cipher that undoes its sealing; otherwise the decoder fails, for every such cipher that rejects foreign nonces |
| AeadStreams.UnsafeCutIsFatal | core/emunel_core/relay/shadowsocks.py:117-122 | after a cut behind a complete length block the next feed fails whatever it brings |
| AeadStreams.OverlongRefused | core/emunel_core/relay/shadowsocks.py:118-120 | a chunk over 0x3FFF bytes is refused as soon as its length block is there, for every cipher that undoes its sealing |
| AeadStreams.ForgedRefused | core/emunel_core/relay/shadowsocks.py:109-133 | nothing of a chunk whose length block or payload does not open is handed out, and decoding ends |
| AeadStreams.AEADStream.EncryptAll | core/emunel_core/relay/shadowsocks.py:314-323 | a fresh stream sends one piece per payload, the first behind the salt, under the nonces 0, 1, 2 and so on |
| AeadStreams.AEADStream.DecryptAll | core/emunel_core/relay/shadowsocks.py:281-299 | feeding message after message, until one fails, is the specified run of the decoder |
| AeadStreams.Transmit | core/emunel_core/relay/shadowsocks.py:78-133 | what one object encrypts and another decrypts, cut anew in between: the payloads in order with both counters equal when the cuts are safe, failure otherwise |
| AeadStreams.PiecesAreSafe | core/emunel_core/relay/shadowsocks.py:281-323 | messages that arrive as they were sent are always cut safely |
| ChaosSchedule.HoldOfFourIff | engines/chaos/chaos_protocol.py:92-104 | a shape is held for four ticks exactly for one pattern of raw indices |
| ChaosSchedule.NoHoldOfFive | engines/chaos/chaos_protocol.py:92-104 | no shape is held for five ticks, for any raw index function |
| ChaosSchedule.HoldOfFourExists | engines/chaos/chaos_protocol.py:93-98 | four ticks are reached, at raw indices 0,0,0,1,1,1 in buckets 2 to 7 |
| ChaosSchedule.FrameShown | engines/chaos/chaos_protocol.py:92-104 | the shape shown is the raw one, except in the third of three equal buckets |
| ChaosSchedule.ComputeWindow | engines/chaos/chaos_protocol.py:126-142 | the loop computes the specified window |
| ChaosSchedule.StepIsFirstChange | engines/chaos/chaos_protocol.py:134-136 | the loop stops after three looks and still always lands on the first change |
| ChaosSchedule.WindowIsExact | engines/chaos/chaos_protocol.py:126-142 | the window has a tick of at least 100 ms, contains the moment asked for, shows the frame of its bucket, and switches at the first later tick boundary with another frame |
| ChaosSchedule.PromisedBoundIff | engines/chaos/chaos_protocol.py:132-133 | the promised bound of three ticks holds exactly when the raw indices do not form the slow pattern |
| ChaosCodecs.FrameRoundTripIff | engines/chaos/chaos_protocol.py:147-219 | each frame shape decodes what it encoded, whatever follows, for payloads within the packet cap, except exactly QUIC-like frames over 65535 bytes |
| ChaosCodecs.Http2Format | engines/chaos/chaos_protocol.py:147-150 | the bytes of an HTTP/2 data frame on stream 1 |
| ChaosCodecs.WsFormat | engines/chaos/chaos_protocol.py:162-170 | the bytes of a final binary WebSocket message in its three length forms |
| ChaosCodecs.GrpcFormat | engines/chaos/chaos_protocol.py:190-192 | the bytes of an uncompressed gRPC message |
| ChaosCodecs.QuicFormat | engines/chaos/chaos_protocol.py:204-206 | the bytes of a QUIC-like frame, whose length saturates at 65535 |
| ChaosCodecs.PaddingFormat | engines/chaos/chaos_protocol.py:230-252 | eight to sixteen filler bytes as the seed says, four of them replaced by the control bytes at the offset the seed says |
| ChaosCodecs.RecordFormat | engines/chaos/chaos_protocol.py:255-269 | a record is a TLS application data header with the length, the padding, the frame |
| ChaosCodecs.ForeignRefused | engines/chaos/chaos_protocol.py:272-290 | what decodes in a window has the record header and the control bytes of that window and shape |
| ChaosCodecs.EncodeIff | engines/chaos/chaos_protocol.py:255-269 | encoding a payload succeeds exactly when padding and frame fit a record |
| ChaosCodecs.PacketRoundTrip | engines/chaos/chaos_protocol.py:255-290 | whatever a window encodes, the same window decodes |
| ChaosCodecs.SamePlanDecodes | engines/chaos/chaos_protocol.py:272-290 | a window with the same shape and padding plan decodes it too |
| ChaosSessions.ChaosSession.CurrentWindow | engines/chaos/chaos_protocol.py:326-332 | the cached window is always the one of the bucket asked for |
| ChaosSessions.ChaosSession.NextRecord | engines/chaos/chaos_protocol.py:366-380 | resynchronisation and framing end, and find what the scan specification finds |
| ChaosSessions.ChaosSession.DecodeNext | engines/chaos/chaos_protocol.py:353-390 | one decode call: buffer, counters and outcome |
| ChaosSessions.DecodesInBucket | engines/chaos/chaos_protocol.py:381-383 | a record decodes throughout its own bucket |
| ChaosSessions.DecodesInNextBucket | engines/chaos/chaos_protocol.py:381-387 | it decodes one bucket later when the newer window rejects it or shares shape and padding plan |
| ChaosSessions.Reassembly | engines/chaos/chaos_protocol.py:353-390 | records cut into any pieces come back whole, in order, with an empty buffer and no error counted, if each decodes at the time of the feed that completes it |
| ChaosSessions.WindowReassembly | engines/chaos/chaos_protocol.py:353-390 | so do records encoded in any buckets, for all four shapes, if each is complete within its own bucket or, where the newer window tolerates it, within the next |
| ChaosSessions.ResyncFinds | engines/chaos/chaos_protocol.py:366-380 | bytes in front of a record in which no header starts are skipped, and the record is found whole |
| ChaosSessions.BadRecordCounted | engines/chaos/chaos_protocol.py:378-390 | a complete record that neither window decodes leaves the buffer, counts as received and as an error, and is handed to nobody |
| ClientHello.FindSniSpan | engines/sni_enhanced/handshake_builder.py:126-164 | the loop, with its index errors and clipped slices, finds the first extension that names a host, or nothing |
| ClientHello.SpanFromHead | engines/sni_enhanced/handshake_builder.py:132-161 | where the span lies depends only on the bytes before it |
| ClientHello.SubstitutionIsStable | engines/sni_enhanced/handshake_builder.py:126-164 | replacing a span inside the data by any bytes of the same length leaves the span where it is and reports the new bytes |
| ClientHello.WholeNameIff | engines/sni_enhanced/handshake_builder.py:149-157 | the whole span is reported as the name exactly when the name does not run past its extension |
| ClientHello.FakeKeepsLayoutIff | engines/sni_enhanced/handshake_builder.py:192-210 | a result keeps the length exactly when the span lies inside the data, and then every byte outside the span and the span itself; otherwise it ends with the fake and is longer by exactly the overrun |
| ClientHello.TruncatedHelloGrows | engines/sni_enhanced/handshake_builder.py:205-210 | a hello of 58 bytes that announces a host of twelve, and that every fake of twelve bytes makes twelve bytes longer |
| SniSpoof.PlanKeepsStreamIff | engines/engines/sni_spoofing.py:108-146 | the parts concatenate to the input for every strategy and input, except exactly for record fragmentation from twelve bytes on |
| SniSpoof.PieceSizes | engines/engines/sni_spoofing.py:117-119 | no piece is empty or too large, and only the last may be short |
| SniSpoof.MultiPieces | engines/engines/sni_spoofing.py:117-119 | the multi plan cuts pieces of 24 bytes and the jitter |
| SniSpoof.HalfPieces | engines/engines/sni_spoofing.py:120-122 | the half plan cuts in the middle |
| SniSpoof.RecordSplit | engines/engines/sni_spoofing.py:123-138 | two non-empty records with the original type and version, right length fields and contents that concatenate to the original content |
| SniSpoof.RecordFragmentsFit | engines/engines/sni_spoofing.py:123-138 | a single complete record never makes record fragmentation raise, and whatever is fragmented fits two records of the largest size |
| SniSpoof.BuiltHelloIsFragmented | engines/engines/sni_spoofing.py:123-183 | every hello the builder can build is fragmented into exactly two records, and never raises |
| SniSpoof.CutsHitTheName | engines/engines/sni_spoofing.py:129-146 | the default plan cuts strictly inside the host name, the record plan right before it |
| SniSpoof.HelloLayout | engines/engines/sni_spoofing.py:149-183 | every byte of a built hello in its place, with lengths that match |
| SniSpoof.ServerNameLayout | engines/engines/sni_spoofing.py:162-169 | every byte of the server name extension |
| SniSpoof.HostNamed | engines/engines/sni_spoofing.py:156 | an ASCII name is used as it is up to 253 characters, a name without ASCII gives the default |
| SniSpoof.HelloParses | engines/engines/sni_spoofing.py:62-104 | a hello with the server name behind any extensions of other kinds and in front of anything parses to the host, with a span at its bytes |
| SniSpoof.FakeHelloParses | engines/engines/sni_spoofing.py:149-183 | parsing the minimal synthetic hello gives the ASCII part of the name, cut to 253 characters, or the default |
| SniSpoof.BrowserHelloParses | engines/sni_enhanced/handshake_builder.py:53-123 | the same for the browser-shaped hello, whatever follows the server name |
| Fec.EncodeGroup | engines/engines/fec.py:23-40 | the data blocks, then parity blocks that are the XOR of their residue class |
| Fec.DecodeGroup | engines/engines/fec.py:43-71 | the loops rebuild every lost block from its class, or give up exactly when some lost block is not repairable, or pass through, or raise |
| Fec.DecodeIff | engines/engines/fec.py:43-71 | for every loss pattern with something received and a data block lost, the padded originals come back if and only if no two lost data blocks have the same index modulo the number of parity blocks and their parity is there; otherwise None |
| Fec.BurstRecovered | engines/engines/fec.py:43-71 | any burst of at most as many consecutive data blocks as there are parity blocks is recovered |
| Fec.ParityEquation | engines/engines/fec.py:23-40 | byte j of parity block c and byte j of every data block whose index is c modulo the number of parity blocks cancel out |
| Fec.PassedThrough | engines/engines/fec.py:47-51 | without parity to use what arrived is handed out in its order |
| Fec.RaisesIff | engines/engines/fec.py:49-55 | decoding raises exactly when parity is asked for, data is expected and nothing was received |
| Fec.NothingLost | engines/engines/fec.py:52-54 | with all data blocks there they come back unpadded |
| Fec.SingleLoss | engines/engines/fec.py:24-27 | a single lost data block is always recovered |
| Checksum.Fold | engines/sni_enhanced/state_confusion.py:36-37 | the carry loop ends, keeps the sum modulo 65535 and never makes a positive sum zero |
| Checksum.Checksum | engines/sni_enhanced/state_confusion.py:30-38 | the loops compute the complement of the folded word sum, in 16 bits |
| Checksum.InsertedChecksumVerifies | engines/sni_enhanced/state_confusion.py:30-38 | summing anything with its own checksum inserted gives zero |
| Checksum.Ipv4HeaderVerifies | engines/sni_enhanced/state_confusion.py:81-96 | every packet built passes the receiver's header test, has every header field in its place, and carries addresses and segment unchanged; building fails exactly for bad addresses or a segment over 65515 bytes |
| Checksum.TcpLayout | engines/sni_enhanced/state_confusion.py:52-78 | every field of a built segment in its place, also the offset, the options and the payload |
| Checksum.TcpAcceptedIff | engines/sni_enhanced/state_confusion.py:52-96 | a TCP receiver that sums the pseudo header accepts a built segment in a built packet exactly when the words of both addresses, the protocol and the segment length sum to a multiple of 65535, for any fields, options and payload |
| Checksum.PseudoHeaderIff | engines/sni_enhanced/state_confusion.py:30-38 | a segment that sums to zero alone does so behind any pseudo header exactly when that header sums to a multiple of 65535 |
| Checksum.BareSegmentRefused | engines/sni_enhanced/state_confusion.py:52-96 | every segment without options and payload is refused between two given addresses |
| Coalescing.Process | engines/engines/coalescing.py:31-61 | the loop merges as specified and its length-mismatch fallback is never taken |
| Coalescing.MergeFrames | engines/engines/coalescing.py:43-49 | the greedy loop over the frames computes the specified merge |
| Coalescing.MergeKeepsStream | engines/engines/coalescing.py:43-49 | merging keeps the byte stream |
| Coalescing.MergeRespectsCeiling | engines/engines/coalescing.py:43-53 | every output is within the ceiling or one oversized input frame alone, and none is empty |
| Coalescing.GreedyIsOptimal | engines/engines/coalescing.py:43-49 | no contiguous grouping into parts within the ceiling uses fewer frames |
| Coalescing.CoalescingPacks | engines/engines/coalescing.py:31-61 | a downlink batch leaves as contiguous groups of whole frames, so full that no two neighbours would fit together; uplink batches and single frames pass |
| Morphing.Process | engines/engines/morphing.py:72-113 | frames are reshaped as the profile says, by pattern, by chunk or into one |
| Morphing.CutByPattern | engines/engines/morphing.py:94-100 | the loop over the size pattern computes the specified cut |
| Morphing.CutByChunk | engines/engines/morphing.py:103-105 | so does the loop over a chunk size |
| Morphing.CutFollowsPattern | engines/engines/morphing.py:94-105 | the cut loses nothing, frame i has the i-th size of the repeating pattern, only the last may be shorter, none is empty |
| Morphing.ShapedFollowsProfile | engines/engines/morphing.py:72-113 | a shaped downlink batch has the sizes of the profile: its repeating pattern, else its chunk size, else one frame |
| Morphing.ShapedKeepsStream | engines/engines/morphing.py:83-113 | shaping keeps the byte stream for every direction and profile |
| CircuitBreakers.CircuitBreaker.OnError | engines/base.py:162-168 | the new state after a failure, with the cooldown at the threshold |
| CircuitBreakers.CircuitBreaker.OnSuccess | engines/base.py:170-171 | a success resets the streak and nothing else |
| CircuitBreakers.CountersAreExact | engines/base.py:154-171 | after any history the error counter is the failure streak modulo the threshold and trips count all failures |
| CircuitBreakers.DisablesAreEarned | engines/base.py:162-168 | every disable cost the threshold's number of trips of its own |
| CircuitBreakers.OpenIff | engines/base.py:173-174 | an engine is bypassed exactly while some failure that completed a block of consecutive failures lies less than a cooldown back |
| Pipeline.ThroughKeepsStream | engines/manager.py:381-413 | any subset of engines in any order keeps the byte stream |
| Pipeline.RunStages | engines/manager.py:391-413 | the batch passes exactly the engines that are active, not bypassed and do not raise; each breaker learns its own engine's outcome only |
| Pipeline.RunPipeline | engines/manager.py:381-413 | the same behind the operations limiter: over the limit the batch passes untouched; the stream is kept always |
| Pipeline.HealthyAllRun | engines/manager.py:391-403 | when no stage is skipped or fails every engine runs, in order |
| Pipeline.SkippedIsAbsent | engines/manager.py:391-413 | a stage that is inactive, bypassed or raises leaves the batch to the others as if it were not there |
| Pipeline.BreakerLearns | engines/manager.py:395-407 | a breaker learns nothing from a skipped stage, a success from one that runs, a failure from one that raises |
| Downlink.WSConnection.AddData | engines/middleware.py:172-200 | data is buffered, dropped on a closed connection, or must wait for a flush |
| Downlink.WSConnection.GiveUp | engines/middleware.py:182-184 | a sender whose wait timed out closes the connection and loses nothing already buffered |
| Downlink.WSConnection.StartFlush | engines/middleware.py:233-246 | one flush at a time detaches the whole buffer |
| Downlink.WSConnection.TakeTransformed | engines/middleware.py:252-258 | the non-empty frames of the pipeline replace the batch, or the raw batch if there are none |
| Downlink.WSConnection.SendOne | engines/middleware.py:266-274 | frames leave in order until a send fails, which drops the rest of the batch |
| Downlink.WSConnection.EndFlush | engines/middleware.py:275-280 | the next flush may start, and a final one closes |
| Downlink.WSConnection.Disconnect | engines/middleware.py:318-320 | the disconnect is noted; its handler flushes next |
| Downlink.WSConnection.CancelFlush | engines/middleware.py:275-288 | cancelling the task inside a flush, at close or after a disconnect, drops what was in flight and ends the flush; nothing else is lost |
| Downlink.DownlinkOrder | engines/middleware.py:172-280 | for every interleaving of senders, flushes, engine outcomes, closes, disconnects and cancellations: unless a send failed or a cancelled flush dropped a batch, bytes sent, in flight and buffered are exactly the bytes accepted, in order; otherwise some are missing; only a closed or disconnected connection drops a batch, and pending is the buffered length |
| Downlink.QuietMeansDelivered | engines/middleware.py:233-280 | when nothing is pending or in flight, all that was accepted has been sent if and only if no send failed and no cancelled flush dropped a batch, which needs a close or a disconnect |
| Downlink.FlushDelivers | engines/middleware.py:233-280 | from every reachable state an undisturbed flush puts exactly the buffered bytes on the wire, in the frames of the pipeline, and empties the buffer |
| Downlink.TakenIff | engines/middleware.py:172-200 | data is taken exactly if there is some, the connection is open and it is not full during a flush |
| Downlink.CloseDropsBatch | engines/middleware.py:160-169 | a run in which a close during a flush leaves accepted bytes unsent although no send failed |
| Downlink.DisconnectDropsBatch | engines/middleware.py:318-320 | a run in which a cancelled disconnect handler drops a batch of a connection that is not closed |
| XrayRuntimes.XrayRuntime.Acquire | core/emunel_core/relay/vmess.py:138-155 | up to the yield: the entry held and the whole new state, or a refusal after close, for an exited process, at the cap or after a failed start |
| XrayRuntimes.XrayRuntime.Release | core/emunel_core/relay/vmess.py:156-162 | one reference less, and the last holder of the mapped entry removes and stops it |
| XrayRuntimes.XrayRuntime.AbandonRelease | core/emunel_core/relay/vmess.py:156-162 | a holder cancelled before it gets the lock is gone but its reference stays |
| XrayRuntimes.XrayRuntime.Close | core/emunel_core/relay/vmess.py:164-169 | the map is emptied and its entries are stopped once each, up to the stop that is interrupted, if one is |
| XrayRuntimes.NextKeepsInvariant | core/emunel_core/relay/vmess.py:138-169 | every step keeps exact counts, the cap, and stopped exactly when unmapped |
| XrayRuntimes.OwnershipHolds | core/emunel_core/relay/vmess.py:138-169 | in every run refs is the number of holders and of cancelled releases, the map stays within its cap, no process still counted is stopped before close, none is stopped twice, and each is stopped once its holders have left or close has reached it; only a close leaves entries behind |
| XrayRuntimes.GivenIff | core/emunel_core/relay/vmess.py:138-155 | in every run an acquire is given a process exactly if the runtime is open and the link's process in use has not exited, or it has none in use, fewer links than the cap have, and launching works |
| XrayRuntimes.LeakedRuns | core/emunel_core/relay/vmess.py:156-162 | a run after which nobody holds a process and it still runs |
| XrayRuntimes.StrandedRuns | core/emunel_core/relay/vmess.py:164-169 | a run in which an interrupted close leaves a process that its last holder does not stop either |
| WarmPools.WarmPool.Take | engines/engines/preconnect.py:45-61 | the oldest usable connection of the bucket, the unusable ones before it closed, an exhausted bucket removed; every connection is judged by a clock reading of its own |
| WarmPools.WarmPool.Add | engines/engines/preconnect.py:63-80 | the connection appended, then the oldest of the bucket and the oldest buckets beyond the limits closed |
| WarmPools.WarmPool.CloseAll | engines/engines/preconnect.py:100-104 | everything pooled is closed, once |
| WarmPools.Conservation | engines/engines/preconnect.py:45-104 | over every run what was put in equals what is pooled, handed out or closed, with multiplicity, and both bounds hold |
| WarmPools.ExactlyOneFate | engines/engines/preconnect.py:45-104 | a connection put in once is in exactly one of the three places |
| WarmPools.TakenIsLive | engines/engines/preconnect.py:49-58 | what is handed out is unexpired, not closing, of the destination asked for, and behind unusable connections only |
| WarmPools.PutKeepsAll | engines/engines/preconnect.py:63-80 | a put within the limits closes nothing and only appends to the queue of its key |
| WarmPools.TakesOldest | engines/engines/preconnect.py:45-61 | taking hands out the oldest connection if it is not over the time to live and not closing |
| WarmPools.AlwaysLruIff | engines/engines/preconnect.py:45-80 | the pool is in the order of last use all through a run exactly when no event puts into, or takes from, a key with other keys behind it |
| WarmPools.EvictsLeastRecentlyUsed | engines/engines/preconnect.py:77-80 | in that order, every key a put evicts was last used before every key that stays |
| WarmPools.EvictsMostRecentlyUsed | engines/engines/preconnect.py:66-80 | a run of four puts in which the most recently used of two keys is evicted |
| DebouncedSave.StateStore.ScheduleSave | core/emunel_core/state.py:414-422 | a call marks a running saver or becomes the saver |
| DebouncedSave.StateStore.BeginSave | core/emunel_core/state.py:424-426 | a save begins after the pause and covers every request made so far |
| DebouncedSave.StateStore.Fail | core/emunel_core/state.py:428-429 | an exception ends the saver and lets the next request start another |
| DebouncedSave.StateStore.EndSave | core/emunel_core/state.py:424-429 | another turn if a request came in meanwhile, else out of the loop |
| DebouncedSave.NoUpdateLost | core/emunel_core/state.py:414-429 | in every run at most one saver is in the loop, and whenever none is, after a normal end, the last save began after the last request |
| DebouncedSave.SavesAreEarned | core/emunel_core/state.py:414-429 | there are never more saves than requests |
| DebouncedSave.FailureLosesIff | core/emunel_core/state.py:414-429 | in every run, a saver that fails leaves a request unsaved exactly when some request came after the last save began |
| DebouncedSave.FailureLosesUpdate | core/emunel_core/state.py:428-429 | a run in which a failed saver leaves a request unsaved |
| GaussJordan.MatInverse | engines/profiles.py:120-137 | the in-place algorithm with pivot search, row swaps, lam fallback and skipped zero factors computes the specified matrix |
| GaussJordan.AfterInvariant | engines/profiles.py:125-136 | after each column the left half of every row is its right half times the matrix, and finished columns are unit vectors |
| GaussJordan.InverseIff | engines/profiles.py:120-137 | for every square matrix the returned matrix times it is the identity if and only if no column fell under the pivot threshold |
| GaussJordan.DominatingIsRegular | engines/profiles.py:127-130 | on every matrix that is the identity plus a positive part the threshold is never met |
| LinUcb.Arm.Update | engines/profiles.py:207-219 | the loops teach the arm one lesson: the outer product of the context, the clipped reward times the context, the pull, the reward |
| LinUcb.LearnedInvariant | engines/profiles.py:207-219 | every arm that updates can produce is symmetric and dominates the identity |
| LinUcb.LearnedArmIsSolved | engines/profiles.py:186-205 | for every such arm the lam fallback is never used, the inverse is exact, theta solves the normal equations and the variance under the root is never negative |
| LinUcb.HistoryIsSolved | engines/profiles.py:186-219 | for every history of contexts of four entries and rewards in 0..1, theta solves (I + sum of x times x transposed) theta = sum of r times x, entry by entry; pulls and rewards are counted |
| LinUcb.OutOfRange | engines/profiles.py:207-219 | rewards and contexts out of range teach what the nearest in range do |
| LinUcb.LinUCB.Choose | engines/profiles.py:186-205 | the first arm with the best score is named, unknown arms are created untaught, nothing else changes |
| LinUcb.ScoreIsPrediction | engines/profiles.py:186-205 | the score of an arm with a history is the reward its weights predict plus alpha times the root of a variance that is never negative and that the exact inverse gives |

## Left out

- PacketUp.OrderIndependence: speaks of non-empty bodies that the quota gate lets through, of senders that send no second packet 0 during an open, and of sessions still open, which PacketUp.OpenIff decides; empty bodies are ignored by the source.
- PacketUp.Delivered: speaks of a transport that is not closing and a gate that admits every packet; CapsHold and UploadInOrder cover all others.
- QuotaGates.OvershootBound: VMess accounting, which checks the link but not the instance cap, takes no part; limits and cap are fixed during a run.
- AeadStreams.AEADStream.EncryptChunk: requires a payload under 65536 bytes and a nonce counter that has room; beyond that the source raises. Salt and tag have fixed sizes here.
- AeadStreams.RoundTripIff: key derivation and cipher are arbitrary functions under which opening undoes sealing with the same nonce; the failing half also needs a cipher that rejects every other nonce, which an unlucky key of a real one may not do. AeadStreams.LawfulExists shows that the laws can be met.
- ChaosSessions.ResyncFinds: speaks of noise that is buffered together with the record behind it; when noise alone is fed its last bytes are dropped, also the start of a header.
- ChaosSessions.ChaosSession.DecodeNext: the frame and switch statistics of the session are left out; seeds and padding filler are arbitrary functions of the bucket.
- ClientHello.FindSniSpan: the loop is split off into ClientHello.ScanExtensions; the parser of engines/engines/sni_spoofing.py is the same scan and additionally reports the record and hello lengths.
- ClientHello.FakeKeepsLayoutIff: the random host generator, which need not return, is an arbitrary byte string of the length of the name.
- SniSpoof.PlanKeepsStreamIff: takes the strategy name stripped and in lower case, as the source makes it first.
- SniSpoof.BrowserHelloParses: requires lengths that fit their fields; cipher list, the other extensions and the padding are arbitrary.
- Morphing.Process: requires the positive pattern sizes that profile normalisation guarantees; the choice of the profile and the pause between frames are left out.
- Pipeline.RunPipeline: stages of different engines have different breakers, as in the source; pipelines for kinds other than frame batches are left out.
- Downlink.DownlinkOrder: claims the exact stream up to the first failed send or cancelled flush; after that only that bytes are missing.
- XrayRuntimes.XrayRuntime.Acquire: process launch, ports and directories are reduced to success, failure before a process exists, and failure after one was spawned and stopped.
- XrayRuntimes.XrayRuntime.Close: an entry counts as stopped once it is handed to _stop_entry, also if that is interrupted.
- SessionTable.XHttpEngine.TearDown: the connection registry, the queue's end marker and the reaper's choice of keys are left out.
- WarmPools.WarmPool.Add: socket options and the dial counts that trigger warming are left out.
- DebouncedSave.StateStore.EndSave: what is written to disk, and its retry, are left out.
- LinUcb.LinUCB.Choose: takes the square root as a given function; LinUCB.update on an unknown arm, which creates it first, is covered by Arm.Update on a new arm.
- GaussJordan.MatInverse: arithmetic is over exact reals; rounding is not modelled, and matrices are square, as every arm's matrix is.
- TokenBuckets.TokenBucket.Consume: is alone on its bucket; interleaved consumers are covered by TokenBuckets.RateBound and TokenBuckets.WorkConserving.
- HTTP and WebSocket routing, header parsing of VLESS and Trojan, subprocess and file handling, databases and the panel are input and output or wrappers over libraries.
- Caches, metrics, log text, backup rotation, the memory guard and configuration precedence would only add easy members.
