# Reusable channels, a TURN server, proxy sessions and an obfuscating pipe

A model of the networking core of a peer-to-peer proxy, and of what its parts promise together:

- `PoolChannels`, `PoolProtocol`, `PoolGuarantees`, `Pools`: data channels that are opened and closed in
  band and reused. The protocol is a state machine of an opener and an acceptor with two FIFO links and any
  number of sessions; `Session` records are logs that exist for the proofs.
- `StunMessages`, `StunAddresses`, `StunBuffers`, `StunIntegrity`: the STUN codec (RFC 5389, sections 6
  and 15), first as functions on byte sequences, then as methods on arrays with aliasing views.
- `TurnIpc`, `TurnFrontend`, `TurnBackend`, `TurnRouting`, `TurnGuarantees`, `TurnRelays`, `TurnAnswers`,
  `TurnReplies`: the two halves of the TURN server (RFC 5766), and all of it as one system: where its messages
  go, what leaves through relay sockets, and that requests are answered.
- `ProxyMessages`, `SocksToRtc`, `RtcToNet`, `ProxyStreams`, `ProxyConversations`: the two proxy sessions,
  composed with the channel protocol into end-to-end statements.
- `SocksHeaders`, `SocksMessages`, `SocksBuffers`: SOCKS5 headers (RFC 1928, sections 3 to 7).
- `Counters`, `TcpConnections`: the counter that times the destruction of a socket, and its client.
- `Candidates`, `Caesar`, `ChurnPipes`: candidate lines, the byte-shifting transformer, the obfuscating pipe.
- `Basics`, `Text`: shared types, and the string operations of JavaScript that the codecs use.

Each class has a `View` of its fields, and its methods are tied to functions on that view; the state machines
step by the same functions. What a component sends is collected in a field (`dcSent`, `effects`, `toPeer`).

## Assumptions

- Links of a real data channel are reliable and in order while both ends are up; the callbacks of one message
  run before the next message (`PoolGuarantees.FlushIsStepwise` says what happens otherwise); an
  acknowledgement and the fulfilment of onceClosed are one step.
- `handler.Queue` is a FIFO with an optional handler, which gets what had queued when it is set.
- A session acts on its PoolChannel only within its own session of that channel.
- A socket reports IPv4 endpoints in the usual notation (or ones the codec cannot print), datagrams are shorter
  than 65536 bytes, and, for the statements over whole runs of the TURN server, clients send no IPC_TAG of
  their own (`TurnIpc.OwnTagWins` says what happens otherwise).
- HMAC-SHA1 is any function with twenty-byte results. ipaddr.js reads back what it prints, in one family only.
  JSON reads back what it prints, which is never empty.
- The destructor of a tcp.Connection's counter does not throw. Wrapped functions do not throw synchronously.

## What the code does that its comments do not say

- `src/turn-frontend/messages.ts:191-193` speaks of all twelve bits of a method; printing keeps most methods from
  16 on from being read back (`StunMessages.HeaderSurvives`). All declared methods are below 16.
- One response object answers every ALLOCATE request of a client, and printing it appends a MESSAGE-INTEGRITY
  attribute to it each time, so later replies carry a zero hash before the right one
  (`TurnGuarantees.RepeatedReplyIntegrity`), and all carry the transaction ID of the first request
  (`TurnReplies.EveryRequestGranted`): a later request is answered under its own only if that is the same.
- A SEND indication with an empty payload is dropped: its DATA attribute has no value when the backend reads it
  (`TurnGuarantees.SendReachesPeer`).
- A message that ends with the bare header of an attribute does not read the same after being printed again
  (`StunMessages.ReparsedUnlessBare`).
- A pooled channel whose real channel has died is lent out all the same, and is then not open
  (`Pools.LendDead`, `Pools.LendDeadFromStart`).
- `src/rtc-to-net/rtc-to-net.ts:527-530` expects close() to wait for pending messages; an end that calls close()
  itself loses what it has received and not handled when the other's CLOSE arrives
  (`PoolGuarantees.LastCloseDrops`).
- `src/net/tcp.ts:279-281` equates state CLOSED with the settling of onceClosed; neither implies the other
  (`TcpConnections.SettledNotClosed`, `TcpConnections.ClosedNotSettled`), and
  `TcpConnections.ClosedIsSettledWhen` says when they coincide.
- pause() and resume() have no guard, and after the end of a connection they destroy its socket again
  (`TcpConnections.PauseDestroysAgain`).
- The validity predicates of `src/socks-common/socks-headers.ts` throw on null, so a peer whose first message
  is `null`, or a request with an endpoint of null, leaves an rtc-to-net session that never replies or connects
  (`RtcToNet.StuckWhen`, `ProxyStreams.StuckInEveryRun`); a socks-to-rtc peer sends no such message
  (`ProxyStreams.NeverStuck`).
- A remote address that is not allowed is answered with a failure, but the session is linked until it is stopped
  (`RtcToNet.LinkedThoughNotAllowed`).
- A Caesar transformer without a key turns every byte into zero (`Caesar.Inverse`).
- A mirror socket is used as soon as it is in the map, even while it is being bound, so a second datagram
  is passed on before the first (`ChurnPipes.SecondOvertakes`).

## Model

| member | source | states |
|---|---|---|
| `PoolGuarantees.SessionIsolation` | src/pool/pool.ts:193-240 | In every reachable state, for either end and every session k: what its handlers took is the beginning of what entered its k-th dataFromPeerQueue, that is the beginning of what the peer sent in its own k-th session, and all of it once both have closed session k |
| `PoolGuarantees.SessionConservation` | src/pool/pool.ts:193-219 | Of a session closed at both ends every message sent was handled, in order, except a tail left in the queue of an end that called close() itself |
| `PoolGuarantees.CloseWaitsForDrain` | src/pool/pool.ts:282-287 | Drain before ack: when a close() has fulfilled and the peer did not call close() in that session, the peer has closed it too and has handled everything sent in it |
| `PoolGuarantees.AckMeansConsumed` | src/pool/pool.ts:174-178 | Whenever an acknowledgement is about to be sent, nothing of the session is unhandled or in flight |
| `PoolGuarantees.Handshake` | src/pool/pool.ts:273-298 | Session numbers differ by at most one; each finished session has exactly one CLOSE from each end; an OPEN arrives only in CLOSED, a CLOSE only in OPEN or in CLOSING that this end started, data never in CLOSED: the "redundant" branches are unreachable between conforming peers |
| `PoolGuarantees.InternalDecreases` | src/pool/pool.ts:281-293 | Every delivery, handler run and acknowledgement strictly decreases a measure, in whatever order they are scheduled, so they terminate |
| `PoolGuarantees.QuiescentAgrees` | src/pool/pool.ts:281-293 | When none of these is left: same session number, empty links, both ends OPEN or both CLOSED, everything sent in the session handled |
| `PoolGuarantees.ReachesQuiescence` | src/pool/pool.ts:281-293 | From every state such a point is reached within the measure |
| `PoolGuarantees.CloseCompletes` | src/pool/pool.ts:330-339 | No end stays in CLOSING: an end that is closing in session k is past session k at both ends however the internal steps run out |
| `PoolGuarantees.GoneForGood` | src/pool/pool.ts:187-190 | PERMANENTLY_CLOSED is absorbing: over any run such an end sends nothing more, closes nothing more and starts no session |
| `PoolGuarantees.DeadIsClosed` | src/pool/pool.ts:187-190 | In every reachable state the onceClosed of the session in progress has settled if and only if the real channel is gone |
| `PoolGuarantees.FlushIsStepwise` | src/pool/pool.ts:207-216 | The assumption that callbacks run between messages is needed exactly where two control messages meet: in every reachable state, what an end finds in one synchronous flush leaves it as if the messages had come one by one if and only if at most one of them is a control message |
| `PoolGuarantees.FlushBeyondClose` | src/pool/pool.ts:207-216 | A flush that goes on from a CLOSE into the next session leaves the channel closed: its OPEN and data are lost |
| `PoolGuarantees.CrossingCloseDrops` | src/pool/pool.ts:288-290 | A reachable run in which both ends close and a message that was delivered but not handled is dropped |
| `PoolGuarantees.LastCloseDrops` | src/pool/pool.ts:288-290 | Exactly when that happens: an end that called close() has handled all that the peer sent in the session if and only if its queue is empty when the peer's CLOSE arrives; what is in the queue is what is lost |
| `PoolGuarantees.AllHandledUnlessDropped` | src/pool/pool.ts:193-219 | Of every session closed at both ends: all was handled if and only if nothing was left, which an end that did not call close() always achieves |
| `PoolProtocol.NextKeeps` | src/pool/pool.ts:182-339 | Every action of either end, the failure of the real channel included, keeps the protocol invariant from which the above follows |
| `PoolProtocol.RunKeeps` | src/pool/pool.ts:182-339 | The same over runs of any length |
| `PoolProtocol.HeadOfInbox` | src/pool/pool.ts:252-298 | What the next message to arrive can be, in each state of the receiver |
| `PoolChannels.PoolChannel.Send` | src/pool/pool.ts:225-240 | Accepted exactly in OPEN; a string that is not empty reaches the real channel in its JSON frame, the empty string and buffers bare |
| `PoolChannels.PoolChannel.ReceiveFromPeer` | src/pool/pool.ts:252-271 | The field-level effect of one received message, sends included |
| `PoolChannels.PoolChannel.ReceiveControlMessage` | src/pool/pool.ts:273-298 | The effect of OPEN and CLOSE in each of the four states |
| `PoolChannels.Ignored` | src/pool/pool.ts:252-298 | Unknown control messages, other JSON, malformed strings and redundant OPEN or CLOSE messages change nothing |
| `PoolChannels.PoolChannel.Reset` | src/pool/pool.ts:193-219 | Succeeds exactly in CLOSED, and then renews queue and promises, and nothing else |
| `PoolChannels.PoolChannel.RunCallbacks` | src/pool/pool.ts:207-216 | The state changes that the promises of reset() make |
| `PoolChannels.PoolChannel.OpenForUse` | src/pool/pool.ts:317-328 | Refused exactly when OPEN; otherwise sends the control message "OPEN" and fulfils onceOpened, with no acknowledgement |
| `PoolChannels.PoolChannel.Close` | src/pool/pool.ts:330-339 | Acts exactly in OPEN: CLOSING, and one control message "CLOSE" sent |
| `PoolChannels.PoolChannel.SendAck` | src/pool/pool.ts:285-287 | The acknowledgement and fulfilment of onceClosed, as one step |
| `Pools.PoolAccounting` | src/pool/pool.ts:54-111 | Over every run of requests, closes and deaths of real channels: the pool has no duplicates and is disjoint from the lent channels, a channel that died while lent never returns, and numChannels_ is the largest number ever lent at once as long as none failed or was lost |
| `Pools.LocalPool.OpenDataChannel` | src/pool/pool.ts:65-99 | The oldest pooled channel if there is one, else a new one with the next number; what it has sent grows by exactly one "OPEN", pooled or new; what the caller gets is open if and only if its real channel did not die while pooled, and permanently closed otherwise |
| `Pools.LendAndAnnounce` | src/pool/pool.ts:65-142 | Both pools together: when a channel with a live real channel is lent, reused or new, delivering what that made it send leaves the peer's end open, and announced exactly once |
| `Pools.LocalPool.OnPooledChannelDied` | src/pool/pool.ts:187-190 | A pooled channel whose real channel closes is permanently closed and stays in the pool |
| `Pools.LocalPool.OnLentChannelDied` | src/pool/pool.ts:187-190 | A lent one is permanently closed, and stays lent until it is reported closed |
| `Pools.LendDead` | src/pool/pool.ts:77-84 | After the death of its oldest channel, a pool lends that channel, permanently closed |
| `Pools.LendDeadFromStart` | src/pool/pool.ts:65-110 | A run from an empty pool that ends so |
| `Pools.LocalPool.OnChannelClosed` | src/pool/pool.ts:103-110 | A closed channel goes to the end of the pool; a permanently closed one is dropped |
| `Pools.RemotePool.OnMessage` | src/pool/pool.ts:132-142 | Each session the peer opens is announced once, and a closed channel is renewed and listened to again |
| `StunMessages.HeaderSurvives` | src/turn-frontend/messages.ts:191-268 | The type field carries method and class back if and only if the method is below 16, or is one of a few below 128 in a class that sets bit 4 |
| `StunMessages.HeaderBytes` | src/turn-frontend/messages.ts:225-286 | The twenty bytes of a header as section 6 of RFC 5389 draws them, in literal numbers, for methods below 16 |
| `StunMessages.TypeBitsRead` | src/turn-frontend/messages.ts:180-204 | Which bits of the first two bytes are read as the method and which as the class |
| `StunMessages.AttributeBytes` | src/turn-frontend/messages.ts:355-382 | The bytes of an attribute as section 15 of RFC 5389 draws them: type and length big-endian, value, padding with zeros |
| `StunMessages.AttributesRoundTrip` | src/turn-frontend/messages.ts:355-405 | Parsing printed attributes gives them back, up to empty and absent values, if and only if every type and length fits sixteen bits |
| `StunMessages.MessageRoundTrip` | src/turn-frontend/messages.ts:147-289 | parse(format(m)) = m, up to empty and absent values, if and only if method and class survive the header and every attribute fits |
| `StunMessages.AcceptedInputs` | src/turn-frontend/messages.ts:147-220 | The parser accepts exactly the byte arrays with a right header whose attribute walk leaves no 1 to 3 bytes |
| `StunMessages.ParsesUnlessResidue` | src/turn-frontend/messages.ts:207-212 | The attribute walk on arbitrary bytes: accepted exactly with residue 0, otherwise "too few bytes", and what it yields always fits |
| `StunMessages.ReparseParsed` | src/turn-frontend/messages.ts:147-289 | For arbitrary accepted bytes, parse(format(parse(b))) = parse(b) if and only if the method survives and no value was empty without being absent; up to that difference, if and only if the method survives |
| `StunMessages.ReparsedUnlessBare` | src/turn-frontend/messages.ts:388-405 | The same condition in terms of the bytes: they must not end with the bare header of an attribute that announces a value |
| `StunMessages.BareAttributeChanges` | src/turn-frontend/messages.ts:388-405 | An input that is not read back as it was: an attribute of length five with no value bytes |
| `StunMessages.ReprintParsed` | src/turn-frontend/messages.ts:147-289 | format(parse(b)) = b if and only if the attributes are complete and zero-padded, the length field is right and the type bits are ones the printer uses |
| `StunBuffers.ParseStunMessage` | src/turn-frontend/messages.ts:147-220 | The parser over a shared buffer: same acceptance and error as the specification, attributes as views into the buffer that show exactly its values |
| `StunBuffers.FormatStunMessage` | src/turn-frontend/messages.ts:225-289 | The two-pass printer in place: the sizing pass matches the writing pass, so no attribute ever finds too few bytes; it fails only when the transaction ID itself does not fit |
| `StunBuffers.FormatStunAttribute` | src/turn-frontend/messages.ts:355-382 | One attribute written in place, padding zeroed, nothing else touched; too few bytes reported exactly when they are |
| `StunBuffers.ParseStunAttribute` | src/turn-frontend/messages.ts:388-405 | One attribute read as a view; a value that runs past the end is cut off |
| `StunBuffers.FindFirstAttributeWithType` | src/turn-frontend/messages.ts:556-566 | The first attribute of a type, or none |
| `StunBuffers.ParseXorMappedAddress` | src/turn-frontend/messages.ts:504-519 | Decoding an address rewrites exactly its bytes in the shared buffer |
| `StunBuffers.PatchFrame` | src/turn-frontend/messages.ts:504-519 | Rewriting one value leaves header and every other attribute of the parsed buffer as they were |
| `StunBuffers.MessageViews` | src/turn-frontend/messages.ts:204-212 | The views of an accepted buffer, and that they determine what the parser returns |
| `StunAddresses.XorBit` | src/turn-frontend/messages.ts:511-517 | What exclusive or is: bit k of the result is set if and only if bit k of one argument is and of the other is not |
| `StunAddresses.BitByDivision` | src/turn-frontend/messages.ts:511-517 | Bit k of a number is the remainder by two of its quotient by 2^k |
| `StunAddresses.XorByteFlips` | src/turn-frontend/messages.ts:511-517 | A byte is the XOR of another with a mask if and only if each of its eight bits is the other's, flipped where the mask has one |
| `StunAddresses.FormatXorMasks` | src/turn-frontend/messages.ts:527-550 | What goes out for an endpoint is family, port and the four numbers of its dotted quad, with the bits of 21 12 21 12 a4 42 (hexadecimal) flipped in the last six bytes, and nothing else |
| `StunAddresses.ParseXorUnmasks` | src/turn-frontend/messages.ts:504-519 | With the same bits flipped back, exactly the endpoint with that port and those four numbers is read |
| `StunAddresses.FormatsThreeDots` | src/turn-frontend/messages.ts:441-463 | An address can be printed if and only if it holds three dots |
| `StunAddresses.AddressRoundTrip` | src/turn-frontend/messages.ts:441-550 | An endpoint survives XOR-MAPPED-ADDRESS, masked as above, if and only if it is a canonical dotted quad with a 16-bit port |
| `StunAddresses.ReformatAddress` | src/turn-frontend/messages.ts:504-550 | Printing a parsed address gives back its first eight bytes |
| `StunIntegrity.SignedBytes` | src/turn-frontend/messages.ts:296-348 | What goes out: header and attributes, then 00 08 00 14, then the hash of exactly the header and attributes |
| `StunIntegrity.SignedRoundTrip` | src/turn-frontend/messages.ts:296-348 | With any twenty-byte hash: the embedded hash is that of all but the last 24 bytes, and the result parses to the attributes followed by it, if and only if those survive printing |
| `StunIntegrity.FormatStunMessageWithIntegrity` | src/turn-frontend/messages.ts:296-310 | Printing with a zero hash and copying the hash over it, in place; the message object passed in is left with the attribute appended, its value still zero |
| `Text.EndpointKeyInjective` | src/turn-frontend/turn-frontend.ts:224 | address + ":" + port determines the endpoint for all address strings, colons included, so distinct clients never share a tag |
| `Text.ParseIntStops` | src/turn-frontend/messages.ts:447-461 | parseInt reads leading digits and ignores what follows |
| `Text.ParseIntSkips` | src/turn-frontend/messages.ts:447-461 | It skips white space, and a plus sign |
| `Text.HexMore` | src/turn-frontend/messages.ts:447-461 | After 0x it reads hexadecimal digits, each with sixteen times the weight of the next, up to the first other character |
| `TurnGuarantees.OneSocketPerClient` | src/turn-backend/turn-backend.ts:162-205 | Over every run of any number of clients, frontend and backend: two relay sockets never belong to one client |
| `TurnGuarantees.OneRelayedAddress` | src/turn-frontend/turn-frontend.ts:222-252 | Any two successful ALLOCATE replies ever sent to one client carry the same relayed address |
| `TurnGuarantees.OnlyToItsClient` | src/turn-frontend/turn-frontend.ts:284-331 | Whatever is sent on account of a client or of its relay socket goes to that client, and every ALLOCATE response finds a registered callback |
| `TurnGuarantees.InFlightReadsBack` | src/turn-frontend/turn-frontend.ts:268-282 | Every IPC message in flight, in either direction, would be taken for the client it was sent for |
| `TurnGuarantees.StepKeeps` | src/turn-frontend/turn-frontend.ts:93-331 | Every event keeps the invariant that ties callbacks, promises, allocations, messages in flight and sockets together |
| `TurnGuarantees.RelayDataReachesClient` | src/turn-backend/turn-backend.ts:185-200 | A datagram at a bound relay socket becomes exactly one indication, and that reaches the client; it still names its sender and holds its payload after the frontend decoded the tag in place, with the first twelve of the twenty random bytes as transaction ID |
| `TurnGuarantees.SendReachesPeer` | src/turn-backend/turn-backend.ts:104-145 | A SEND indication of a client with a bound socket leaves through that socket alone, to the peer and with the payload that the client named, if and only if the payload is not empty; otherwise it is dropped |
| `TurnGuarantees.SendWaitsForSocket` | src/turn-backend/turn-backend.ts:124-135 | While the socket is being bound nothing leaves; the binding sends what waited before and then the indication, if and only if the payload is not empty and binding succeeded |
| `TurnGuarantees.SendWithoutSocket` | src/turn-backend/turn-backend.ts:124-127 | Without an allocation, or after a failed one, nothing leaves |
| `TurnRelays.LeavesInOrder` | src/turn-backend/turn-backend.ts:104-145 | Over every run, whatever other clients do: what leaves through a client's relay socket is what that client's own SEND indications with a payload named, in order and without gaps |
| `TurnRelays.BoundLosesNothing` | src/turn-backend/turn-backend.ts:124-135 | From the moment the socket is bound nothing is lost: what is asked for has left, or is on its way |
| `TurnRelays.RunMoves` | src/turn-backend/turn-backend.ts:48-145 | From any state of the invariant: what is under way and then asked for is lost, leaves or stays under way, in that order |
| `TurnGuarantees.RepeatedReplyIntegrity` | src/turn-frontend/turn-frontend.ts:226-249 | The (n+1)-th reply made from the shared response object has the hash of all but its last 24 bytes in its first MESSAGE-INTEGRITY attribute if and only if n = 0, or the hash is all zeros |
| `TurnFrontend.Frontend.SendReplies` | src/turn-frontend/turn-frontend.ts:230-236 | All who waited are answered from one object, each reply made from it as the one before left it |
| `TurnReplies.OneReplyEach` | src/turn-frontend/turn-frontend.ts:222-250 | Conservation over every run: once the first ALLOCATE response received for a client is a success, the successful datagrams sent to it are exactly those made from that response, one for each request with a user name that was forwarded, however requests and responses interleave; before that, or when that response is a failure, there is none |
| `TurnReplies.AnsweredInOrder` | src/turn-backend/turn-backend.ts:60-103 | Over every run: the requests of a client, in order, are those answered, those that wait for the socket and those on their way; each answer has its own request's transaction ID and says what became of the socket: its address, the client's and 600 seconds, or failure. Of a socket whose address cannot be printed nothing is heard |
| `TurnReplies.EveryRequestGranted` | src/turn-frontend/turn-frontend.ts:222-250 | When nothing is in flight and the client's socket is bound, every forwarded request has its success, with the socket's address, the client's and 600 seconds, all under the transaction ID of the first request |
| `TurnReplies.NoneGranted` | src/turn-frontend/turn-frontend.ts:233-244 | When the socket could not be bound, no request has one |
| `TurnReplies.FirstRequest` | src/turn-frontend/turn-frontend.ts:194-250 | At the handlers: a first request sends the client nothing, and the success for it makes one datagram, with the attributes of that response and its hash |
| `TurnReplies.RefreshAnswer` | src/turn-frontend/turn-frontend.ts:165-176 | A REFRESH request is answered with one datagram, given byte for byte: success, the same transaction ID, 600 seconds, and the hash |
| `TurnReplies.PermissionAnswer` | src/turn-frontend/turn-frontend.ts:147-155 | A CREATE_PERMISSION request likewise, without attributes |
| `TurnReplies.AllocateRefused` | src/turn-frontend/turn-frontend.ts:199-221 | An ALLOCATE request without a user name is answered with one failure: error 401, nonce and realm |
| `TurnReplies.StrayData` | src/turn-frontend/turn-frontend.ts:127-138 | What is no message, or of no supported method, gets no answer and changes nothing |
| `TurnReplies.StrayIpc` | src/turn-frontend/turn-frontend.ts:284-331 | The same for what arrives over IPC, at either half |
| `TurnReplies.TraceKeeps` | src/turn-frontend/turn-frontend.ts:93-331 | Every event keeps the accounts of requests, answers and replies of every client |
| `TurnIpc.EmittedDecodes` | src/turn-frontend/turn-frontend.ts:268-311 | The receiver of an IPC message takes it for the client that the sender named, and reads the message that was sent, for every untagged message |
| `TurnIpc.OwnTagWins` | src/turn-frontend/turn-frontend.ts:268-311 | For a message that already holds an IPC_TAG: it reaches the right client if and only if its first tag names that client |
| `TurnIpc.AfterDecodeParses` | src/turn-frontend/turn-frontend.ts:284-325 | Decoding the tag in place leaves a buffer that parses to the message as decoded |
| `TurnIpc.TwelveSuffice` | src/turn-frontend/messages.ts:277-286 | Bytes of a transaction ID beyond twelve are overwritten by attributes and change nothing |
| `TurnIpc.DecodeIpcInPlace` | src/turn-frontend/turn-frontend.ts:284-311 | The common start of both handleIpc functions over the received buffer: its result, and the bytes afterwards, which are rewritten even when the decoded tag is rejected |
| `TurnFrontend.Frontend.OnDataFromClient` | src/turn-frontend/turn-frontend.ts:93-138 | The effect on promises_ and callbacks_, and everything sent, for any datagram |
| `TurnFrontend.Frontend.HandleAllocateRequest` | src/turn-frontend/turn-frontend.ts:194-250 | 401 without a user name; otherwise registration on first contact, the forwarded request, and the shared promise; what this amounts to for the client is stated by `TurnReplies.OneReplyEach` and `TurnReplies.AllocateRefused` |
| `TurnFrontend.Frontend.HandleIpc` | src/turn-frontend/turn-frontend.ts:284-331 | ALLOCATE responses settle the tag's promise once and answer all who wait; DATA is forwarded as decoded; a missing callback is an explicit outcome |
| `TurnBackend.Backend.HandleIpc` | src/turn-backend/turn-backend.ts:48-145 | ALLOCATE makes at most one allocation per tag and answers when it is bound; SEND without allocation or with a malformed address is dropped |
| `TurnBackend.Backend.OnSocketBound` | src/turn-backend/turn-backend.ts:68-103 | All requests that waited for the binding are answered, in order, with its outcome |
| `TurnBackend.Backend.OnDatagram` | src/turn-backend/turn-backend.ts:185-200 | A datagram at a relay socket becomes a DATA indication for its client |
| `ProxyStreams.StreamsAgree` | src/rtc-to-net/rtc-to-net.ts:489-558 | End to end over the channel-reuse protocol, in every run and session, both ways: what was written to the remote socket is the beginning of what the client sent after its two handshake buffers, and what was forwarded to the client is the beginning of what came from the remote socket |
| `ProxyStreams.RightEndpoint` | src/rtc-to-net/rtc-to-net.ts:393-441 | The endpoint connected to is the one that the client's second buffer asked for, with a CONNECT, and is not a refused address |
| `ProxyStreams.LinkedOnlyIfConnected` | src/socks-to-rtc/socks-to-rtc.ts:410-456 | The client's side becomes a stream only if the remote socket has connected and SUCCEEDED was the reply |
| `ProxyStreams.ClientIsTold` | src/socks-to-rtc/socks-to-rtc.ts:387-456 | In every run and session the SOCKS client is sent 05 00, then one response: rtc-to-net's reply, or a general failure when there is none that can be read; it has been sent when the session is linked, and says success if and only if the session is to be linked |
| `ProxyStreams.SuccessReadsBack` | src/socks-to-rtc/socks-to-rtc.ts:451-455 | What the client of a linked session reads in that response is rtc-to-net's reply, bound endpoint included, if and only if the endpoint is carriable |
| `ProxyStreams.FailureReadsBack` | src/socks-to-rtc/socks-to-rtc.ts:442-455 | When the session is not to be linked, it reads a code other than success |
| `ProxyConversations.Conversation` | src/socks-to-rtc/socks-to-rtc.ts:299-330 | Every client that offers no authentication and asks with CONNECT for an endpoint that is not refused can be served: a run links its session at both ends, to that endpoint, and tells it the bound endpoint |
| `ProxyConversations.QuietStreamsComplete` | src/rtc-to-net/rtc-to-net.ts:489-558 | Whenever both ends are linked and open with nothing under way, all that the client sent after its handshake has been written to the remote socket, and all that came from there to the client |
| `ProxyConversations.FailedGivesBack` | src/socks-to-rtc/socks-to-rtc.ts:341-368 | In every run a session that has failed, at either end, closes its channel, with one CLOSE, when its resources are freed |
| `ProxyConversations.StoppedGivesBack` | src/rtc-to-net/rtc-to-net.ts:365-387 | So does one that is asked to stop |
| `ProxyStreams.OrderlyCloseDelivers` | src/rtc-to-net/rtc-to-net.ts:374-386 | When the client's side closes and rtc-to-net did not close itself, all that the client's channel accepted was written to the remote socket |
| `ProxyStreams.OrderlyServerCloseDelivers` | src/socks-to-rtc/socks-to-rtc.ts:358-368 | When the server's side closes and socks-to-rtc did not close itself, all that rtc-to-net's channel accepted was sent to the client |
| `ProxyStreams.StuckForGood` | src/rtc-to-net/rtc-to-net.ts:393-429 | After a first message on which the validity check throws, no sequence of events ever makes the session reply, connect or handle another message |
| `ProxyStreams.StuckInEveryRun` | src/rtc-to-net/rtc-to-net.ts:393-429 | The same within the channel protocol, against a peer that opens, sends, closes and handles as it likes: once session k is stuck, no continuation of the run changes that |
| `ProxyStreams.StuckReached` | src/rtc-to-net/rtc-to-net.ts:393-429 | Such a run for every message on which the check throws, null among them: the peer opens the channel and sends it |
| `ProxyStreams.NeverStuck` | src/socks-to-rtc/socks-to-rtc.ts:410-418 | A socks-to-rtc peer never causes it |
| `RtcToNet.StuckWhen` | src/rtc-to-net/rtc-to-net.ts:393-429 | Exactly which first messages do: non-empty strings that parse to null, or to an object with a valid command and an endpoint of null |
| `RtcToNet.NullSticks` | src/rtc-to-net/rtc-to-net.ts:393-429 | The message null is one: no reply and no stop |
| `RtcToNet.LinkedThoughNotAllowed` | src/rtc-to-net/rtc-to-net.ts:343-352 | A connection is linked whether or not its remote address is allowed; the reply holds the bound endpoint and is SUCCEEDED or, if the address is not allowed, FAILURE, and data passes both ways all the same |
| `RtcToNet.ConnectsOn` | src/rtc-to-net/rtc-to-net.ts:393-441 | A valid request leads to a connection if and only if it is a CONNECT for an address that is not refused |
| `RtcToNet.FirstReply` | src/rtc-to-net/rtc-to-net.ts:393-456 | Every first message either leads to a connection, sticks, or is answered at once and stops the session: with 2 for a CONNECT to a refused address, and 7 for all else |
| `RtcToNet.ConnectFailureReported` | src/rtc-to-net/rtc-to-net.ts:330-336 | A connection that fails is reported with its code and no endpoint, and stops the session |
| `SocksMessages.RequestThrows` | src/socks-common/socks-headers.ts:68-100 | The check of a request throws if and only if it meets null where it looks for a property |
| `ProxyStreams.BytesAccounted` | src/rtc-to-net/rtc-to-net.ts:306-309 | At any time, for both counter pairs: bytes received are those forwarded, and equal sent + pending + failed |
| `ProxyStreams.StepKeeps` | src/rtc-to-net/rtc-to-net.ts:319-362 | Every event at either session or in the channel keeps the match between the sessions' logs and the channel's |
| `SocksToRtc.Session.HandleClientData` | src/socks-to-rtc/socks-to-rtc.ts:387-418 | Each phase's reaction to a buffer from the client: authentication, request, stream, or queueing |
| `SocksToRtc.Session.HandleReplyData` | src/socks-to-rtc/socks-to-rtc.ts:420-456 | The reply of the peer, or a generic failure for anything that is not a valid one; later buffers are forwarded, strings rejected; what the client is told in the end is stated by `ProxyStreams.ClientIsTold` |
| `SocksToRtc.Session.HandleReplyWritten` | src/socks-to-rtc/socks-to-rtc.ts:304-330 | The link to the channel once a success has been written, with what the client sent meanwhile; failure otherwise |
| `SocksToRtc.ClientDataKeeps` | src/socks-to-rtc/socks-to-rtc.ts:387-456 | What was passed to the channel is always the request of the second buffer followed by the stream |
| `SocksToRtc.RequestDecides` | src/socks-to-rtc/socks-to-rtc.ts:410-456 | A request that can be read and sent awaits the peer's reply; any other second buffer is answered with a general failure |
| `SocksToRtc.ReplyWrittenDecides` | src/socks-to-rtc/socks-to-rtc.ts:304-330 | Once the answer has been written the session is linked if it was a success, and what waited follows; otherwise it stops |
| `SocksToRtc.SuccessIsSaid` | src/socks-to-rtc/socks-to-rtc.ts:426-448 | Only a message that parses to the JSON form of a success with an endpoint in range is taken for a success; what is not a valid response counts as a general failure |
| `RtcToNet.Session.HandlePeerData` | src/rtc-to-net/rtc-to-net.ts:393-429 | The first message from the peer: refused, unusable or connected to; later ones forwarded and counted |
| `RtcToNet.Session.HandleConnected` | src/rtc-to-net/rtc-to-net.ts:343-362 | The reply, and the link, with the data that had arrived on the socket |
| `RtcToNet.Session.HandleRemoteData` | src/rtc-to-net/rtc-to-net.ts:512-524 | Data from the remote socket is counted and passed on, or queued before the link |
| `RtcToNet.SettledBalances` | src/rtc-to-net/rtc-to-net.ts:514-544 | Sends settle in any order without upsetting the balance of the counters |
| `Counters.DestructorTiming` | src/net/counter.ts:21-57 | For every history of starts, completions and at most one discard, once all calls have completed: the destructor has run if and only if the discard has come, and exactly once if and only if no call started after it ran |
| `Counters.DestroysWhenDrained` | src/net/counter.ts:47-57 | The destructor runs at exactly the events that leave no call outstanding, with the discard done; never while a call is outstanding |
| `Counters.NotTooEarly` | src/net/counter.ts:47-57 | Until then it has not run and onceDestroyed is unsettled |
| `Counters.Counter.AfterCall` | src/net/counter.ts:33-57 | Completion and discard: the decrement, and the destructor below zero |
| `TcpConnections.DestroyedExactlyOnce` | src/net/tcp.ts:397-457 | A closed connection whose calls have settled has destroyed its socket, exactly once if and only if no event called the destroyed socket |
| `TcpConnections.NotWhileOutstanding` | src/net/tcp.ts:397-439 | The socket is not destroyed while a call on it is outstanding, short of such misuse |
| `TcpConnections.OnceClosedMeans` | src/net/tcp.ts:397-431 | onceClosed fulfils if and only if connecting failed or the socket was destroyed, and with which reason |
| `TcpConnections.ClosedAs` | src/net/tcp.ts:417-427 | Unless connecting failed, the kind is WE_CLOSED_IT if and only if the first disconnect notification says SUCCESS, REMOTELY_CLOSED if and only if it says CONNECTION_CLOSED |
| `TcpConnections.OutstandingMeans` | src/net/tcp.ts:333-457 | After every run the calls outstanding are the connecting, every write, every pause and close, less those that have settled |
| `TcpConnections.DisconnectStops` | src/net/tcp.ts:406-413 | After a disconnect notification nothing is written, and what had been queued is gone |
| `TcpConnections.ClosedIsSettledWhen` | src/net/tcp.ts:279-284 | After every run, state CLOSED and the settling of onceClosed coincide if and only if, in CLOSED, connecting failed, no call is left or the connection was misused, and elsewhere, connecting did not fail |
| `TcpConnections.ClosedIsSettledUnlessMisused` | src/net/tcp.ts:279-284 | Without misuse that condition is: in CLOSED, connecting failed or no call is left; elsewhere, connecting did not fail |
| `TcpConnections.SettledNotClosed` | src/net/tcp.ts:379-382 | A run after which onceClosed has fulfilled outside CLOSED |
| `TcpConnections.ClosedNotSettled` | src/net/tcp.ts:397-431 | A run after which the state is CLOSED and onceClosed has not fulfilled |
| `TcpConnections.DestroyedMeans` | src/net/tcp.ts:397-457 | The socket has been destroyed if and only if the connection is closed, and no call is left or it was misused |
| `TcpConnections.PauseDestroysAgain` | src/net/tcp.ts:433-439 | After every run that leaves the socket destroyed with no call outstanding, a pause destroys it once more |
| `TcpConnections.WrittenThenQueued` | src/net/tcp.ts:366-378 | Until it closes, what was written to the socket followed by what waits is all that was sent, in order |
| `TcpConnections.StepFollows` | src/net/tcp.ts:293-457 | Every event of a connection extends the history of its counter properly; in particular only one discard ever happens |
| `TcpConnections.Connection.OnDisconnect` | src/net/tcp.ts:397-431 | Acts only when not CLOSED: the discard, the state, the queue dropped, the reason kept |
| `TcpConnections.Connection.OnConnectDone` | src/net/tcp.ts:340-381 | Completion of the connecting call: the state unless CLOSED, and the queue written out, each write wrapped |
| `SocksHeaders.SelfDelimiting` | src/socks-common/socks-headers.ts:318-438 | With any trailing bytes: the destination read is the one composed, with its exact length, if and only if its address is as the library prints it, or a name of at most 255 single-byte characters, and its port has 16 bits |
| `SocksHeaders.Recomposed` | src/socks-common/socks-headers.ts:318-408 | Composing what was interpreted from arbitrary bytes gives those bytes, zeros standing for missing ones |
| `SocksHeaders.WordsOfBytes` | src/socks-common/socks-headers.ts:367-379 | An IPv6 address read as words gives back its bytes |
| `SocksHeaders.EndpointOnTheWire` | src/socks-common/socks-headers.ts:381-438 | The bytes of an endpoint as section 5 of RFC 1928 lays them out, in literal numbers, for each kind of address |
| `SocksMessages.RequestRoundTrip` | src/socks-common/socks-headers.ts:219-270 | A request survives if and only if it is CONNECT or UDP_ASSOCIATE for a carriable endpoint and makes up nine bytes, which names of fewer than two characters do not on their own |
| `SocksMessages.AcceptedRequests` | src/socks-common/socks-headers.ts:223-259 | Exactly which buffers are accepted, and as what; the final validity check never fails |
| `SocksMessages.ResponseRoundTrip` | src/socks-common/socks-headers.ts:443-483 | A response survives, a missing endpoint as 0.0.0.0:0, if and only if its code is defined and its endpoint carriable |
| `SocksMessages.AcceptedResponses` | src/socks-common/socks-headers.ts:461-483 | Exactly which response buffers are accepted; only the reply code can make the object invalid |
| `SocksMessages.MessageOnTheWire` | src/socks-common/socks-headers.ts:261-270 | The bytes of a request and of a response about an IPv4 endpoint, as sections 4 and 6 of RFC 1928 lay them out |
| `SocksMessages.AcceptedDatagrams` | src/socks-common/socks-headers.ts:282-302 | Exactly which UDP messages are accepted, and as what |
| `SocksMessages.AcceptedHandshakes` | src/socks-common/socks-headers.ts:149-170 | A handshake is accepted if and only if a method that it counts, and that is there, is 0 |
| `SocksMessages.UdpPayload` | src/socks-common/socks-headers.ts:282-302 | The payload of a UDP message is recovered whole if and only if it is no fragment, its endpoint is carriable and it has ten bytes |
| `SocksMessages.AuthRoundTrip` | src/socks-common/socks-headers.ts:149-182 | An offer of methods is understood if and only if it includes "no authentication" and counts at most 255 |
| `SocksMessages.ValidRequests` | src/socks-common/socks-headers.ts:68-100 | The valid request objects are exactly the JSON forms of requests in range: nothing missing, nothing extra |
| `SocksMessages.ValidSuccesses` | src/socks-common/socks-headers.ts:107-126 | The valid successes are exactly the JSON forms of successes with an endpoint in range |
| `SocksMessages.ResponseIsValid` | src/socks-common/socks-headers.ts:107-126 | Which responses pass the validity check as JSON, and that they are then read back |
| `SocksBuffers.InterpretDestinationFrom` | src/socks-common/socks-headers.ts:318-355 | The reader over a subarray, with missing bytes read as zero |
| `SocksBuffers.ComposeDestinationBuffer` | src/socks-common/socks-headers.ts:381-408 | The writer in place: stores past the end are lost, block copies past the end fail |
| `SocksBuffers.InterpretRequestBuffer` | src/socks-common/socks-headers.ts:219-259 | The reader of requests over a buffer |
| `SocksBuffers.ComposeRequestBuffer` | src/socks-common/socks-headers.ts:261-270 | The writer of requests |
| `SocksBuffers.ComposeResponseBuffer` | src/socks-common/socks-headers.ts:443-459 | The writer of responses, with 0.0.0.0:0 for a missing endpoint |
| `SocksBuffers.InterpretAuthHandshakeBuffer` | src/socks-common/socks-headers.ts:149-170 | The loop over the offered methods |
| `SocksBuffers.InterpretUdpMessageBuffer` | src/socks-common/socks-headers.ts:282-302 | The reader of UDP messages over a buffer |
| `Candidates.FilteredLines` | src/churn/churn.ts:35-39 | The lines of a filtered description are its lines that do not start with "a=candidate", in order, or one empty line when none is left |
| `Candidates.FilterUnchanged` | src/churn/churn.ts:35-39 | A description is unchanged if and only if it has no such line |
| `Candidates.FilterTwice` | src/churn/churn.ts:35-39 | Filtering is idempotent |
| `Candidates.SetTokens` | src/churn/churn.ts:73-79 | Setting an endpoint changes exactly the two tokens if and only if the address holds no space |
| `Candidates.SetThenExtract` | src/churn/churn.ts:58-79 | What was set is what is extracted if and only if the address holds no space |
| `Candidates.SetTwice` | src/churn/churn.ts:73-79 | A second endpoint overrides the first without trace if and only if the first address holds no space |
| `Candidates.ExtractThenSet` | src/churn/churn.ts:58-79 | Setting what was extracted, negative ports included, restores the line if and only if its port was written as the number it is read as prints |
| `Candidates.HostLine` | src/churn/churn.ts:41-66 | From a line with given tokens: which error, or that the endpoint extracted is made of tokens 4 and 5 |
| `Candidates.HostJudged` | src/churn/churn.ts:99-173 | A UDP host candidate with an IPv4 address maps its endpoint to itself, public if and only if unicast |
| `Candidates.ReflexiveJudged` | src/churn/churn.ts:99-173 | A server-reflexive one maps the endpoint after raddr and rport, as the internal one, to the endpoint in front |
| `Candidates.IgnoredJudged` | src/churn/churn.ts:99-173 | Other protocols, other types and IPv6 are ignored |
| `Candidates.SelectPublicAddress` | src/churn/churn.ts:99-173 | The first candidate of the best available kind (public host, server-reflexive, private host), and otherwise the error of the first malformed line, or that there is none |
| `Candidates.SetCandidateLineEndpoint` | src/churn/churn.ts:73-79 | The update of the two array cells |
| `ChurnPipes.Transparent` | src/churn-pipe/churn-pipe.ts:158-225 | Any number of keyed pipes on a network that loses, repeats and reorders: whatever is passed to a mirror socket for the browser is byte for byte what some browser sent to this pipe through the pipe whose endpoint the mirror stands for |
| `ChurnPipes.OneMirrorPerEndpoint` | src/churn-pipe/churn-pipe.ts:158-177 | However datagrams and bindRemote calls interleave, with any transformer, one mirror socket per endpoint |
| `ChurnPipes.ArrivalDelivered` | src/churn-pipe/churn-pipe.ts:212-225 | An arriving datagram is at once passed, restored, to the sendTo of its mirror socket when that exists; the socket is bound by then if and only if its binding has succeeded |
| `ChurnPipes.SentAndDelivered` | src/churn-pipe/churn-pipe.ts:197-225 | From browser to browser: what is passed to a bound mirror socket leaves as one datagram for its endpoint, obfuscated, and its arrival at a pipe with a mirror socket for the sender passes it on once, as it was |
| `ChurnPipes.RemoteBound` | src/churn-pipe/churn-pipe.ts:158-206 | bindRemote provides for a mirror socket that passes on what it receives once it is bound |
| `ChurnPipes.Configured` | src/churn-pipe/churn-pipe.ts:105-114 | What the transformers do: nothing, or a shift of every byte by the key, or, without a key, zeros; and what is rejected |
| `ChurnPipes.SecondOvertakes` | src/churn-pipe/churn-pipe.ts:158-177 | Two datagrams of one endpoint that arrive one after the other are passed to its mirror socket in order if and only if that existed before; otherwise the second is passed first, to a socket not bound yet, and the first to the bound socket, or never |
| `ChurnPipes.Pipe.HandleIncomingData` | src/churn-pipe/churn-pipe.ts:212-225 | Restores in place, then delivers or makes the mirror socket |
| `ChurnPipes.Pipe.HandleMirrorData` | src/churn-pipe/churn-pipe.ts:197-206 | Obfuscates in place and sends to the remote endpoint of the mirror |
| `ChurnPipes.Pipe.SetTransformer` | src/churn-pipe/churn-pipe.ts:105-114 | Which transformers and keys are accepted; on failure the old one stays |
| `Caesar.Inverse` | src/simple-transformers/caesar.ts:37-72 | transform and restore undo each other on every buffer if and only if a key has been set, or the buffer is all zeros |
| `Caesar.Shifted` | src/simple-transformers/caesar.ts:37-49 | With a key every byte is moved up by it, around at 256 |
| `Caesar.CaesarCipher.MapInPlace` | src/simple-transformers/caesar.ts:51-58 | The loop that maps a buffer in place |
| `Caesar.CaesarCipher.SetKey` | src/simple-transformers/caesar.ts:26-32 | Accepted exactly for one byte |

## Left out

- Sockets, WebRTC, ICE negotiation, timers, retries and logging: events or results of any value.
- Several received messages handled in one synchronous flush: outside the protocol's steps, except for
  `PoolGuarantees.FlushIsStepwise`.
- Failure of the real channel's own send(): a message sent while both ends are up arrives.
- Overflow listeners and the moments at which sessions pause and resume a socket: they move no data; their calls
  are the event PauseOrResume of a connection.
- The byte queues that socks-to-rtc feeds for statistics, snapshots, labels and toString.
- Permissions and channels of TURN, and the expiry of lifetimes, which the server does not implement.
- The mapping from socket errors to reply codes, and the policy on non-unicast addresses: parameters.
- Numbers in JSON that are not integers.
- Candidates.ExtractThenSet: integers are exact, so it does not model that parseInt rounds numbers above 2^53, nor
  that those of 10^21 and more print in exponent form; the same holds of every port and of parseInt elsewhere.
- Characters above U+FFFF, which are two units of a JavaScript string.
- tcp.Server, the UDP relay and client, the echo, benchmark and sample programs, and PassThrough beyond the identity.
- churn's Connection: it passes promises between components modelled here.
- TurnReplies.AnsweredInOrder: the lookup of a relay socket's address before each answer is part of the event that
  binds it, so lookups that fail or overtake each other are not captured.
- ChurnPipes.Pipe.HandleIncomingData: a buffer that waits for its mirror socket is kept as a copy, so aliasing of it
  with the socket's buffer is not captured.
- SocksToRtc.Session.HandleClientData: buffers are values, as the session only passes them on.
- Candidates.SelectPublicAddress: ipaddr.process is a parameter that says IPv6, IPv4 and unicast, or throws.
