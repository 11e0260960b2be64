# Minecraft server status query (Afkbot `utils/server-status.js`)

A Dafny model of the client side of the Minecraft Java Edition "Server List
Ping" status exchange:

- **VarInt codec** (`varint.dfy`). `writeVarInt` emits 7 bits per byte,
  least-significant group first, with the continuation bit 0x80 on every
  byte but the last. `readVarInt` rebuilds the value with JavaScript's
  32-bit `|=` and `<<` and throws "VarInt too long" in two cases: it runs off
  the buffer, or it has read more than five bytes. Each has a loop method
  proved against a specification function. The decoder also has a closed
  form: the first byte without the continuation bit ends the value, and the
  groups are read as a two's-complement int32.
- **Packets** (`packets.dfy`). `createHandshakePacket` builds
  `VarInt(0) VarInt(760) VarInt(|host|) host port(2 bytes, big-endian) VarInt(nextState)`
  and prefixes it with its length. The status request is the two bytes
  `01 00`. Every field is proved to read back from the packet.
- **Response parser** (`status_response.dfy`). `parseStatusResponse` reads
  the packet length, the packet id and the JSON length. It returns null in
  these cases:
  - the buffer is shorter than 5 bytes;
  - the id is not 0;
  - the body has not fully arrived;
  - a read throws;
  - `JSON.parse` rejects the body;
  - the body parses to the JSON value `null`.

  Otherwise it builds the status record with the `||` defaults. The framing
  is `ReadJsonPayload`, which reads the packet length and hands the offset
  on to `ReadFromPacketId` and `ReadFromJsonLength`, one method per field.
  The JSON stage is `ParseStatusResponse`.
- **Session** (`session.dfy`). `getServerStatus` becomes an event machine
  over connect, data, error, timeout and close callbacks. A pure `Step`
  function specifies it, for either `close` handler: `AsWritten`, the one
  at lines 57-59, which clears the timer unconditionally, or `Corrected`,
  which leaves it running while the query is pending (see Findings). The
  properties that hold for the source are stated for both; the ones that
  need the correction are stated for `Corrected` only. The class
  `StatusQuery` holds the closure's variables, and each of its handler
  methods is proved to perform `Step` with the corrected handler.
- **Promise** (`promise.dfy`). `resolve` has an effect only the first time it is called.
- **Ping** (`ping.dfy`). `pingServer` becomes the same kind of one-shot
  machine: true on connect, false on an error or a timeout.

Three statements of utils/server-status.js (lines 72, 81 and 135) share a
text line with the comment before them. They are modelled as live code: the
protocol version and next state are part of the handshake, and line 136
closes the length check of line 135.

## Model

| member | source | states |
|---|---|---|
| VarInt.ToUint32 | utils/server-status.js:90 | The unsigned 32-bit conversion behind `>>>` is below 2^32 and leaves values already in range unchanged |
| VarInt.ToInt32Range | utils/server-status.js:104 | The int32 that the bitwise OR-assignment and left shift produce lies in [-2^31, 2^31). It equals the sum below 2^31 and the sum minus 2^32 in [2^31, 2^32) |
| VarInt.VarIntBytes | utils/server-status.js:88-92 | `writeVarInt` always emits at least one byte |
| VarInt.WriteVarInt | utils/server-status.js:88-92 | The push-and-shift loop returns exactly the encoding VarIntBytes |
| VarInt.VarIntBytesLength | utils/server-status.js:88-92 | An unsigned 32-bit value below 128^(n+1) takes at most n+1 bytes |
| VarInt.VarIntBytesValue | utils/server-status.js:88-92 | The last byte has no continuation bit, the 7-bit groups spell the value, and the length is the least number of groups that holds it |
| VarInt.VarIntBytesShape | utils/server-status.js:88-92 | For 0 <= v < 2^32 the encoding has 1 to 5 bytes, all but the last at least 0x80 and the last below 0x80, and its groups spell v |
| VarInt.VarIntBytesExamples | utils/server-status.js:88-92 | 0, 127, 128, 300 and 760 encode as 00, 7F, 80 01, AC 02 and F8 05 |
| VarInt.TerminatorFrom | utils/server-status.js:99-109 | The scan for the ending byte stops within the first five bytes and inside the buffer |
| VarInt.ReadVarInt | utils/server-status.js:94-112 | The do-while loop yields the value and byte count of DecodeVarInt, or fails with "VarInt too long" exactly where it does |
| VarInt.DecodeFromClosed | utils/server-status.js:94-112 | The loop-shaped decoder, from any partially read state, agrees with the closed-form decoder |
| VarInt.DecodeVarIntClosed | utils/server-status.js:94-112 | `readVarInt` equals the closed form: read up to the first byte without 0x80, then reinterpret the groups as int32 |
| VarInt.TerminatorFromSound | utils/server-status.js:99-109 | Where the scan stops, every earlier byte has the continuation bit and the last byte does not |
| VarInt.TerminatorFromAt | utils/server-status.js:99-109 | Continuation bytes followed by a byte without 0x80 make the scan stop exactly there |
| VarInt.TerminatorFromNone | utils/server-status.js:99-109 | The scan fails exactly when every available byte among the first five has the continuation bit |
| VarInt.DecodeVarIntShape | utils/server-status.js:94-112 | A successful read takes 1 to 5 bytes inside the buffer, continuation bytes then an ending byte, and its value is the int32 of their groups |
| VarInt.DecodeVarIntFailsIff | utils/server-status.js:99-109 | The read fails, always with "VarInt too long", if and only if no ending byte occurs before the buffer ends or among the first five bytes |
| VarInt.DecodeVarIntPastEnd | utils/server-status.js:99-101 | Reading at or past the end of the buffer fails |
| VarInt.DecodeVarIntSixContinuationBytes | utils/server-status.js:107-109 | Six bytes that all carry the continuation bit are rejected |
| VarInt.DecodeVarIntWindow | utils/server-status.js:94-112 | A successful read depends only on the bytes it consumed, so any buffer that agrees on them reads the same |
| VarInt.VarIntAt | utils/server-status.js:88-112 | An encoding of v < 2^32 found at an offset reads back as v, or as v - 2^32 from 2^31 on, and consumes exactly its length |
| VarInt.VarIntRoundTrip | utils/server-status.js:88-112 | Reading `writeVarInt(v)` placed after any prefix and before any rest, at the prefix's length, gives the int32 of v and the encoding's length, whatever the prefix and rest |
| VarInt.VarIntTruncated | utils/server-status.js:99-101 | Every proper prefix of an encoding fails to read |
| Packets.PortBytes | utils/server-status.js:79 | `writeUInt16BE` gives two bytes, high byte first, that spell the port |
| Packets.CreateHandshakePacket | utils/server-status.js:63-86 | The successive concatenations build the length-prefixed handshake with id 0, protocol 760, host length and bytes, port and next state |
| Packets.HandshakeBodyLength | utils/server-status.js:63-86 | The handshake body is between 7 and 15 bytes longer than the host |
| Packets.HandshakeFraming | utils/server-status.js:83-85 | The first VarInt of the handshake reads back as the number of bytes after it |
| Packets.HandshakeSlices | utils/server-status.js:63-86 | Each of the seven fields lies at its offset in the packet, and the next state ends it |
| Packets.HandshakeHeaderFields | utils/server-status.js:69-72 | After the length prefix, the packet id reads back as 0 in one byte and the protocol version as 760 in two |
| Packets.HandshakeHostField | utils/server-status.js:74-76 | The host length reads back, followed by the host bytes |
| Packets.HandshakeTailFields | utils/server-status.js:78-81 | The two port bytes spell the port, and the next state reads back and ends the packet |
| Packets.StatusRequestFraming | utils/server-status.js:20-22 | `01 00` is the framed packet with body length 1 and packet id 0 |
| StatusResponse.StatusFromDataDefaults | utils/server-status.js:141-144 | A truthy version, players, description, favicon or modinfo passes through, an absent or falsy one takes its default, and only a null document fails |
| StatusResponse.StatusFromDataPresent | utils/server-status.js:141-144 | The record never has a falsy version, players or description; favicon and modinfo are truthy or null |
| StatusResponse.SliceBound | utils/server-status.js:139 | A `slice` bound is clamped into the buffer and left alone when already inside it |
| StatusResponse.NodeSlice | utils/server-status.js:139 | `buffer.slice(start, end)` with bounds inside the buffer is the subsequence between them |
| StatusResponse.ParseStatus | utils/server-status.js:115 | A buffer shorter than 5 bytes parses to null |
| StatusResponse.ParseStatusResponse | utils/server-status.js:114-148 | The parser returns exactly ParseStatus: null wherever the source returns or catches null, otherwise the record built from the decoded body |
| StatusResponse.ReadJsonPayload | utils/server-status.js:115-122 | Below 5 bytes or without a readable packet length there is no body; otherwise the parse goes on at the offset after the length |
| StatusResponse.ReadFromPacketId | utils/server-status.js:124-130 | An unreadable packet id or one other than 0 gives null; id 0 goes on at the next offset |
| StatusResponse.ReadFromJsonLength | utils/server-status.js:132-139 | An unreadable JSON length gives null, so does a body that has not fully arrived; otherwise the body is sliced out |
| StatusResponse.HeaderFields | utils/server-status.js:120-134 | In a response header the packet length, id 0 and JSON length read back in turn and end where the header ends |
| StatusResponse.PayloadOfFields | utils/server-status.js:120-139 | Once the three fields read back, the body is the next jsonLength bytes, or null while some are missing |
| StatusResponse.ParseAfterHeader | utils/server-status.js:120-139 | After a response header the body is null until jsonLength bytes follow, then exactly those bytes; the packet length is never checked and later bytes are ignored |
| StatusResponse.ParseCompleteResponse | utils/server-status.js:114-148 | A complete response, whatever its packet-length field and whatever follows it, parses to the result for its JSON body |
| StatusResponse.ParseTruncatedResponse | utils/server-status.js:114-148 | Every proper prefix of a response parses to null, whether cut in the header or in the body |
| StatusResponse.TruncatedNoPayload | utils/server-status.js:115-136 | A proper prefix of a response never yields a JSON body |
| StatusResponse.NoPayloadWithoutLength | utils/server-status.js:121-122 | A buffer whose packet length cannot be read yields no body |
| StatusResponse.NoPayloadWithoutId | utils/server-status.js:125-126 | A buffer whose packet id cannot be read yields no body |
| StatusResponse.NoPayloadWithoutJsonLength | utils/server-status.js:133-134 | A buffer with id 0 whose JSON length cannot be read yields no body |
| StatusResponse.ParseOtherPacketId | utils/server-status.js:128-130 | Any buffer whose packet id reads as a value other than 0 parses to null: negative ids and non-minimal encodings included, whatever follows |
| Session.StepKeepsTimerOnlyWhilePending | utils/server-status.js:10-59 | With either close handler, no handler leaves the timer armed on a settled query |
| Session.RunTimerOnlyWhilePending | utils/server-status.js:7-61 | With either close handler, from the call on an armed timer means the promise is still pending |
| Session.StepKeepsTimer | utils/server-status.js:10-59 | With the corrected close handler, every handler keeps the invariant "timer armed exactly while pending" |
| Session.RunKeepsTimer | utils/server-status.js:7-61 | With the corrected close handler, the timer is armed exactly while the promise is pending |
| Session.StepKeepsOutcome | utils/server-status.js:7-61 | With either close handler, no handler changes a settled outcome |
| Session.RunKeepsOutcome | utils/server-status.js:7-61 | With either close handler, the first resolution wins: later events never change the outcome |
| Session.TimeoutResolves | utils/server-status.js:10-14 | With the corrected close handler, the query is settled once the timer fires, whatever came before |
| Session.BufferIsReceived | utils/server-status.js:26 | With either close handler, `buffer` is always the data chunks received so far, in order |
| Session.OutcomeExplained | utils/server-status.js:7-61 | With either close handler, a settled query carries its own host and port. It is online with the fields parsed from the data received up to some event, offline with "Connection timeout" only after the timer fired, or offline with the message of a socket error that occurred |
| Session.RunFirstOutcome | utils/server-status.js:7-61 | With either close handler, the promise resolves with the first of its three outcomes: it is settled exactly once a decisive event has occurred, with that event's verdict. A socket error gives its message, and data after which the received bytes parse gives the online status. The timer gives "Connection timeout" unless a close has cleared it under the handlers as written |
| Session.ClosedDisarmed | utils/server-status.js:57-59 | As written, once a close has run the timer stays cleared |
| Session.CloseWhilePendingHangs | utils/server-status.js:57-59 | As written, connect then close leaves the timer cleared while pending, and a timeout after them leaves the promise pending; with the corrected close handler it resolves with "Connection timeout" |
| Session.SettledWithoutDestroy | utils/server-status.js:10-55 | With either close handler, settling online or by the timer goes through the code's `destroy()` call: a settled query whose `destroy()` was not called was settled by a socket error with that message |
| Session.RunWithoutCloseKeepsTimer | utils/server-status.js:10-59 | As written, until a close arrives the timer is armed exactly while the promise is pending |
| Session.TimeoutResolvesWithoutClose | utils/server-status.js:10-14 | As written, a query that was never closed and is still pending is resolved offline with "Connection timeout" when the timer fires |
| Session.CloseAsWrittenDisarms | utils/server-status.js:57-59 | As written, after a close while pending, neither a timeout nor a connect nor another close settles the query |
| Session.StatusQuery.constructor | utils/server-status.js:8-14 | A new query has an empty buffer, nothing written, the timer armed and the promise pending |
| Session.StatusQuery.Resolve | utils/server-status.js:8 | Calling `resolve` changes only the outcome, as Promise.Settle says |
| Session.StatusQuery.OnConnect | utils/server-status.js:15-23 | The connect callback writes the handshake for the status state, then the status request, as Step says |
| Session.StatusQuery.OnData | utils/server-status.js:25-44 | The data handler performs Step's data case, re-parsing the whole buffer with ParseStatusResponse |
| Session.StatusQuery.OnError | utils/server-status.js:46-55 | The error handler clears the timer and resolves offline with the message, as Step says |
| Session.StatusQuery.OnTimeout | utils/server-status.js:10-14 | The timer callback, only while armed, destroys the socket and resolves with "Connection timeout" |
| Session.StatusQuery.OnClose | utils/server-status.js:57-59 | The corrected close handler clears the timer only once the promise is settled |
| Ping.PingRunVerdict | utils/server-status.js:154-171 | `pingServer` resolves with the first event's verdict: true for a connection, false for an error or timeout. The timer is armed exactly while it is pending |
| Ping.PingKeepsOutcome | utils/server-status.js:154-171 | A settled ping keeps its value whatever happens next |
| Ping.PingTimeoutResolves | utils/server-status.js:156-158 | Whatever came before, the ping is settled once the timer fires |
| Ping.PingSettledWithoutDestroy | utils/server-status.js:154-171 | Settling true or by the timer goes through the code's `destroy()` call: a settled ping whose `destroy()` was not called was settled false by a socket error |
| Ping.PingQuery.constructor | utils/server-status.js:154-158 | A new ping has the timer armed and the promise pending |
| Ping.PingQuery.OnConnect | utils/server-status.js:160-164 | The connect callback clears the timer, destroys the socket and resolves true, as PingStep says |
| Ping.PingQuery.OnError | utils/server-status.js:166-169 | The error handler clears the timer and resolves false, as PingStep says |
| Ping.PingQuery.OnTimeout | utils/server-status.js:156-158 | The timer callback, only while armed, destroys the socket and resolves false |

## Findings

| source | as written | input that shows it | evidently intended | confidence | as-written member | corrected member |
|---|---|---|---|---|---|---|
| utils/server-status.js:57-59 | The `close` handler calls `clearTimeout` even while the query is pending | The server accepts the connection, then closes it without sending a response: connect, close, then the timer's due time | The promise always settles; the timeout still resolves a query that was closed early | not executed | Session.CloseWhilePendingHangs | Session.TimeoutResolves |

## Left out

- Sockets, timers and logging are not modelled as real operations. `net.Socket`'s connect, write and destroy, `setTimeout`/`clearTimeout` and `logger.debug` become events and state fields. The timeout's duration (5000 ms, 3000 ms for the ping) is not modelled; the timer's firing is an event.
- Event order is not constrained. Node emits no data after `destroy()` and connects at most once; the lemmas hold for every order of events, including those.
- The default arguments are not modelled: port 25565 and the two timeouts.
- UTF-8 and `JSON.parse` are not modelled. The host is given as its UTF-8 bytes. Decoding the JSON body and `JSON.parse` together are the parameter `decodeJson`, where None means `JSON.parse` threw. JSON numbers are reals.
- The port's range is a precondition: `writeUInt16BE` throws for a port outside [0, 65536), and the model requires `port < 65536`.
- Numbers that are not integers are not modelled: `writeVarInt` and `readVarInt` are modelled on integers, with JavaScript's 32-bit conversions written out.
- The promise's `reject` is never called in the source and is not modelled.
- The data handler's `catch` is not modelled. `parseStatusResponse` catches everything itself, so that `catch` is unreachable.
- Session.StatusQuery.OnClose: models the corrected `close` handler, not the one in the source. The source's handler is `Step`'s close case under `AsWritten`, and the Findings row describes the difference.
- Session.StepKeepsTimer: holds only with the corrected `close` handler. As written, a close while pending disarms the timer (CloseWhilePendingHangs); only the half proved by StepKeepsTimerOnlyWhilePending holds for the source.
- Session.RunKeepsTimer: holds only with the corrected `close` handler. For the source as written, RunTimerOnlyWhilePending states the half that survives: an armed timer means pending, but a pending query may have no timer.
