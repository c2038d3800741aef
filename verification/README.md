# Protocol engines, modelled and proved

A Dafny model of the protocol cores of an HTTP client: the HTTP/2 connection engine (HPACK, flow
control, header fragmentation and the multiplexing driver), the QPACK decoder of its HTTP/3 client,
the LDAP filter pipeline, HTTP/1.1 body framing, and the calendar arithmetic behind cookie expiry.

Run `dafny verify dfyconfig.toml` in this directory to check everything.

## How it is organised

Each core comes in two halves. Functions over values describe what the code does, branch by branch,
and lemmas say what that means. Classes and methods with loops then carry the code's own form, and
their postconditions tie every new state to those functions, so what the lemmas say holds of every
run of the methods.

- `Common`, `Fields`, `StaticTables`, `PrefixInteger`, `BitStrings`, `Huffman`, `HuffmanTable`: bytes,
  header fields, the two static tables, the prefix-integer codec and the Huffman code. The decoder is
  proved for any prefix-free complete code whose only all-ones code is the 30-bit EOS; `HuffmanTable`
  shows that the actual table is one, through its canonical form.
- `HpackTable`, `Hpack`, `HpackRuns`, `HpackReach`, `HpackCodec`, `HpackConstants`: the evicting tables, the codec,
  all runs within a table size, single runs beyond it, and the mutable `Encoder` and `Decoder`.
- `Spellings`, `HpackPeer`, `HpackChoice`, `HpackSize`, `Unicode`: the wire format by itself, written as RFC 7541 has it and
  read by the codec, what the encoder chooses of it and how long that gets, and what counts as text.
- `FlowControl`, `CreditProtocol`: the windows, and two endpoints joined by first-in first-out channels.
- `Http2Types`, `SortedIds`, `Http2Engine`, `Http2Logs`, `Http2Frames`, `Http2Invariants`, `Http2Pump`,
  `Http2Start`: one connection. A `Conn` carries its fields, the frames it can still read and write, and
  histories (frames written, frames dispatched, bodies staged) against which windows and bodies are
  accounted. `Http2Frames.FrameStep` is one relation that every inbound frame meets.
- `Http2Driver`, `Http2Ledger`, `Http2Reuse`: the multiplexed run, every DATA frame of it paid for, and one
  run after another on the same connection.
- `Http2Settings`: which settings a payload changes, and exactly when every window keeps to the peer's size.
- `Http2Isolation`, `Http2Turns`: who a failure reaches, by itself and over a whole turn.
- `Http2Tidy`: what streams keep besides the accounts, in every state of a run.
- `Http2Fragments`, `Http2Trailers`, `Http2Refused`: fragmented header blocks, and what fragmented trailers and
  fragmented blocks that cannot be decoded lead to.
- `Http2Credit`, `Http2Receipts`: what the engine does with DATA, as steps of `CreditProtocol`, and the receive windows
  against the window updates written, over whole runs.
- `Http2Requests`: what a peer hears that puts the output's header blocks together and decodes them.
- `Http2Exchange`, `Http2Answers`: a peer that answers, frame by frame, and whole runs against it.
- `Http2Errors`, `Http2Replies`: when a frame is refused, and what is written in reply to SETTINGS, PING and DATA.
- `Http2Connection`, `Http2Multiplexer`: the mutable connection and the loops of the run.
- `QpackTable`, `QpackIndex`, `QpackFields`, `QpackStream`, `QpackCodec`, `QpackConstants`: the dynamic
  table as a refinement of an unbounded log, index arithmetic, field sections, the encoder stream cut
  into pieces, and the mutable forms.
- `QpackInstructions`, `QpackRefusals`, `QuicVarint`: instructions as RFC 9204 writes them, what is refused, and stream types.
- `Ber`, `LdapFilter`, `LdapWire`, `LdapParser`, `LdapTextParser`: lengths, integers and elements; filters written
  with lengths patched in place, and the same tag by tag; the text grammar and its parser.
- `Http1Body`, `Http1Messages`, `Http1Refusals`, `Http1Reader`: bodies, whole responses as their senders frame them, what
  is refused, and the reader's loops.
- `CivilDate`.

## Where the code does not do what one would expect

Each of these is proved as the code has it: an input that fails, and the condition under which the
expected law does hold, as an equivalence.

- A tenth continuation byte of a prefix integer loses all but its lowest bit, so 2^64 is read as 0. The value
  is right if and only if nine bytes with their top bit set are not followed by one with more than one
  significant bit (`PrefixInteger.DecodeExact`, `DecodeLosesBits`).
- The HPACK encoder honours any SETTINGS_HEADER_TABLE_SIZE while the decoder clamps updates to 4096:
  the two agree on all runs if and only if the sizes stay within 4096 (`HpackRuns.RecoversExactly`,
  `OverlargeTableBreaks`), and on one run if and only if no index in it points beyond what 4096 octets hold
  (`HpackReach.RunRecoveredExactly`).
- A SETTINGS frame with a bad entry after an INITIAL_WINDOW_SIZE changes the size and shifts no window, and one
  that overflows a window shifts only some. The law "window = current initial size + increments - DATA" survives
  a SETTINGS frame if and only if no stream is open, or the size that the entries before the first bad one
  leave is unchanged, or the payload is accepted and no window overflows (`Http2Settings.SettingsKeepStep`,
  `HalfAppliedBreaksLaw`; over runs `LawOverRuns`).
- Fragmenting a header block shows. A headers-only response in more than one frame on a stream that has sent
  its request is lost, because the stream is already closed when the CONTINUATION is decoded. Trailers
  in more than one frame complete the response with their first one: the driver takes the stream away, nothing can take
  the CONTINUATION that follows, and every other request fails. A block on a closed stream with a complete response
  reports it done. A block that cannot be decoded leaves the connection waiting for a CONTINUATION, which one frame does
  not; if it ends a stream that has sent its request, every other request fails too, while in one frame it may cost
  a single request. A block that the stream's state refuses leaves its other fragments to be refused one by one. Fragments
  are unnoticeable if and only if none of these is the case (`Http2Fragments.FragmentationIsInvisible`,
  `FragmentedHeadersOnlyResponseIsLost`, `RefusedFragments`, `Http2Trailers.SplitTrailersFailTheRest`,
  `Http2Refused.BadLastTurn`, `BadWholeTurn`, `BadHeadersFailAll`).
- A dispatch error is charged to the one stream in flight that is closed without a complete response.
  A reset therefore fails its own request if and only if the response was not complete and no other such stream
  is left over (`Http2Isolation.ResetIsItsOwn`, `Http2Turns.ResetTurn`); DATA that ends a response without
  headers leaves one (`HeaderlessEndLeavesCulprit`).
- A GOAWAY fails a request above its mark if and only if the response is not complete. A complete one
  can still be in flight, after trailers whose decoding error was charged to another stream, and then stays
  (`Http2Isolation.GoAwayIsolates`, `Http2Turns.BadTrailersLeaveComplete`).
- A peer may announce frames of up to 2^24 - 1 bytes, and the chunks of a body grow with the frame limit and the windows, but
  the frame writer takes at most 2^20. A chunk is sent if and only if it is no larger; a larger one fails every
  request without an outcome, on a healthy transport (`Http2Answers.ChunkGoesExactly`, `LargeChunkFailsAll`).
- A QPACK encoder stream whose bytes arrive with a cut inside an instruction's leading integer is
  refused, although the same bytes in one piece are accepted. Pieces fail if and only if the whole
  fails or some cut falls there, and leave the same table and leftover otherwise
  (`QpackStream.SplitInvariance`, `TornCutIsVisible`).
- A chunked body whose last line or trailers are cut off by the end of input is accepted. The body and its end are
  independent of what follows if and only if the chunk of size 0 is followed by a blank line with its LF
  (`Http1Body.ReusableIsDelimited`, `CutOffIsAccepted`).
- A comment in `src/http.rs:1511-1515` says that a transfer coding other than chunked is an error of its
  own. The code refuses such a message exactly when it has a Content-Length too and otherwise reads to the end of input; the
  model follows the code (`Http1Body.OtherCodingsReadToEnd`, `GzipIsReadToEnd`).
- A cookie that expires in one of the 399 years before -2^31 + 399 gets an expiry time in the far future, because
  `year - 399` wraps around in 32 bits (a build with overflow checks stops there instead). The time is the count, or
  absent before 1970, if and only if the year counted from March is not among them (`CivilDate.EpochCounts`,
  `FarPastHasATime`).

## Model

| member | source | states |
|---|---|---|
| PrefixInteger.EncodeInt | src/http2.rs:497-512 | The loop writes the prefix encoding of section 5.1 of RFC 7541, for every prefix width and every 64-bit value. |
| PrefixInteger.DecodeInt | src/http2.rs:515-543 | The loop reads what the reference reader reads: truncation, 64-bit overflow and over-long integers are errors. |
| PrefixInteger.RoundTrip | src/http2.rs:497-543 | An encoding reads back as its value and length, whatever flag bits sit above the prefix and whatever bytes follow. |
| PrefixInteger.EncodingExamples | src/http2.rs:497-512 | The three integers of section C.1 of RFC 7541 are encoded as printed there. |
| PrefixInteger.DecodeExact | src/http2.rs:515-543 | A successful read is the number the bytes encode unless, and only unless, nine leading continuation bytes have their top bit set and the tenth carries more than one significant bit. |
| PrefixInteger.DecodeLosesBits | src/http2.rs:533-541 | The exception is real: ten continuation bytes that encode 2^64 are read as 0. |
| PrefixInteger.Extends | src/http2.rs:515-543 | Bytes after a finished (or refused) integer never change the verdict. |
| Huffman.HuffmanDecode | src/http2.rs:906-956 | The accumulator loop computes bit-by-bit prefix decoding; every intermediate accumulator stays within 37 unread bits. |
| Huffman.AbsorbByte | src/http2.rs:911-937 | After each input byte at most 29 bits wait in the accumulator, so shifting in the next byte overflows neither the 64-bit word nor the length. |
| Huffman.HuffmanEncode | src/http2.rs:1134-1180 | The in-place bit writer produces the concatenated codes padded with ones to an octet. |
| Huffman.DecodeEncode | src/http2.rs:906-956 | Decoding the encoding of any byte string returns it, for every prefix-free complete code whose EOS is 30 ones. |
| Huffman.EncodeDecode | src/http2.rs:1134-1180 | Conversely whatever decodes successfully is exactly the encoding of the result: padding and EOS errors are never let through. |
| HuffmanTable.HuffmanIsValid | src/http2.rs:642-900 | The 257 codes of Appendix B of RFC 7541 are prefix-free and complete, and EOS is the only code made of ones. |
| HpackCodec.Decoder.EvictToFit | src/http2.rs:996-1001 | The loop over the running size drops exactly the entries that the reference eviction drops, oldest first. |
| HpackCodec.Decoder.Insert | src/http2.rs:1003-1014 | Insertion evicts, then puts the entry in front; an entry larger than the table empties it. |
| HpackCodec.Decoder.ReadString | src/http2.rs:1041-1064 | String literals, raw or Huffman-coded, with their error cases, tied to the reference reader. |
| HpackCodec.Decoder.DecodeStep | src/http2.rs:1066-1129 | The stateful reader of one representation equals the reference reader, or leaves the table unchanged on error; HpackPeer.RepReads says what that reads. |
| HpackCodec.Decoder.DecodeBlock | src/http2.rs:1066-1129 | The cursor loop equals the recursive reading of the block, including the table that a failure leaves behind; HpackPeer.BlockReads says what that reads. |
| HpackPeer.RepReads | src/http2.rs:1066-1129 | Each representation of section 6 of RFC 7541 as any peer may write it, with its own pattern and prefix width: indexed, a literal with or without indexing or never indexed, its name by index or spelled out, its texts raw or Huffman-coded, and the size update. It is read for what it stands for, whatever follows, and exactly incremental indexing inserts. |
| HpackPeer.BlockReads | src/http2.rs:1066-1129 | Whatever block a peer writes in these representations is decoded to the fields they stand for, with the table they leave. |
| HpackPeer.MissingIsRefused | src/http2.rs:1016-1037 | An index beyond both tables, or 0 for a whole entry, is refused. |
| HpackPeer.NoTextIsRefused | src/http2.rs:1041-1064 | A literal that spells out a name or a value that is no text is refused, raw or Huffman-coded. |
| Spellings.CutIsRefused | src/http2.rs:1041-1064 | A literal that was cut short is refused. |
| HpackPeer.OversizedIsRefused | src/http2.rs:1066-1129 | A list that would pass 256 KiB, with 32 octets counted to each field, is refused. |
| HpackCodec.Encoder.SetPeerMaxTableSize | src/http2.rs:1252-1256 | Evicts at once and keeps one pending size update, however many changes there were. |
| HpackCodec.Encoder.Insert | src/http2.rs:1267-1282 | The encoder's table after an insertion. |
| HpackCodec.Encoder.EncodeLiteralString | src/http2.rs:1186-1201 | The shorter of the raw and the Huffman form; a tie goes to raw. |
| HpackCodec.Encoder.EncodeLine | src/http2.rs:1284-1352 | One field against the current table: indexed, name-indexed or literal, and the table after it. |
| HpackCodec.Encoder.EncodeHeader | src/http2.rs:1320-1352 | A pending size update precedes the field. |
| HpackCodec.Encoder.EncodeBlock | src/http2.rs:3176-3192 | The loop over a request's fields writes the block of the reference encoder. |
| HpackChoice.LineIsBest | src/http2.rs:1284-1352 | What the encoder writes for a field, in those representations: the lowest index of an equal entry when there is one, otherwise a literal with incremental indexing whose name is the lowest index of that name or spelled out; and exactly the literals are inserted. |
| HpackChoice.HeaderIsBest | src/http2.rs:1320-1352 | A pending size update comes first, once, and then that representation. |
| HpackSize.BlockIsShort | src/http2.rs:3176-3192 | The block of a field list is at most 6 bytes longer than the list's size with 32 octets counted to each field, so the block of a request never passes the largest frame. |
| Unicode.Utf8Exactly | src/http2.rs:1057-1063 | What counts as text: exactly the encodings of sequences of scalar values, as section 3 of RFC 3629 has them; no overlong form, no surrogate, nothing cut short. |
| HpackTable.EvictKeeps | src/http2.rs:996-1001 | Eviction keeps every newest-first prefix that fits the budget. |
| HpackTable.InsertMonotone | src/http2.rs:1003-1014 | If one table is a newest-first prefix of another, it still is after both insert the same field. |
| HpackRuns.LiteralRoundTrip | src/http2.rs:1041-1064 | A literal reads back whichever form the encoder chose. |
| HpackRuns.BlockAgrees | src/http2.rs:1066-1129 | One header block: the decoder recovers the fields and the encoder's table is again a newest-first prefix of the decoder's. |
| HpackRuns.RunsRecovered | src/http2.rs:977-1129 | For every sequence of header lists interleaved with size changes up to 4096, the decoder recovers exactly the lists that were encoded (each of text fields, within the 256 KiB list cap). |
| HpackRuns.RecoversExactly | src/http2.rs:1252-1256 | Recovery over all runs holds if and only if the size changes stay within 4096. |
| HpackRuns.OverlargeTableBreaks | src/http2.rs:2287-2294 | Above 4096 there is a run that is not recovered: the encoder honours a larger SETTINGS value than the decoder's cap. |
| HpackConstants.HpackBound | src/http2.rs:550-612 | The same equivalence for the client's static table and Huffman code (Appendices A and B of RFC 7541) and UTF-8 text. |
| HpackReach.RunRecoveredExactly | src/http2.rs:977-1129 | For one run, whatever sizes the peer announces: it is recovered if and only if every dynamic index the encoder sends is within what a decoder table capped at 4096 octets still holds, a condition on the tables and not on the bytes. |
| HpackReach.SlimRunsRecovered | src/http2.rs:1252-1282 | In particular every run in which the encoder's table never holds more than 4096 octets is recovered. |
| HpackConstants.HpackRun | src/http2.rs:550-612 | The per-run equivalence for the client's own tables. |
| CreditProtocol.RunsKeepCredit | src/http2.rs:331-392 | From a state that meets the invariant no run ever trips a flow-control error or an overflow, whether the sender is the client's pump or any sender within the windows, with padding or without; receiver window = sender window + grants in flight + DATA in flight, per connection and per stream. |
| CreditProtocol.StartHolds | src/http2.rs:336-378 | The initial windows meet that invariant. |
| CreditProtocol.NeverStuck | src/http2.rs:2751-2757 | From every reachable state the channels drain, and then every stream both sides know can send at least 32767 bytes. |
| CreditProtocol.CanFinish | src/http2.rs:350-392 | Every stream both sides keep can be driven until its whole body has arrived. |
| CreditProtocol.ReceivedIsPrefix | src/http2.rs:2538-2630 | What a receiver holds of a stream is always a prefix of the body sent on it. |
| Http2Credit.AcceptedDataIsDelivery | src/http2.rs:2538-2641 | DATA that the engine accepts on an open stream, padded or not, is the protocol's delivery: the same receive windows, the same bytes, and the frames it writes are exactly the grants the protocol puts in flight, the connection's and the stream's. |
| Http2Credit.ChunkIsPumpStep | src/http2.rs:1889-1944 | A chunk that the engine's pump sends is the protocol's pump step: the same size, frame and send windows. |
| Http2Replies.DataIsPaidBack | src/http2.rs:2605-2641 | For DATA that was taken the frames written are exactly: a WINDOW_UPDATE on stream 0 that restores the connection's window to 65535 if less than half is left, then one on that stream likewise. |
| Http2Receipts.LifeBalances | src/http2.rs:2538-2641 | At every moment of a run while the transport is up: the connection's receive window is what it was, plus the increments written on stream 0, less the DATA received; each stream's is 65535, plus the increments written on that stream, less the DATA received for it. |
| Http2Receipts.RunReceipts | src/http2.rs:1972-2085 | The same for every moment of a whole run on an idle connection. |
| FlowControl.NextDataChunkSize | src/http2.rs:2751-2757 | The chunk fits the frame limit, the window and what is left, and is 0 exactly when one of them is used up. |
| Http2Settings.SettingsAreTheLastGood | src/http2.rs:155-202 | A payload is accepted exactly when no entry of it is bad; accepted or not, each setting becomes what the last entry for it before the first bad one says, and stays otherwise. |
| Http2Types.HeadersFramingIsInvisible | src/http2.rs:2393-2419 | Padding and priority bytes never change the header fragment that is read. |
| Http2Types.DataPaddingIsInvisible | src/http2.rs:2588-2601 | Padding never changes the DATA that is read. |
| Http2Types.PeerEndIsFinal | src/http2.rs:1376-1455 | Once the peer has ended its side no run of events brings it back: DATA from it is refused for good, and a closed stream stays closed. |
| Http2Types.LifeCycle | src/http2.rs:1376-1455 | Whatever happens to a stream, it is opened by sending, and its state is then exactly what was ended and reset so far, in any order: closed after a reset or both ends, half-closed after one, else open. |
| Http2Types.OneEvent | src/http2.rs:1376-1455 | What an opened stream may do next: send until its own side has ended, receive until the peer's has, be reset at any time, and see headers after it is closed; everything else is refused. |
| Http2Frames.DispatchStep | src/http2.rs:2248-2671 | Whatever frame arrives: the connection window moves by its stream-0 increment, each stream's by its own, bodies grow by exactly its DATA, only control frames are written, and no stream appears or disappears. |
| Http2Frames.ShiftStep | src/http2.rs:2274-2285 | A SETTINGS change moves each window visited by the change of the initial size and no other. |
| Http2Frames.DoneIsComplete | src/http2.rs:2471-2481 | A dispatch reports only its own stream as done, still registered and with its whole response. |
| Http2Errors.RefusedExactly | src/http2.rs:2248-2671 | While the transport is up a frame is refused exactly if something is wrong with it, type by type and number by number: a bad setting or one that overflows a window, a zero or overflowing increment, torn padding or priority, an unknown or closed stream, a window or a limit exceeded, a block that is too long or cannot be decoded, a reset, a push, or a CONTINUATION out of place. |
| Http2Replies.PingIsReturned | src/http2.rs:2305-2315 | A PING comes back with the ACK flag and its payload; an acknowledgement does not. |
| Http2Replies.SettingsAreAcknowledged | src/http2.rs:2274-2304 | Settings that are adopted are answered with an empty SETTINGS frame with the ACK flag, and a changed table size is told to the encoder; settings that are refused are not answered. |
| Http2Replies.SettingsObeyed | src/http2.rs:2274-2304 | From an encoder at the announced table size: after SETTINGS it is there again if and only if the settings were adopted or the entries before the first bad one leave the size as it was. |
| Http2Replies.LifeObeys | src/http2.rs:1972-2085 | The encoder is at the announced table size at every moment of a run until settings are refused after changing it. |
| Http2Replies.GoAwayMarks | src/http2.rs:2320-2352 | A GOAWAY is always taken: it sets the mark to its 31-bit stream id, 0 when it is too short to hold one, and closes exactly the streams beyond it. |
| Http2Invariants.FreshIsInvariant | src/http2.rs:1592-1630 | A new connection meets the invariant of all runs. |
| Http2Invariants.ReadKeepsInv | src/http2.rs:2235-2264 | Reading any frame keeps it: connection window = 65535 + stream-0 increments - DATA written, within [0, 2^31-1]; stream window = the initial size it was last adjusted to + increments - DATA; response body = DATA dispatched; request DATA = front of the staged body. |
| Http2Settings.LawIsInStep | src/http2.rs:2274-2285 | Every stream's window is the peer's current initial size + its increments - its DATA if and only if every stream was last adjusted to the current size. |
| Http2Settings.SettingsResynchronise | src/http2.rs:2274-2311 | From any state: after a SETTINGS frame that is accepted and changes the size, all windows are in step with it exactly when none overflows; after any other, exactly when all already were at the size that is left. |
| Http2Settings.SettingsKeepStep | src/http2.rs:2274-2311 | From windows in step the law survives a SETTINGS frame if and only if no stream is open, or the size left by the entries before the first bad one is unchanged, or the payload is accepted and no window passes 2^31-1. |
| Http2Settings.HalfAppliedBreaksLaw | src/http2.rs:2274-2285 | The failing input: INITIAL_WINDOW_SIZE 1 followed by ENABLE_PUSH 2 is refused with the size already changed, and the law is gone for every open stream. |
| Http2Settings.LawOverRuns | src/http2.rs:2004-2081 | The law holds at every turn of a run, and after every frame of it, if and only if every SETTINGS frame it dispatches meets that condition at that moment. |
| Http2Settings.RunLaw | src/http2.rs:1972-2085 | On an idle connection the law holds when the loop is entered, so the same equivalence covers whole runs. |
| Http2Pump.PumpIsSafeAndWorkConserving | src/http2.rs:1871-1948 | Every DATA frame written is non-empty and no larger than the frame limit or what is left of either credit; after a successful pump no stream with bytes left has both windows open. |
| Http2Pump.ChunkKeepsBodies | src/http2.rs:1911-1940 | What a stream has written is always the front of its body, with END_STREAM exactly on the frame that completes it, on every stream at once. |
| Http2Pump.DeadFlushPending | src/http2.rs:2099-2102 | Once the transport is dead nothing is written and the flush says so. |
| Http2Start.StartKeepsInv | src/http2.rs:1676-1700 | Starting a request opens the next odd id below 2^31 and not above the GOAWAY mark, stages its body and keeps the invariant; a failed start leaves the streams as they were. |
| Http2Start.OpenedStream | src/http2.rs:1676-1700 | A stream opens exactly below the concurrency limit, the id space and any GOAWAY mark. |
| Http2Start.FragmentShape | src/http2.rs:2692-2743 | One HEADERS frame that ends the stream exactly when asked, then only CONTINUATIONs, all on one stream. |
| Http2Requests.BlockHeard | src/http2.rs:2692-2743 | A peer that puts HEADERS and CONTINUATIONs together as section 4.3 of RFC 9113 says hears, from the frames of a block, that block; from a part of them, nothing yet. |
| Http2Requests.StartIsHeard | src/http2.rs:1836-1860 | The header frames that starting a request adds to the output, heard by a peer whose decoder mirrors the encoder, are one block on the new stream that decodes to the request's fields; the decoder mirrors the encoder again. |
| Http2Requests.StartUnderstood | src/http2.rs:1836-1860 | Starting a request, or failing to, leaves a peer that listened from the start with the fields of every request that was started, each on its stream. |
| Http2Requests.ReadUnderstood | src/http2.rs:2235-2311 | So does reading any frame, SETTINGS that change the table size included. |
| Http2Requests.RunIsHeard | src/http2.rs:1972-2085 | Over whole runs: a peer fed the output has heard, for every request that was started, exactly its fields on its stream (text fields within the list cap, table sizes up to 4096), and is ready for the next run. |
| Http2Requests.FreshIsUnderstood | src/http2.rs:1592-1630 | A new connection is such a start. |
| Http2Driver.StartQueuedKeeps | src/http2.rs:2108-2143 | Queued, in-flight and resolved requests still partition 0..n, resolved slots stay, started requests keep their streams. |
| Http2Driver.FailStreamsKeeps | src/http2.rs:2152-2208 | Failing streams settles exactly their slots and keeps the partition. |
| Http2Driver.ResolveKeeps | src/http2.rs:2061-2075 | A done stream is registered and in flight, and its slot becomes its own response. |
| Http2Driver.AfterErrorKeeps | src/http2.rs:2033-2052 | After a dispatch error the run ends with every slot settled, or one more slot is settled and the invariant holds. |
| Http2Driver.TurnKeeps | src/http2.rs:2004-2081 | One turn keeps the invariant and all outcomes; it reads a frame or settles a request, so the loop terminates. |
| Http2Driver.RunAnswersEveryRequest | src/http2.rs:1972-2085 | Every run on an idle connection settles every slot; a reply in slot i is the complete response of the one stream opened for request i, its body the DATA dispatched for that stream since it was opened, and the accounts still balance. |
| Http2Driver.RunKeepsAccounts | src/http2.rs:1972-2085 | Spelled out for every run: connection window = 65535 + increments - DATA, within [0, 2^31-1]; each request that got a stream sent the front of its body there with END_STREAM exactly on completion; streams opened are odd, increasing and below 2^31. |
| Http2Exchange.FrameUnderstood | src/http2.rs:2248-2641 | A frame of a peer that answers (header blocks in one frame or, unless they end the stream, in several; DATA within the limits; increments; frames that mean nothing here) is taken: the stream's headers and body become those of the answer so far, and the stream is reported done exactly when the answer is over. |
| Http2Exchange.HeadersTold | src/http2.rs:2392-2483 | A whole block with any padding and priority is such a frame, and answers with the fields it decodes to. |
| Http2Exchange.DataTold | src/http2.rs:2538-2641 | So are up to 16 KiB of DATA, padded or not. |
| Http2Answers.StartGoesThrough | src/http2.rs:2108-2143 | While the transport is up a request that may be opened is started. |
| Http2Answers.RunServes | src/http2.rs:1972-2085 | A run on an idle connection against a peer that answers every request, its frames interleaved in any order and followed by anything, requests beyond its limit started as others are answered: unless the transport dies every slot is a reply, on its request's own stream, with the fields and the body the peer sent there. |
| Http2Answers.FreshIsReady | src/http2.rs:1592-1630 | A new connection is ready for such a run. |
| Http2Answers.ChunkGoesExactly | src/http2.rs:1911-1940 | A chunk that does not kill the transport is sent if and only if it is no larger than 2^20 bytes, the largest frame the writer handles. |
| Http2Answers.LargeChunkFailsAll | src/http2.rs:464-470 | The failing case: a peer that announces larger frames and opens its windows as far makes the pump fail on a healthy transport, and every request without an outcome with it. |
| Http2Ledger.RunPays | src/http2.rs:1972-2085 | A whole run is a sequence of reads, starts, flushes and removals of streams in which only flushes write DATA, every frame of them non-empty and within the frame limit and both credits at the moment it was written. |
| Http2Reuse.RunLeavesIdle | src/http2.rs:1972-2085 | A run that is not cut short leaves the invariant and no streams, so another run may follow. |
| Http2Reuse.ConnectionIsReusable | src/http2.rs:1972-2085 | Batch after batch, for as long as the connection outlives them, every request of every batch is answered. |
| Http2Tidy.RunTidy | src/http2.rs:1972-2085 | In every state of a run header fragments are buffered only on the stream whose CONTINUATION is expected, and a stream that has ended its own side has nothing left to send. |
| Http2Tidy.TurnTidy | src/http2.rs:2004-2081 | Each turn keeps that. |
| Http2Tidy.TidyIsReady | src/http2.rs:2392-2483 | So between blocks every stream is ready for a new one, as the results on fragmentation ask. |
| Http2Isolation.FrameTouchesOnly | src/http2.rs:2364-2390 | A frame for one stream leaves every other stream exactly as it was. |
| Http2Isolation.ResetIsItsOwn | src/http2.rs:2152-2175 | A reset is charged to exactly its own request if and only if that stream had no complete response and no other stream in flight is already closed without one. |
| Http2Turns.ResetTurn | src/http2.rs:2033-2052 | A whole turn that reads a reset and goes on fails that request if and only if the same condition holds; every other request in flight is then still in flight, and with nothing queued that slot is all that changes. |
| Http2Turns.HeaderlessEndLeavesCulprit | src/http2.rs:2538-2641 | How the condition comes to fail: DATA with END_STREAM on a stream whose request is sent and that has no headers is accepted and leaves the stream in flight, closed and incomplete. |
| Http2Turns.BadTrailersLeaveComplete | src/http2.rs:2461-2482 | How a complete response stays in flight: trailers that end an open stream and do not decode, in a turn whose error is charged to another stream. |
| Http2Isolation.FailingOneIsLocal | src/http2.rs:2152-2175 | Failing one stream changes one slot and no other stream. |
| Http2Isolation.GoAwayIsolates | src/http2.rs:2320-2352 | After GOAWAY(last) a request above last has failed if and only if its response was incomplete; a complete one stays in flight with its stream closed; every stream at or below last is untouched and still in flight. |
| Http2Isolation.GoAwayStands | src/http2.rs:2320-2352 | No frame but a GOAWAY moves the mark. |
| Http2Isolation.TurnStaysBelowGoAway | src/http2.rs:1685-1692 | In a turn that does not read another GOAWAY no request starts beyond the mark. |
| Http2Isolation.RunStaysBelowGoAway | src/http2.rs:1972-2085 | Over the rest of a run, until a turn reads another GOAWAY, no request starts beyond the mark. |
| Http2Fragments.ContinuationsJoin | src/http2.rs:2496-2536 | Any number of CONTINUATIONs does what one carrying all their bytes does. |
| Http2Fragments.FragmentsAgainstWhole | src/http2.rs:2392-2536 | For every block up to 256 KiB and every frame size, fragments are accepted exactly when the whole block is and leave the same HPACK table; if accepted, the same connection, except that END_STREAM on a stream that has sent its request costs it the response headers. |
| Http2Fragments.QuietExactly | src/http2.rs:2461-2482 | Exactly when a fragment before the last already reports the stream done: END_STREAM in more than one frame on a stream that has headers, or a third frame on a closed complete stream. |
| Http2Fragments.FragmentationIsInvisible | src/http2.rs:2392-2536 | For every block up to 256 KiB, accepted or refused: the fragments before the last report nothing, the outcome is that of the whole block, and the connection is the same, if and only if the block fits one frame, or it decodes, the stream's state allows headers, and the stream is closed and incomplete, or is not closed and either END_STREAM is clear or it has neither sent its whole request nor received headers. |
| Http2Fragments.RefusedExactly | src/http2.rs:2392-2483 | A block is refused exactly when the stream's state does not allow headers or the block cannot be decoded. |
| Http2Fragments.RefusedFragments | src/http2.rs:2392-2536 | What a refused block leaves in more than one frame: the same connection as in one if and only if the state refused it; if it could not be decoded, a connection that still expects a CONTINUATION, with the peer's side ended when END_STREAM was set. |
| Http2Refused.BadLastTurn | src/http2.rs:2033-2052 | The turn that reads the last fragment of a block that cannot be decoded: blamed on its own stream, it leaves a connection that refuses everything; blamed on another, that request fails alone and this stream's CONTINUATION is still expected; otherwise the run ends with every open request failed. |
| Http2Refused.BadWholeTurn | src/http2.rs:2033-2052 | The same block in one frame: blamed on exactly one closed incomplete stream, that request alone fails and any frame may follow; otherwise the run ends. |
| Http2Refused.BadLastFailsAll | src/http2.rs:2033-2052 | Unless exactly one other stream is to blame, every open request fails by the end of the run. |
| Http2Refused.BadHeadersFailAll | src/http2.rs:1972-2085 | A response of headers only that cannot be decoded, in any number of frames above one, on a stream that has sent its request: every open request fails, whatever the peer sends next. |
| Http2Trailers.JammedRefusesAll | src/http2.rs:2248-2263 | A connection that expects a CONTINUATION for a stream it has forgotten refuses every frame, the expected one included, and never changes. |
| Http2Trailers.SplitTrailersAreDoneEarly | src/http2.rs:2461-2482 | END_STREAM trailers cut before END_HEADERS: the first fragment alone reports the stream done. |
| Http2Trailers.SplitTrailersJam | src/http2.rs:2061-2075 | The turn that reads that fragment settles its request without the trailers, replies to no other request, and leaves the connection in that state. |
| Http2Trailers.JammedRunFailsTheRest | src/http2.rs:2033-2052 | From then on every unresolved request fails and no other outcome changes. |
| Http2Trailers.SplitTrailersFailTheRest | src/http2.rs:1972-2085 | So such trailers fail every other request without an outcome, whatever the peer sends next. |
| Http2Fragments.FragmentedHeadersOnlyResponseIsLost | src/http2.rs:2513-2519 | That case: the response headers are dropped and the stream is never reported done. |
| Http2Fragments.InterruptionIsRefused | src/http2.rs:2248-2263 | While a block is unfinished every frame but its own CONTINUATION is refused and changes nothing. |
| Http2Connection.Connection.constructor | src/http2.rs:1592-1630 | A new connection is fresh, with a new encoder and decoder. |
| Http2Connection.Connection.OpenStream | src/http2.rs:1676-1700 | The stateful code equals the engine's function, error cases included. |
| Http2Connection.Connection.StageRequest | src/http2.rs:1836-1860 | Headers encoded and written, body parked: the stateful code equals the function of which Http2Requests.StartIsHeard speaks. |
| Http2Connection.Connection.PumpStream | src/http2.rs:1889-1944 | The inner sending loop. |
| Http2Connection.Connection.PumpPendingSends | src/http2.rs:1871-1948 | The pump over all streams in ascending order. |
| Http2Connection.Connection.FlushPending | src/http2.rs:2099-2102 | Pump, then flush. |
| Http2Connection.Connection.ReadAndDispatch | src/http2.rs:2235-2245 | One frame read and dispatched. |
| Http2Connection.Connection.ProcessFrame | src/http2.rs:2248-2267 | The dispatch ladder and its CONTINUATION gate. |
| Http2Connection.Connection.ProcessConnFrame | src/http2.rs:2272-2358 | SETTINGS, PING, WINDOW_UPDATE and GOAWAY on stream 0. |
| Http2Connection.Connection.ProcessSettings | src/http2.rs:2274-2311 | Settings applied, windows shifted, encoder told, acknowledgement written, in that order. |
| Http2Connection.Connection.ProcessHeaders | src/http2.rs:2392-2483 | HEADERS with padding and priority, on open and closed streams. |
| Http2Connection.Connection.ProcessContinuation | src/http2.rs:2496-2536 | CONTINUATION. |
| Http2Connection.Connection.ProcessData | src/http2.rs:2538-2641 | DATA: both windows billed, padding stripped, credit granted back; the stateful code equals the function of which Http2Replies.DataIsPaidBack and Http2Receipts speak. |
| Http2Connection.Connection.ProcessRst | src/http2.rs:2643-2671 | RST_STREAM. |
| Http2Connection.Connection.PruneCompletedStreams | src/http2.rs:1655-1664 | Exactly the streams that are closed, or whose own side is open with a finished response, are forgotten; the others are unchanged and the connection's invariant survives. |
| Http2Connection.FragmentHeaderBlock | src/http2.rs:2692-2743 | The cutting loop equals the recursive definition. |
| Http2Multiplexer.Multiplexer.StartQueued | src/http2.rs:2108-2143 | The scheduler's loop equals its function. |
| Http2Multiplexer.Multiplexer.FindCulprit | src/http2.rs:2152-2175 | In whatever order streams are visited, the loop finds the culprit exactly when there is one and only one. |
| Http2Multiplexer.Multiplexer.FailGoAwayDoomed | src/http2.rs:2179-2208 | The loop fails exactly the doomed streams. |
| Http2Multiplexer.Multiplexer.FailAllOutstanding | src/http2.rs:2212-2230 | The two loops fail every unresolved request in flight or queued. |
| Http2Multiplexer.Multiplexer.Run | src/http2.rs:1972-2085 | The whole run equals the function of which RunAnswersEveryRequest speaks, so it terminates with every slot settled. |
| QpackTable.EvictKeepsNewest | src/http3.rs:319-330 | Eviction keeps the longest run of newest entries that fits. |
| QpackTable.SetCapacityRefines | src/http3.rs:307-317 | A capacity is accepted exactly up to 4096; it drops old entries only, and none it need not. |
| QpackTable.InsertRefines | src/http3.rs:334-347 | An insertion succeeds exactly when the entry fits the table, and extends the log. |
| QpackTable.AbsoluteIndexIsStable | src/http3.rs:351-362 | get_absolute returns the log's entry exactly while that entry is live. |
| QpackTable.TableRefinesLog | src/http3.rs:273-363 | After any successful operations on a fresh table: live entries are the log from `dropped` on, size within capacity within 4096, at most 128 entries, and absolute indices read the log. |
| QpackTable.DynamicTable.EvictOldest | src/http3.rs:319-330 | The loop over the running size evicts as the reference does. |
| QpackTable.DynamicTable.SetTableCapacity | src/http3.rs:307-317 | Stateful set_capacity; an error changes nothing. |
| QpackTable.DynamicTable.InsertEntry | src/http3.rs:334-347 | Stateful insert; an error changes nothing. |
| QpackTable.DynamicTable.Get | src/http3.rs:351-362 | Reads the log's entry exactly while it is live. |
| QpackIndex.DecodeRequiredInsertCount | src/http3.rs:802-830 | The code computes the reference reconstruction. |
| QpackIndex.RequiredIsReconstructed | src/http3.rs:802-830 | Decoding a non-zero value against count c yields R if and only if R is in (c-128, c+128], at least 1, and has that encoding. |
| QpackIndex.RequiredIsUnique | src/http3.rs:802-830 | No two counts of the window share an encoding. |
| QpackIndex.LiveReferenceIsInWindow | src/http3.rs:795-830 | The count required by a reference to a live entry always lies in the window and is reconstructed. |
| QpackIndex.BaseRoundTrip | src/http3.rs:850-866 | Sign and Delta Base read back as the Base. |
| QpackIndex.OneFormReaches | src/http3.rs:984-999 | Each absolute index is reached by exactly one of the relative and post-base forms. |
| QpackFields.RefReads | src/http3.rs:876-979 | Every line kind, for every Base, static or dynamic, with either never-index bit and raw or Huffman-coded texts, resolves to what it refers to in the insertion log. |
| QpackFields.SectionMeansItsReferences | src/http3.rs:850-979 | A whole section of any such lines decodes to what they refer to in the insertion log, whatever its Base, with either sign. |
| QpackFields.SectionRoundTrip | src/http3.rs:743-777 | The encoder's section reads back as its field list, whatever table the decoder holds. |
| QpackConstants.QpackRoundTrips | src/http3.rs:545-656 | The same with the 99-entry static table of RFC 9204, the Huffman code and UTF-8 text. |
| QpackRefusals.MissingIsRefused | src/http3.rs:876-979 | A line that refers to an entry that was dropped, has not arrived or is not in the static table is refused, in every form and for every Base. |
| QpackRefusals.BeforeTheFirst | src/http3.rs:984-999 | A relative index that counts back past the first insertion is refused. |
| QpackRefusals.BlockedIsRefused | src/http3.rs:795-830 | A section that needs insertions the table has not seen is refused. |
| QpackRefusals.OversizedIsRefused | src/http3.rs:850-979 | A line that would take the list past 256 KiB is refused. |
| QpackInstructions.InstructionReads | src/http3.rs:386-453 | Each of the four instructions of section 4.3 of RFC 9204 as any peer may write it, with its own pattern and prefix width and texts raw or Huffman-coded: it is carried out as the capacity, insertion or duplicate it stands for, whatever follows, and refused exactly when it names an entry that is not there, spells out no text, or asks for what the table cannot do. |
| QpackInstructions.StreamReads | src/http3.rs:369-384 | A stream of written instructions is applied to its end and leaves a table that refines the log of their entries. |
| QpackStream.NextExtends | src/http3.rs:386-453 | Once an instruction is decided, later bytes do not change it. |
| QpackStream.TwoPieces | src/http3.rs:369-384 | Applying a stream in two pieces with the leftover carried forward is applying it whole, unless the cut tears a leading integer. |
| QpackStream.SplitInvariance | src/http3.rs:1553-1579 | For any number of cuts: the pieces fail if and only if the whole stream fails or some cut leaves nothing but an all-ones prefix and continuation bytes with the top bit set; without such a cut table, leftover and verdict are those of the whole. |
| QpackStream.TornCutIsVisible | src/http3.rs:433-437 | Two bytes that set the capacity in one piece fail in two. |
| QpackStream.StreamRefinesItsInsertions | src/http3.rs:369-453 | Whatever bytes a peer sends, the table refines the log of what the applied instructions insert, each read against the insertions before it; QpackInstructions.InstructionReads says what each is. |
| QpackStream.AnyStreamRefinesItsLog | src/http3.rs:369-453 | On a fresh table the same, with at most 128 entries and a capacity of at most 4096 whatever was sent. |
| QpackCodec.DecodeFieldSectionWith | src/http3.rs:876-979 | The cursor loop equals the recursive reading. |
| QpackCodec.EncodeFieldSection | src/http3.rs:766-777 | The encoding loop. |
| QpackCodec.DecodeEncoderInstruction | src/http3.rs:386-453 | One instruction against the mutable table equals the reference reader of which QpackInstructions.InstructionReads speaks; a partial or refused one leaves the table unchanged. |
| QpackCodec.ApplyEncoderInstructions | src/http3.rs:369-384 | The loop applies complete instructions and counts their bytes. |
| QpackCodec.TryDecodeLiteralString | src/http3.rs:485-508 | A string that may not have arrived in full. |
| QpackCodec.UniStream.Process | src/http3.rs:1553-1579 | The stream type is read once; encoder bytes are applied and drained, other streams discarded. |
| QuicVarint.VarintReads | src/http3.rs:131-149 | Every form of a number, in 1, 2, 4 or 8 bytes, is read as that number, whatever follows. |
| QuicVarint.CutVarintWaits | src/http3.rs:131-149 | A number that has not arrived in full is not read. |
| QuicVarint.TypeReads | src/http3.rs:1553-1579 | The type of a stream is the number it starts with, and the rest is its own. |
| Ber.LengthReads | src/ldap.rs:71-88 | Every machine length reads back from its encoding. |
| Ber.LengthIsMinimal | src/ldap.rs:71-88 | No accepted form of a length is shorter than the one written. |
| Ber.TlvReads | src/ldap.rs:91-95 | An element reads back with exactly its bytes. |
| Ber.IntegersAreMinimalAndInverted | src/ldap.rs:119-134 | Every i64 is decoded from what is written, and no shorter two's complement stands for it. |
| Ber.Writer.EncodeLength | src/ldap.rs:71-88 | The scratch-array loop writes the minimal form. |
| Ber.Writer.End | src/ldap.rs:98-117 | Patching the placeholder in place (or splicing a longer length in) equals building the body apart and wrapping it. |
| Ber.Writer.WriteInteger | src/ldap.rs:119-134 | The loop that drops redundant leading bytes ends at the shortest form. |
| Ber.Reader.TakeLength | src/ldap.rs:181-208 | Short and long lengths and their error cases. |
| Ber.Reader.TakeTlv | src/ldap.rs:210-223 | One element is taken off the data. |
| Ber.Reader.DecodeInteger64 | src/ldap.rs:251-261 | Sign extension and shifting compute the two's complement value, which stays within 64 bits. |
| LdapFilter.EncodeFilter | src/ldap.rs:700-794 | At every depth the in-place writer produces the filter's TLV encoding. |
| LdapFilter.EncodingReads | src/ldap.rs:700-794 | Reading a filter's encoding recovers the tree and consumes exactly its bytes. |
| LdapWire.EncodingIsWire | src/ldap.rs:700-794 | At every depth the encoding is the elements of section 4.5.1 of RFC 4511 with their own tags, written out by number. |
| LdapWire.ElementForm | src/ldap.rs:71-95 | An element is its tag, its length in one byte up to 127 and otherwise in counted bytes without leading zeros, and its value. |
| LdapWire.ElementRefused | src/ldap.rs:181-223 | An indefinite length, more than eight length bytes, and fewer bytes than announced are refused. |
| LdapWire.CutIsRefused | src/ldap.rs:210-223 | So is an element whose value was cut short. |
| LdapWire.IntegerRefused | src/ldap.rs:251-261 | An integer is refused exactly if it has no bytes or more than eight. |
| LdapParser.ParseInvertsPrint | src/ldap.rs:464-696 | Every well-formed tree is recovered from its text exactly when it nests at most 64 deep. |
| LdapParser.AcceptedTrees | src/ldap.rs:689-696 | The parser yields exactly the well-formed trees within the depth limit, and each can be written and read again. |
| LdapParser.ParsedIsWellFormed | src/ldap.rs:464-490 | Whatever is accepted is well formed and nests within the limit. |
| LdapParser.SubstringLeaf | src/ldap.rs:531-573 | The initial / any / final split of a substring value is recovered. |
| LdapParser.ExtensibleLeaf | src/ldap.rs:608-686 | All six shapes of an extensible match are recovered. |
| LdapTextParser.FilterParser.ParseFilterAt | src/ldap.rs:464-490 | The cursor parser equals the recursive one and leaves the cursor where it does. |
| LdapTextParser.FilterParser.ParseListAt | src/ldap.rs:492-501 | The list loop. |
| LdapTextParser.FilterParser.ParseSimpleAt | src/ldap.rs:503-530 | Description, `=` and value. |
| LdapTextParser.FilterParser.SubstringLeafOf | src/ldap.rs:531-573 | The loop over segments. |
| LdapTextParser.FilterParser.ExtensibleLeafOf | src/ldap.rs:608-686 | The loop over tokens. |
| LdapTextParser.ParseText | src/ldap.rs:689-696 | A whole text: what is accepted is consumed entirely. |
| Http1Body.ChunkedRoundTrip | src/http.rs:1560-1599 | For every cut of a body into non-empty chunks, with any extensions and trailers, reading returns the body and leaves exactly what follows. |
| Http1Messages.BackToBack | src/http.rs:1503-1558 | Responses sent back to back, each with its method, status and header lines, framed by chunks or by Content-Length in any spelling or without a body, read back as they were sent, and nothing of what follows is consumed. |
| Http1Messages.BodilessReadsNothing | src/http.rs:1503-1509 | Whatever the headers announce and whatever follows, nothing is taken for a response to HEAD, in any case of letters, or with a status from 100 to 199, 204 or 304. |
| Http1Messages.BodilessExactly | src/http.rs:1503-1509 | And those are all the responses that are taken to have no body. |
| Http1Messages.OtherwiseFramed | src/http.rs:1503-1558 | Any other response: chunked beside a Content-Length is refused, lengths that differ, pass 256 MiB or announce more than there is are refused, and with neither the body lasts to the end of input within the cap. |
| Http1Messages.NumeralReads | src/http.rs:1476-1501 | Any spelling of a 64-bit number, with blanks, a plus, leading zeros and letters of either case, is read as that number. |
| Http1Messages.ChunkSizeReads | src/http.rs:1560-1575 | So is a chunk size, with an extension behind it. |
| Http1Messages.ReusableExactly | src/http.rs:622-653 | A connection is reused exactly when the response has an end of its own, no Connection line lists close, and the version is 1.1 or a line lists keep-alive; tokens in any case of letters. |
| Http1Refusals.NumbersExactly | src/http.rs:1560-1575 | A text is a number exactly if it is digits, maybe after a plus, that stand for less than 2^64. |
| Http1Refusals.ChunkIsRefused | src/http.rs:1560-1599 | A chunk is refused exactly if its size is no number or takes the body past 256 MiB, or its data does not end in CR LF; otherwise its data is appended and reading goes on behind it. |
| Http1Refusals.LongLineIsRefused | src/http.rs:1318-1348 | A size line longer than 64 KiB is refused. |
| Unicode.WhiteHeadExactly | src/http.rs:1476-1501 | The trimming around numbers takes off exactly the characters with the Unicode property White_Space, whole characters of them. |
| Unicode.WhiteTailExactly | src/http.rs:1476-1501 | At the end of a text likewise. |
| Http1Body.ContentLengthAgrees | src/http.rs:1476-1501 | A length is found exactly when every part of every Content-Length, without surrounding Unicode white space, is written as that number and there is one; none exactly when there are none. |
| Http1Body.ReusableIsDelimited | src/http.rs:622-653 | Nothing that follows a reusable response changes its body or where it ends, if and only if it is not chunked or its bytes are chunks up to one of size 0 with trailers that end in a blank line. |
| Http1Body.ChunkedIsDelimited | src/http.rs:1560-1599 | Every body framed as chunks meets that condition, with nothing after it too. |
| Http1Body.CutOffIsAccepted | src/http.rs:1581-1590 | The failing input: `0` CR LF at the end of input is accepted as an empty body, and an LF that follows is swallowed. |
| Http1Body.OtherCodingsReadToEnd | src/http.rs:1511-1557 | A transfer coding other than chunked: refused beside a Content-Length, otherwise read to the end of input within the cap. |
| Http1Body.GzipIsReadToEnd | src/http.rs:1511-1557 | The input: `transfer-encoding: gzip` alone is no error. |
| Http1Reader.ByteReader.ReadLineCapped | src/http.rs:1318-1348 | The capped loop takes one line, or refuses it as soon as the cap is passed. |
| Http1Reader.ByteReader.ReadChunked | src/http.rs:1560-1599 | The chunk loop equals the recursive reading. |
| Http1Reader.ByteReader.ReadMessageBody | src/http.rs:1503-1558 | The code equals the function of which Http1Messages.BackToBack, BodilessReadsNothing and OtherwiseFramed speak: no body for HEAD, 1xx, 204 and 304, otherwise framing as the headers announce it. |
| Http1Reader.ParseContentLength | src/http.rs:1476-1501 | The fold over headers and list parts finds the common value or fails. |
| CivilDate.EpochCounts | src/cookie.rs:553-572 | For every 32-bit year the result is the day-by-day count from 1970 on, and None before or with a field out of range, if and only if a field is out of range or the year counted from March is at least -2^31 + 399; below that the arithmetic wraps and a time comes out. |
| CivilDate.FarPastHasATime | src/cookie.rs:553-572 | The failing input: 6 November of the year -2^31, 08:49:37, gives a time in the far future. |
| CivilDate.EpochIsStrictlyIncreasing | src/cookie.rs:553-572 | Later valid moments have larger epoch seconds. |

## Left out

- Dialing, TLS, QUIC, proxies, connection pools, the single-request send path (`send_request_on`,
  `drive_until_stream_done`) and trace output: input and output, or a special case of the multiplexed run.
- The transport is a finite sequence of inbound frames and a number of operations after which writing
  fails; partial writes of one frame, the frame header's own bytes and read timeouts are not modelled.
- Response assembly from a completed stream (`build_response_from_stream_labelled`): a reply in the model is
  the completed stream itself, so a bad `:status` or content coding that the code turns into an error is still a reply here.
- Request headers: `Request.fields` is the list that `build_header_block` passes to the encoder; how it is
  derived from a request is not modelled.
- Hash-map order: where the code walks `streams` in no particular order and may stop half-way (a SETTINGS
  change that overflows a window), the model walks in ascending order. `FindCulprit` is proved for every order.
- Streams are values in a map that the connection reassigns, as the code's map owns them; there is no aliasing to capture.
- Error texts: every failure is the one value `Err`.
- Allocation limits and machine-word sizes: lengths of byte strings are unbounded numbers, except where the code
  checks them; counters that only grow with input (the QPACK insert count, stream windows as 64-bit numbers) are not wrapped.
- CreditProtocol.RunsKeepCredit: both ends start from the windows of 65535 bytes and the receiver never changes them, because
  the client never advertises another initial size (`src/http2.rs:223-226`, 1587-1607). A peer that does is covered on the sending
  side, by the accounts of `Http2Invariants` and `Http2Settings`.
- Http2Pump.PumpIsSafeAndWorkConserving: when a chunk above 2^20 bytes makes the pump fail it promises the accounts only;
  what else happens then is in `Http2Answers.ChunkGoesExactly` and `LargeChunkFailsAll`.
- Http2Answers.RunServes: speaks of frame limits up to 2^20 and of a peer that sends no SETTINGS, RST_STREAM or GOAWAY of its own
  during the run and no END_STREAM on a fragmented block; what those do is in `Http2Replies`, `Http2Turns`, `Http2Isolation`
  and `Http2Fragments`.
- The re-check that slices of a filter's text are UTF-8: a filter is given as text, and its pieces end at ASCII bytes.
- `write_enumerated` and the LDAP messages around a filter: the integer form is `write_integer`'s with another tag.
- The date parsers in front of `CivilDate.EpochFromCivil` (`src/cookie.rs:475-551`), with the 32-bit sum `1900 + y2` of a two-digit year.
- Cookie storage, redirects, compression, and the client's FTP, SMTP, IMAP and other protocols.
