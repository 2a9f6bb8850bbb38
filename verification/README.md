# EAF, modelled and proved

EAF is a C11 audio framework: bytes come in over a network, a radio or a file, and PCM goes out. This
project models its portable core in Dafny and proves that on the way nothing is lost, repeated or
reordered, whatever the other side of each interface does.

Run `dafny verify dfyconfig.toml` to check all of it.

| file | models |
|---|---|
| `common.dfy`, `ring_arithmetic.dfy`, `rings.dfy`, `byte_stream.dfy` | machine integers, power-of-two rings with wrapping cursors, streams fed in chunks |
| `reservoir.dfy`, `spsc.dfy` | the PCM reservoir as a class over its ring storage, and between two threads as a system of atomic steps |
| `player.dfy` | the file player: owner calls against the producer thread, over the same steps |
| `websocket.dfy`, `websocket_frames.dfy`, `websocket_messages.dfy` | the WebSocket receiver, the wire format, whole messages and the encoder |
| `slim_framer.dfy` | the SlimProto framer |
| `json_text.dfy`, `json_reader.dfy`, `json_scan.dfy` | the JSON reader as functions and as the cursor loops, and the agreement of its two ways to read |
| `json_print.dfy`, `json_layout.dfy` | JSON values and their text, printed and laid out with white space, and what the reader makes of it |
| `json_writer.dfy`, `sendspin_messages.dfy` | the bounded writer, the three builders |
| `pcm_bytes.dfy`, `pcm_frames.dfy`, `lms_feed.dfy`, `lms_client.dfy` | PCM samples in bytes, the LMS client's data path and its stream machine |
| `pipeline.dfy`, `i2s_core.dfy` | the pipeline's lifecycle and the I2S sink, under failing nodes, sinks and backends |
| `gain_mailbox.dfy`, `pause_handshake.dfy` | the output owner's volume mailbox and pause handshake, step by step |
| `decoder_input.dfy`, `decode_worker.dfy`, `bluetooth.dfy` | the decode worker over the input ring and the PCM adapter; the Bluetooth queue and decoder |
| `resampler.dfy`, `dsp.dfy` | fixed-point arithmetic |

Foreign calls (sinks, nodes, sockets, codecs, callbacks) are parameters or functions that may return
anything their contracts allow. A callback that is told things may base its answer on everything it was
told so far. Where a lifecycle matters, every call out is logged in a ghost field; each class keeps its log
lawful by rules written down without looking at its fields, and the theorems are about all lawful logs.

Concurrent parts are systems of steps, one atomic access or one copied frame each, in any order. Loads of
the other thread's cursor in the reservoir and in the Bluetooth queue may return any earlier value that
release/acquire order allows.

A byte is `bv8` where the code masks it, an integer below 256 where it computes with it, and a `char` in
JSON text, which the code only compares.

Where documents and code differ, the code is followed: `arch.md:230` sends an underrun back to
prebuffering until the high watermark is reached; `core/eaf_reservoir.c:107-134` resumes at the next pull,
as `docs/architecture-v0.5.md:97` says. `apps/lms/lms_client.c:61-79` does not empty the ingress ring on a
stop, so a stream started over leftover bytes plays them first: the conservation law is proved with those
bytes counted, and the law without them is proved to hold exactly when there are none.

The JSON reader does not read all JSON: `skip_value` refuses white space between a comma and the next key of an
object (`apps/sendspin/sendspin_protocol.c:76-96`), which section 2 of RFC 8259 allows and which the scan and the
lookup accept in the objects they descend through. `JsonLayout` has the input, and proves for every laid-out value
that it is read if and only if it has no such place where it is skipped.

## Model

| member | source | states |
|---|---|---|
| Reservoirs.StorageStore | core/eaf_reservoir.c:4-15 | The two-part copy writes exactly the stream positions it should, modulo the ring, and keeps the rest of the last lap. |
| Reservoirs.StorageLoad | core/eaf_reservoir.c:16-27 | The two-part copy reads consecutive stream positions, modulo the ring. |
| Reservoirs.Reservoir.constructor | core/eaf_reservoir.c:28-45 | A reservoir with accepted parameters starts empty and prebuffering. |
| Reservoirs.Reservoir.Reset | core/eaf_reservoir.c:46-54 | Reset forgets every frame and the end mark, and keeps the wake hook. |
| Reservoirs.Reservoir.Level | core/eaf_reservoir.c:55-60 | The wrapped cursor distance is the number of queued frames. |
| Reservoirs.Reservoir.Backpressure | core/eaf_reservoir.c:61-63 | Backpressure is asserted exactly from nine tenths of the capacity on. |
| Reservoirs.Reservoir.Write | core/eaf_reservoir.c:64-75 | A write appends as many frames as fit to the queue, in order; none once the stream is finished. |
| Reservoirs.Reservoir.Finish | core/eaf_reservoir.c:76-79 | Finish sets the end mark and nothing else. |
| Reservoirs.Reservoir.Pull | core/eaf_reservoir.c:80-148 | A pull hands out the oldest frames, fills the rest with the fade or silence, sets the flags and the phase, and leaves everything else alone; bad buffers change nothing. |
| Reservoirs.PlaysFromTheWatermark | core/eaf_reservoir.c:93-143 | By the numbers: a prebuffering reservoir starts exactly when the watermark and the whole block are there; one that has started gives what there is, a short block being an underrun; after finish the block that empties the queue, and only it, is EOS. |
| Reservoirs.RampedBlock | core/eaf_reservoir.c:114-130 | After its real frames an underrun block holds, channel by channel, the fade of the last real sample, or of where the previous block ended. |
| Reservoirs.FadeIsALine | core/eaf_reservoir.c:126-130 | The fade is the straight line down to zero over at most 16 frames, rounded toward zero, then silence. |
| Reservoirs.Reservoir.HistoryIsTheLastFrame | core/eaf_reservoir.c:131-137 | What is kept for the next fade is the last frame of a full block, and silence after an underrun. |
| Reservoirs.FadeDescends | core/eaf_reservoir.c:107-134 | The fade after a starved block never gets louder. |
| Reservoirs.FadeEndsSilent | core/eaf_reservoir.c:107-134 | The fade ends in silence. |
| Reservoirs.DrainTakesCeilingPulls | core/eaf_reservoir.c:76-105 | After finish, a level of L drains in exactly max(1, ceil(L / n)) pulls of n, the last one marked EOS, with no underrun. |
| Reservoirs.DrainDeliversTheQueue | core/eaf_reservoir.c:76-105 | Those pulls deliver the whole queue, in order, before any padding. |
| SpscSteps.StepKeepsInv | core/eaf_reservoir.c:4-26 | Each atomic load, copied frame and publication of either thread keeps the two-thread invariant. |
| SpscSteps.EveryRunDeliversAPrefix | core/eaf_reservoir.c:64-148 | In every interleaving, with stale loads and cursor wrap, the frames pulled are a prefix of those accepted, at most one ring is unread, and EOS means everything was delivered. |
| SpscSteps.NothingFollowsEos | core/eaf_reservoir.c:76-105 | After a block flagged EOS no run changes what was accepted or delivered. |
| SpscSteps.CopiesAreDisjoint | core/eaf_reservoir.c:4-26 | A slot being written is never one that the other thread is reading or has still to read. |
| SpscSteps.WriteNeverOverfills | core/eaf_reservoir.c:64-75 | The room computed from a stale read cursor never exceeds the real room. |
| SpscSteps.PublishedByTheNumbers | core/eaf_reservoir.c:86-140 | Between two threads too, a pull starts, plays, underruns and ends by the numbers of frames that the consumer has seen. |
| PlayerSteps.StepKeepsInv | apps/player/eaf_player.c:5-45 | Each step of the owner or of the producer thread keeps the invariant of the player. |
| PlayerSteps.EveryRunPlaysTheSource | apps/player/eaf_player.c:5-45 | In every run of owner calls and producer steps, the frames consumed since the last start are a contiguous run of the source from its position there, and a reported EOF means that run reached the end. |
| PlayerSteps.ResetIsQuiescent | apps/player/eaf_player.c:81-104 | The reservoir is emptied only while the producer is gated or joined, and no step it could take then touches the reservoir. |
| PlayerSteps.SeekRestartsAt | apps/player/eaf_player.c:121-133 | Over every run: after eaf_player_seek(frame) has sought the source, what is consumed from its reset on is a run of the source from that frame, through the restart, failed starts and a later start by the owner, until a start or a seek that comes after frames were read; an EOF reported in it means all of the source from that frame; and the seek starts the thread exactly when the pipeline was running at the call. |
| PlayerSteps.StartOpensTheGate | apps/player/eaf_player.c:81-104 | In every run a start that returned OK has left the pipeline running, the gate open and a producer that is free to leave it. |
| PlayerSteps.StopJoinsTheProducer | apps/player/eaf_player.c:105-120 | A stop joins only after telling the producer to quit, and one that returned OK has joined it and stopped the pipeline. |
| WebSocket.StepSane | apps/sendspin/sendspin_ws.c:169-270 | One byte of input keeps the receiver well formed. |
| WebSocket.FeedConcat | apps/sendspin/sendspin_ws.c:169-270 | Feeding a then b is feeding a ++ b: same callbacks, same first error, same end state. |
| WebSocket.FeedPayloadRun | apps/sendspin/sendspin_ws.c:215-250 | Taking a run of payload at once is taking it byte by byte. |
| WebSocket.XorWord | apps/sendspin/sendspin_ws.c:226-234 | One word-wide exclusive or is four byte-wide ones. |
| WebSocket.XorBits | apps/sendspin/sendspin_ws.c:219-243 | What unmasking computes is the exclusive or of bytes, bit by bit. |
| WebSocket.UnmaskInto | apps/sendspin/sendspin_ws.c:219-243 | The byte, word and tail loops together unmask by the per-byte rule of section 5.3 of RFC 6455 and write nothing else. |
| WebSocket.ReadBigEndian | include/eaf/eaf_bytes.h:13-18 | The accumulator loop reads a big-endian number. |
| WebSocket.Receiver.CheckOpcode | apps/sendspin/sendspin_ws.c:146-161 | Opcodes are admitted by the fragmentation rules of section 5.4 of RFC 6455. |
| WebSocket.Receiver.CheckLength | apps/sendspin/sendspin_ws.c:162-166 | A frame is admitted exactly when its payload fits the room that is left. |
| WebSocket.Receiver.BeginFrame | apps/sendspin/sendspin_ws.c:132-167 | begin_frame reads length and key and admits or refuses the frame. |
| WebSocket.Receiver.Dispatch | apps/sendspin/sendspin_ws.c:247-266 | A complete payload is told once and the receiver waits for the next header; a failing callback stops it. |
| WebSocket.Receiver.RxFeed | apps/sendspin/sendspin_ws.c:169-270 | The receive loop over a chunk refines the byte-wise specification: state, callbacks and result. |
| WebSocketFrames.BigEndianOfBytes | include/eaf/eaf_bytes.h:30-33 | Writing a number big-endian and reading it back gives the number, for every number that fits. |
| WebSocketFrames.MaskTwice | apps/sendspin/sendspin_ws.c:219-243 | Masking twice with one key is the identity. |
| WebSocketFrames.HeaderReads | apps/sendspin/sendspin_ws.c:132-145 | The receiver reads back from a header what the sender put there, for all three length forms, masked or not. |
| WebSocketFrames.WireLayout | apps/sendspin/sendspin_ws.c:84-118 | A frame on the wire is laid out as sections 5.2 and 5.3 of RFC 6455 draw it, byte by byte. |
| WebSocketFrames.FeedFrame | apps/sendspin/sendspin_ws.c:169-270 | A whole frame has one effect however its bytes arrive. |
| WebSocketFrames.AfterIsOnFrame | apps/sendspin/sendspin_ws.c:132-266 | That effect is what sections 5.4 and 5.5 of RFC 6455 say of the frame, with the refusals of the code. |
| WebSocketFrames.FramesAreJudged | apps/sendspin/sendspin_ws.c:132-266 | Any frame is refused as the code refuses it, or told, or joined to the open message, which its final fragment tells whole. |
| WebSocketMessages.FeedFrames | apps/sendspin/sendspin_ws.c:169-270 | The byte-level receiver refines the frame-level one over any list of frames. |
| WebSocketMessages.ChunksDoNotMatter | apps/sendspin/sendspin_ws.c:169-270 | Any split of a byte stream into chunks gives the same result. |
| WebSocketMessages.ToldOnceInOrder | apps/sendspin/sendspin_ws.c:247-258 | Events are told once and in order, all of them unless a callback fails. |
| WebSocketMessages.ItemsAreTold | apps/sendspin/sendspin_ws.c:146-266 | Messages cut into parts with control frames in between are collected again. |
| WebSocketMessages.MessagesAreDelivered | apps/sendspin/sendspin_ws.c:169-270 | Every message, however fragmented, masked, interleaved with control frames and split into chunks, is delivered once, in order, with its exact payload. |
| WebSocketMessages.DanglingWaits | apps/sendspin/sendspin_ws.c:187-214 | Exactly the unmasked empty frame at the very end waits for one more byte. |
| WebSocketMessages.Encode | apps/sendspin/sendspin_ws.c:84-121 | The encoder writes exactly one masked final frame in the shortest form, or nothing when it does not fit. |
| WebSocketMessages.EncodedIsShortest | apps/sendspin/sendspin_ws.c:84-108 | The encoded frame is final and masked, has the shortest of the three lengths, and its key is the given one, least significant byte first. |
| WebSocketMessages.EncodedIsDelivered | apps/sendspin/sendspin_ws.c:84-121 | Any list of encoded payloads, in any split, is delivered once, in order, with exact payloads. |
| SlimFramer.FeedConcat | apps/lms/lms_protocol.c:7-43 | Feeding a then b is feeding a ++ b: same packets, same first error, same end state. |
| SlimFramer.PacketsAreDelivered | apps/lms/lms_protocol.c:7-43 | Every framed packet of 4 to 2048 bytes is handed over once and in order, until a callback fails. |
| SlimFramer.ChunksDoNotMatter | apps/lms/lms_protocol.c:7-43 | Any split of the stream gives the same result. |
| SlimFramer.BadLengthStops | apps/lms/lms_protocol.c:13-22 | A length outside 4 to 2048 stops the parser before any byte of the packet. |
| SlimFramer.Parser.Receive | apps/lms/lms_protocol.c:7-43 | The feed loop refines the byte-wise specification; a failed parser only says so. |
| JsonText.SkipValue | apps/sendspin/sendspin_protocol.c:70-155 | A skipped value consumes at least one byte and ends inside the text; so the mutual recursion ends. |
| JsonReader.Cursor.SkipSpace | apps/sendspin/sendspin_protocol.c:10-13 | The loop stops at the first byte that is not white space. |
| JsonReader.Cursor.ReadString | apps/sendspin/sendspin_protocol.c:15-36 | The scan loop finds the closing quote past escapes, or reports a broken string. |
| JsonReader.Cursor.PassNumber | apps/sendspin/sendspin_protocol.c:46-68 | The number loops pass sign, digits, fraction and exponent. |
| JsonReader.Cursor.PassObject | apps/sendspin/sendspin_protocol.c:70-105 | The member loop passes exactly an object. |
| JsonReader.Cursor.PassArray | apps/sendspin/sendspin_protocol.c:107-131 | The element loop passes exactly an array. |
| JsonReader.Cursor.PassValue | apps/sendspin/sendspin_protocol.c:133-155 | The dispatcher passes exactly a value. |
| JsonReader.Cursor.ReadNumber | apps/sendspin/sendspin_protocol.c:157-192 | The saturating loop reads the int64 nearest to what the digits say, for any number of digits, and refuses fractions. |
| JsonReader.Cursor.ReadValue | apps/sendspin/sendspin_protocol.c:194-243 | parse_value reports kind, value and raw text. |
| JsonReader.Cursor.ReadMembership | apps/sendspin/sendspin_protocol.c:245-285 | The membership loop raises the flag when an element is the needle; an array leaves a raised flag up, another value lowers it. |
| JsonReader.Cursor.ReadFields | apps/sendspin/sendspin_protocol.c:299-360 | The one-pass scan fills each field from the first member with its key. |
| JsonReader.Cursor.GoInto | apps/sendspin/sendspin_protocol.c:362-403 | descend finds the first member with a key, or tells a missing one from a broken object. |
| JsonReader.Get | apps/sendspin/sendspin_protocol.c:405-422 | The dotted lookup descends segment by segment. |
| JsonReader.Contains | apps/sendspin/sendspin_protocol.c:424-431 | An array value contains a string when an element is that string. |
| JsonScan.MembershipSkips | apps/sendspin/sendspin_protocol.c:245-285 | The membership test consumes exactly one value. |
| JsonScan.ValueInWindow | apps/sendspin/sendspin_protocol.c:133-155 | A value is skipped the same way in any window of the text that holds it. |
| JsonScan.MembersAgree | apps/sendspin/sendspin_protocol.c:299-431 | A scan gives each field what a search for its key alone gives. |
| JsonScan.ScanAgreesWithGet | apps/sendspin/sendspin_protocol.c:299-431 | Whenever the scan succeeds with distinct dot-free keys, a value is found exactly when the lookup finds it, and equal; and a member flag that starts down ends as what looking into the looked-up array says (one that starts up stays up over arrays and for missing keys). |
| JsonPrint.EscapeRoundTrip | apps/sendspin/sendspin_protocol.c:733-771 | Every byte string unescapes, by section 7 of RFC 8259, to the original. |
| JsonPrint.QuoteEnds | apps/sendspin/sendspin_protocol.c:15-36 | A printed string ends at its own closing quote. |
| JsonPrint.IntegerReads | apps/sendspin/sendspin_protocol.c:157-192 | A printed integer is read back exactly, or clamped to the nearest int64. |
| JsonLayout.PrintSkips | apps/sendspin/sendspin_protocol.c:70-155 | skip_value consumes a printed value to its end, whatever surrounds it. |
| JsonLayout.PrintReads | apps/sendspin/sendspin_protocol.c:194-243 | parse_value reads a printed value back. |
| JsonLayout.GetIsLookup | apps/sendspin/sendspin_protocol.c:362-422 | A dotted lookup in printed JSON is a lookup in the value that was printed, errors included. |
| JsonLayout.PrintThenGet | apps/sendspin/sendspin_protocol.c:405-422 | Printing and then reading gives the value back at every path. |
| JsonLayout.MembershipReads | apps/sendspin/sendspin_protocol.c:245-285 | A string is found in a printed value exactly when it is an array with that string as an item; a flag that was up stays up over an array. |
| JsonLayout.ContainsReads | apps/sendspin/sendspin_protocol.c:424-431 | Asking a value that was read whether it contains a string asks whether it is an array with that string. |
| JsonLayout.OnlyBlanksAreSkipped | apps/sendspin/sendspin_protocol.c:10-13 | Exactly space, tab, line feed and carriage return are passed over as white space. |
| JsonLayout.RealReads | apps/sendspin/sendspin_protocol.c:46-68 | A number with a fraction or an exponent is passed over whole, and refused where a value is read. |
| JsonLayout.TextSkips | apps/sendspin/sendspin_protocol.c:70-155 | With white space wherever section 2 of RFC 8259 allows it, skip_value passes a value to its end if and only if no object in it has white space between a comma and the next key. |
| JsonLayout.TextReads | apps/sendspin/sendspin_protocol.c:194-243 | parse_value reports a value laid out with white space under the same condition, unless it is a number that is no integer. |
| JsonLayout.MembershipFinds | apps/sendspin/sendspin_protocol.c:245-285 | In a laid-out array a string is found exactly when it is an item behind items that skip_value passes. |
| JsonLayout.LaidOutIsRead | apps/sendspin/sendspin_protocol.c:362-422 | Whatever white space stands in a text, a dotted lookup finds what is there if and only if skip_value passes what it goes over and ends at. |
| JsonLayout.BlankAfterCommaHides | apps/sendspin/sendspin_protocol.c:70-105 | The input for which it does not: white space behind a comma in a nested object hides the members behind that object. |
| JsonLayout.ScanReaches | apps/sendspin/sendspin_protocol.c:299-360 | The one-pass scan of a laid-out object succeeds only if skip_value passes every value in it, and then always unless one is a number that is no integer. |
| JsonWriter.WriteDecimal | include/eaf/eaf_bytes.h:35-47 | The digit loop writes the decimal form, at most twenty digits, or nothing. |
| JsonWriter.Writer.Raw | apps/sendspin/sendspin_protocol.c:696-711 | The writer holds everything asked for exactly while it fits. |
| JsonWriter.Writer.Signed | apps/sendspin/sendspin_protocol.c:724-731 | Every int64, the minimum included, is written in decimal. |
| JsonWriter.Writer.String | apps/sendspin/sendspin_protocol.c:733-771 | The escaping loop writes the quoted string. |
| SendspinMessages.WriteFormat | apps/sendspin/sendspin_protocol.c:791-805 | A format is written as a JSON object; its depth only for PCM. |
| SendspinMessages.WriteFormats | apps/sendspin/sendspin_protocol.c:841-856 | The named formats are written in order, or the one fallback. |
| SendspinMessages.BuildHello | apps/sendspin/sendspin_protocol.c:814-872 | The hello builder writes exactly the JSON of its record, and fails exactly when it does not fit. |
| SendspinMessages.BuildTime | apps/sendspin/sendspin_protocol.c:874-883 | The time builder writes exactly the JSON of its record, and fails exactly when it does not fit. |
| SendspinMessages.BuildState | apps/sendspin/sendspin_protocol.c:885-902 | The state builder writes exactly the JSON of its record, and fails exactly when it does not fit. |
| SendspinMessages.BuiltRecordsReadBack | apps/sendspin/sendspin_protocol.c:814-902 | Every built text is one value consumed to its end, and every path finds its field in it. |
| SendspinMessages.TimeReadsBack | apps/sendspin/sendspin_protocol.c:874-883 | Every int64 timestamp is read back exactly. |
| SendspinMessages.NameReadsBack | apps/sendspin/sendspin_protocol.c:814-872 | A name with any bytes in it is read back and unescapes to itself. |
| SendspinMessages.StateReadsBack | apps/sendspin/sendspin_protocol.c:885-902 | Each field of a state record is read back from its text with its own value. |
| SendspinMessages.HelloReadsBack | apps/sendspin/sendspin_protocol.c:814-872 | Each field of a hello record, the optional ones included, is read back from its text with its own value, and the commands exactly as supported. |
| SendspinMessages.FormatReadsBack | apps/sendspin/sendspin_protocol.c:791-805 | Each field of a format is read back from its text. |
| SendspinMessages.FormatsInOrder | apps/sendspin/sendspin_protocol.c:841-856 | Every format with a known codec stands in the list at its place among those. |
| SendspinMessages.FallbackStandsIn | apps/sendspin/sendspin_protocol.c:841-856 | Without any, the list holds the one format of the record itself, as PCM. |
| PcmBytes.SampleIsLeftJustified | apps/lms/lms_client.c:332-347 | Widening a sample moves its own bits to the top of 32 and leaves zeros below. |
| PcmBytes.StoredReads | apps/lms/lms_client.c:332-347 | Every number that fits w bytes as two's complement, stored in either byte order, is read back times 2^(32-8w). |
| PcmFrames.DecodedGroups | apps/lms/lms_client.c:326-353 | Cutting a stream into frames and decoding each one is decoding the stream. |
| PcmFrames.StoredStreamReads | apps/lms/lms_client.c:326-353 | A stream of stored frames, with any leftover behind it, decodes to those frames in order. |
| LmsFeed.ReadSample | apps/lms/lms_client.c:332-347 | The byte loop reads a sample in either byte order, sign-extended and widened. |
| LmsFeed.Feed.Fill | apps/lms/lms_client.c:308-324 | Body bytes enter the ring whole or not at all, and the content length counts them. |
| LmsFeed.Feed.DecodeByte | apps/lms/lms_client.c:329-347 | A byte goes to the tail, and a full tail becomes the next frame of the chunk. |
| LmsFeed.Feed.Decode | apps/lms/lms_client.c:326-353 | Decoding stops when the chunk is full or the ring is empty, and keeps every byte. |
| LmsFeed.Feed.Flush | apps/lms/lms_client.c:355-378 | The callback takes a prefix of the waiting frames. |
| LmsFeed.Feed.NothingLost | apps/lms/lms_client.c:308-377 | bytes_received plus bytes already in the ring at strm s = frame bytes x (accepted + waiting) + tail + ring, and the accepted frames are a prefix of the decoded input. |
| LmsFeed.Feed.AllTaken | apps/lms/lms_client.c:441-449 | When the ring, the tail and the chunk are empty, everything received was accepted. |
| LmsClient.Client.Enqueue | apps/lms/lms_client.c:29-44 | A packet is queued behind all earlier ones when it fits, and not at all otherwise. |
| LmsClient.PacketLayout | apps/lms/lms_client.c:37-42 | A packet is its opcode, the length of its body, most significant byte first, and the body. |
| LmsClient.Client.Sent | apps/lms/lms_client.c:519-527 | What was sent is a prefix of what was queued. |
| LmsClient.Client.StopStream | apps/lms/lms_client.c:61-79 | Stopping clears the flags and the chunk, not the ring. |
| LmsClient.Client.StartStream | apps/lms/lms_client.c:154-203 | strm s stops what played and starts a fresh stream over whatever the ring holds, exactly when its parameters are supported and connection and output start; otherwise nothing plays and nothing is said. |
| LmsClient.Client.ServiceBuffered | apps/lms/lms_client.c:380-407 | Ready, release and drained happen exactly when due: afterwards nothing due is left undone, the story grows by the flags that went up, and the server hears the matching notices. |
| LmsClient.Client.FlushPcm | apps/lms/lms_client.c:355-378 | The waiting frames are shown once; what the callback took leaves the chunk and counts towards readiness; taking more than was shown, or than the output holds, is an error. |
| LmsClient.Client.FinishInput | apps/lms/lms_client.c:441-453 | End of input is reported only when everything was accepted and the tail is empty; then what is due is said and released. |
| LmsClient.Client.Receive | apps/lms/lms_client.c:454-508 | Nothing is read while the body is complete, the ring is full or the request is not out; what arrives goes to the header and the ring whole, and a close counts only where the body may end. |
| LmsClient.Client.PumpHttp | apps/lms/lms_client.c:408-509 | Before cont, and in a start wait without a buffer-aware callback, no data moves; otherwise the callback gets the waiting frames and then the next chunk, and either the input ends with everything accepted or what arrived is taken in. The stream stays sound under any results of the socket and the callbacks. |
| LmsClient.Client.ResumeOutput | apps/lms/lms_client.c:122-141 | strm u is accepted after cont, to end the start wait once STMl is out, or else with the consent of the output; refused, it changes nothing. |
| LmsClient.Client.HoldOutput | apps/lms/lms_client.c:142-151 | strm p is accepted while a stream plays on an output that pauses; refused, it changes nothing. |
| LmsClient.Client.DrainRing | apps/lms/lms_client.c:429-445 | The callback takes only waiting frames, or all of them and then from the chunk made next out of the ring. |
| LmsClient.Client.Obey | apps/lms/lms_client.c:80-203 | Each command is refused without any effect, or has its whole effect on the stream and the answers; the stream stays sound. |
| LmsClient.Client.Step | apps/lms/lms_client.c:511-547 | A step keeps the client sound and pumps the stream; any error, of the control connection too, ends the stream and forgets what was queued. |
| LmsClient.Client.Serve | apps/lms/lms_client.c:534-541 | Control packets are obeyed one by one, up to the first that fails. |
| LmsClient.Client.Connect | apps/lms/lms_client.c:212-230 | A connection starts with the HELO packet alone in the queue, or not at all. |
| LmsClient.Client.Report | apps/lms/lms_client.c:577-592 | STMs goes out once, when playback has started after cont and the start wait; STMt otherwise. |
| LmsClient.OnceInOrder | apps/lms/lms_client.c:380-407 | Release, STMl, STMs and STMd each happen at most once, and release, STMl and STMd in their order. |
| LmsClient.ReleaseIsEarned | apps/lms/lms_client.c:380-407 | Release happens only after cont, after strm u when a start wait was asked for, and at the ready level or the end of input; STMd only after both the end and the release; STMs only after cont and the start wait; no PCM before cont when the ring was empty at strm s. |
| LmsClient.Client.StreamIsSound | apps/lms/lms_client.c:308-509 | In every state of a stream nothing is lost, repeated or reordered; the promised byte count holds exactly when the ring was empty at strm s; the end of input means all of it was accepted; nothing forbidden has happened. |
| Pipelines.Pipeline.Release | core/eaf_graph.c:3-19 | The sink goes down first, then the nodes in reverse; a sink that will not go leaves all in place and the pipeline in recovery. |
| Pipelines.Pipeline.Init | core/eaf_graph.c:20-39 | A configuration is taken only by an uninitialized pipeline and only with ordered stages. |
| Pipelines.Pipeline.InitNodes | core/eaf_graph.c:52-69 | Either every node is up or none is. |
| Pipelines.Pipeline.NodesComeUp | core/eaf_graph.c:55-69 | The nodes come up exactly when each init succeeds and answers with a valid format of the same rate and no fewer channels than it was handed. |
| Pipelines.Pipeline.Configure | core/eaf_graph.c:40-80 | Configuring brings up every node and the sink, or takes down what it brought up. |
| Pipelines.Pipeline.Start | core/eaf_graph.c:81-98 | The source is emptied and the sink started; a sink that fails to start is stopped again, and a failure of that is reported first. |
| Pipelines.Pipeline.Process | core/eaf_graph.c:99-150 | Outside RUNNING nothing is called. What is committed is the block that was made, or silence in the sink's own storage; the result, the state and the end of the stream follow, and after the end nothing is committed. |
| Pipelines.Pipeline.Stop | core/eaf_graph.c:151-166 | Only RUNNING and RECOVERY stop; a failing sink keeps the state. |
| Pipelines.Pipeline.Deinit | core/eaf_graph.c:167-177 | A deinit that succeeds leaves no node up and no sink owed. |
| Pipelines.Pipeline.ChainKeepsBuffer | core/eaf_graph.c:117-131 | However nodes misbehave, a block that passes the checks is still the sink's own buffer. |
| Pipelines.Pipeline.GoodBlocks | core/eaf_graph.c:111-135 | A block is good exactly when the pull and every node succeeded, each left the sink's buffer in place and a valid format that only grows, and the last format is the output's. |
| Pipelines.InitsAreMatched | core/eaf_graph.c:3-80 | Over every run, init calls of a node exceed its deinit calls exactly while it is live, by one. |
| Pipelines.NothingAfterTheLast | core/eaf_graph.c:99-150 | Over every run, no block is committed between the one that ends the stream and the next start. |
| Pipelines.DeinitsAreReversed | core/eaf_graph.c:3-19 | Over every run, a node goes down only when the sink is down and it is the last node up. |
| Pipelines.CommitsAreConfigured | core/eaf_graph.c:99-150 | Over every run, a committed block lies in the sink's own storage, with the format and the length that the sink was last brought up with, while every node is up and the sink is started. |
| Pipelines.Pipeline.StateMeansUp | core/eaf_graph.c:40-166 | In CONFIGURED, RUNNING and STOPPED every node has had one init more than deinits, and the sink was brought up in the output format and not touched since; RUNNING is exactly when it is started. |
| I2sCore.Core.DrainQueue | hal/common/sink_i2s_core.c:16-29 | The queue is drained and then disabled, and started is cleared exactly when both succeeded. |
| I2sCore.Core.Pause | hal/common/sink_i2s_core.c:31-43 | A pause succeeds only without a held block, drains a started clock first and leaves it stopped; a resume touches nothing else. |
| I2sCore.Core.Init | hal/common/sink_i2s_core.c:45-67 | Only an unconfigured sink is configured, and only for stereo. |
| I2sCore.Core.Acquire | hal/common/sink_i2s_core.c:82-96 | One block at a time, and only while running and not paused. |
| I2sCore.Core.Submit | hal/common/sink_i2s_core.c:109-116 | A block leaves only when it was written whole. |
| I2sCore.Core.Commit | hal/common/sink_i2s_core.c:98-123 | Only the sink's own held block is taken; enable, write, start and drain happen in order up to the first that fails, and the block stays held exactly when it was not written whole. |
| I2sCore.Core.Stop | hal/common/sink_i2s_core.c:125-147 | The held block is given back before the queue is drained, then the backend drops; a failure keeps the sink running. |
| I2sCore.Core.Deinit | hal/common/sink_i2s_core.c:149-161 | After a deinit that succeeded every block was freed or written. |
| I2sCore.BlocksAreConserved | hal/common/sink_i2s_core.c:82-147 | Over every run, blocks allocated = freed + written whole + the one held. |
| I2sCore.StopsAreClean | hal/common/sink_i2s_core.c:16-29 | Over every run, the clock is found stopped only after a drain, and a disable where there is one, succeeded. |
| I2sCore.Core.NothingLeaks | hal/common/sink_i2s_core.c:16-161 | Held implies running; paused implies neither started nor held. |
| GainMailbox.ReadKeepsInv | platform/esp32_output/board_output.c:54-63 | A read that sees an unchanged even sequence has the words of one call. |
| GainMailbox.GainsComeFromOneCall | platform/esp32_output/board_output.c:46-63 | In every interleaving with fewer than 2^31 calls during one read, the gains in force are unity or come from one and the same call, one that really began. |
| GainMailbox.TornAfterWrap | platform/esp32_output/board_output.c:46-63 | With 2^31 calls inside one read they need not. |
| GainMailbox.LastCallIsApplied | platform/esp32_output/board_output.c:46-63 | Once a call has run to its end, the next undisturbed read applies its pair. |
| PauseHandshake.StepKeepsInv | platform/esp32_output/board_output.c:64-128 | Each atomic access of the worker and of the transport thread keeps the handshake invariant. |
| PauseHandshake.NoBlockWhilePaused | platform/esp32_output/board_output.c:113-128 | In every interleaving no block is processed between a pause(true) that returned OK and the next pause(false) or release. |
| PauseHandshake.PauseIsTaken | platform/esp32_output/board_output.c:69-77 | A requested pause that is not withdrawn is acknowledged and waited in within six steps of the worker, whatever else happens. |
| PauseHandshake.PlaybackGoesOn | platform/esp32_output/board_output.c:69-110 | With no pause requested, one just withdrawn included, eight steps of the worker finish another block. |
| DecoderInput.Input.Push | core/eaf_dec_input.c:25-39 | Push takes what fits, in order, across the wrap. |
| DecoderInput.Input.Read | core/eaf_dec_input.c:41-65 | Read gives the oldest bytes, as many as there are. |
| DecodeWorker.PcmSample | apps/decoders/dec_pcm.c:26-38 | The byte loop reads a little-endian sample, sign-extended and widened. |
| DecodeWorker.PcmDecoder.Open | apps/decoders/dec_pcm.c:3-18 | Only supported PCM opens, with an empty ring. |
| DecodeWorker.Opens | apps/decoders/dec_pcm.c:3-18 | What opens is PCM of 16, 24 or 32 bits at the output's rate, with its channels or mono for stereo, and nothing else. |
| DecodeWorker.PcmDecoder.PullFrame | apps/decoders/dec_pcm.c:45-55 | One frame is converted, mono doubled for a stereo output. |
| DecodeWorker.PcmDecoder.Pull | apps/decoders/dec_pcm.c:40-58 | A pull converts as many whole frames as are buffered and wanted, and keeps the rest. |
| DecodeWorker.Worker.Open | core/eaf_decoder.c:61-73 | A worker opens, or opens again, with an empty stream; a refusal leaves it as it was. |
| DecodeWorker.Worker.Push | core/eaf_decoder.c:79-89 | Nothing is taken while frames wait for the sink. |
| DecodeWorker.Worker.Drain | core/eaf_decoder.c:91-99 | The sink gets the oldest waiting frames. |
| DecodeWorker.Worker.Step | core/eaf_decoder.c:101-130 | Waiting frames are offered again and nothing else happens; otherwise as many frames as the ring holds and the scratch buffer fits are decoded, and the sink takes what it will of them. |
| DecodeWorker.Worker.Reset | core/eaf_decoder.c:132-142 | Waiting frames are counted as dropped. |
| DecodeWorker.Worker.NothingLost | core/eaf_decoder.c:79-130 | Accepted bytes = frame bytes x (frames written + frames waiting) + ring bytes, and what the sink received is a prefix of the converted stream. |
| Bluetooth.Ingress.Receive | apps/bt/bt_ingress.c:8-37 | A packet is accepted, dropped or rejected by the code's rules, and marked exactly when something is missing in front of it. |
| Bluetooth.Ingress.Pop | apps/bt/bt_ingress.c:38-53 | Packets leave in the order they were accepted, across the cursor wrap and with a stale cursor. |
| Bluetooth.Ingress.UnmarkedFollows | apps/bt/bt_ingress.c:8-53 | A delivered packet is unmarked exactly when it is the first or directly follows the one delivered before it with nothing lost between. |
| Bluetooth.Decoder.Reject | apps/bt/bt_decoder.c:19-26 | A rejection counts, drops the rest of the packet and reports the reset's own failure first. |
| Bluetooth.PacketIsUsedUp | apps/bt/bt_decoder.c:50-68 | The checks made frame by frame hold together exactly when every frame is good and the packet is used up by its frame count, not earlier and not later. |
| Bluetooth.EachPacketIsUsedUpOrRejected | apps/bt/bt_decoder.c:19-68 | Over every run, each packet opened before the latest is either used up exactly by its frames, all of which passed, or rejected or cut off by a reset; never both. |
| Bluetooth.KeptSince | apps/bt/bt_decoder.c:27-68 | Between resets the samples kept grow by exactly those of the frames that passed, in order. |
| Bluetooth.Decoder.Reset | apps/bt/bt_decoder.c:2-10 | A reset throws away exactly the samples that wait and the rest of the packet. |
| Bluetooth.Decoder.NextPacket | apps/bt/bt_decoder.c:38-49 | The next packet starts at its first byte; a failing reset after a gap rejects it. |
| Bluetooth.Decoder.DecodeFrame | apps/bt/bt_decoder.c:50-68 | A frame enters exactly when it passes every check, the packet's end included, and the last one ends the packet exactly; otherwise the packet is rejected. |
| Bluetooth.Decoder.Step | apps/bt/bt_decoder.c:27-68 | Old PCM goes first, and stops everything while the reservoir is full; then exactly one frame is decoded, from the packet at hand or the next one, and either enters or has its packet rejected, by the checks of the code. |
| Bluetooth.Decoder.NothingLost | apps/bt/bt_decoder.c:27-68 | From any moment up to the next reset, the samples of every frame that passed since then enter the reservoir once and in order, behind those kept before, or wait to; the packets taken from the queue are opened once, in its order, and each is used up exactly or rejected. |
| Resampler.ProductFits | core/eaf_sync.c:37-43 | The product and its rounding stay within 64 bits for any neighbours. |
| Resampler.ExactlyWhenNear | core/eaf_sync.c:37-43 | All interpolated values lie between their neighbours exactly when these are at most 2^31 apart. |
| Resampler.PositionFits | core/eaf_sync.c:56-60 | The 32.32 position never reaches 2^64 nor the end of the input. |
| Resampler.Resample | core/eaf_sync.c:45-71 | Each output sample is its channel read at its position; bad arguments change nothing. |
| Resampler.PositionIsProportional | core/eaf_sync.c:55-57 | Output frame i is read at i * in / out of the input, never ahead and behind by less than a unit of 2^-32 for each frame made. |
| Resampler.InterpolationError | core/eaf_sync.c:37-43 | Between neighbours at most 2^31 apart the value is the point of the line, to the nearest step. |
| Resampler.OutputIsLinear | core/eaf_sync.c:45-71 | An output sample is the point of the line between its two neighbours at the fraction of its position, to half a step and the lowest bit of the fraction. |
| Resampler.OutputIsBetween | core/eaf_sync.c:45-71 | Each output lies between two neighbouring inputs of its channel. |
| Resampler.EqualLengthsCopy | core/eaf_sync.c:45-71 | Equal lengths give an exact copy. |
| Resampler.StaysNondecreasing | core/eaf_sync.c:45-71 | A nondecreasing channel stays nondecreasing. |
| Dsp.GainAttenuates | core/eaf_dsp.c:11-15 | A gain in [0, 1] never makes a sample larger and errs by less than one step towards zero. |
| Dsp.AccumulatorFits | core/eaf_dsp.c:16-21 | The accumulator and its partial sums stay within int64 for all coefficients, states and samples. |
| Dsp.TickIsAccurate | core/eaf_dsp.c:16-21 | An unsaturated output is within 1 + 5 / 2^28 of the exact quotient. |
| Dsp.TickIsNearest | core/eaf_dsp.c:4-27 | A tick saturates its quotient to the nearest int32, and its history moves on by one. |
| Dsp.SatIsNearest | core/eaf_dsp.c:4-10 | Saturation gives the int32 nearest to any number. |
| Dsp.DifferenceEquation | core/eaf_dsp.c:16-27 | Sample n of a filtered signal is what the difference equation gives from the two inputs and the two outputs before it, to within one step and 20 of its 2^-30 parts unless it saturates. |
| Dsp.BiquadTick | core/eaf_dsp.c:16-27 | The filter state moves on in place. |
| Dsp.FilterSample | core/eaf_dsp.c:103-108 | The band loop is the cascade of its filters. |
| Dsp.CascadeInSeries | core/eaf_dsp.c:103-108 | A cascade is its filters one after another over the whole signal. |
| Dsp.CascadeCut | core/eaf_dsp.c:97-156 | Cutting the signal into blocks changes nothing. |
| Dsp.EqProcess | core/eaf_dsp.c:97-111 | The interleaved equalizer filters each channel as if by itself. |
| Dsp.ExpandInPlace | core/eaf_dsp.c:135-142 | The backward in-place expansion is the out-of-place one. |
| Dsp.CrossFrame | core/eaf_dsp.c:143-151 | The stage loop is a two-filter cascade for each of the three channels. |
| Dsp.MeanIsHalfTheSum | core/eaf_dsp.c:141 | The third channel starts as half the sum of the two, rounded toward zero. |
| Dsp.CrossProcess | core/eaf_dsp.c:131-156 | The interleaved crossover is two high-passes for left and right and two low-passes for their mean, each channel as if by itself. |
| Dsp.EqNode | core/eaf_dsp.c:97-111 | A block the equalizer accepts is filtered in place, channel by channel, and no longer marked silent; a bad block is left alone. |
| Dsp.CrossNode | core/eaf_dsp.c:131-156 | A stereo block with room for three channels becomes the three filtered ones, with their format and without the silence mark; any other is left alone. |

## Left out

- Sockets, ALSA and I2S drivers, FreeRTOS, Zephyr and pthreads, NVS, Wi-Fi, OTA, GAP and AVRCP control, board mains, logging: foreign calls.
- The FLAC, MP3, Opus, Vorbis and SBC codecs themselves, and the wait hook of the callback-style decoders: libraries not part of this model.
- Double-precision code: the time filter, the PI controller, filter design, the player's rate credit.
- Memory orders weaker than release/acquire, time-outs measured by the clock, and that waits end.
- NULL arguments and NULL callbacks, except where a callback is optional and changes what the code does.
- Rules of RFC 8259 that the reader does not enforce (trailing commas, leading zeros, escapes inside strings), and of RFC 6455 (RSV bits, FIN on control frames, UTF-8, the accept key).
- The receive loop of the WebSocket is not followed past its first error: the caller closes the connection.
- HTTP header parsing, the fields of STAT beyond its event, HELO, the WAV chunk walker, the control queue, the volume ramp, the log ring, the parse glue of single messages: easier members of the same kinds.
- EAF_AGAIN and EAF_TIMEOUT share one number, and a callback error equal to EAF_EOF would be taken for the end of the stream; the player model keeps the two apart.
- Counters that only report (diagnostics, statistics) and their wrap-around.
- LmsClient.Client.StartStream: does not model the parsing of the strm packet; whether its parameters are supported is an input.
- LmsClient.Client.Receive: header parsing is reduced to where the header ends, the content length it names and whether it is accepted.
- LmsClient.Client.Step: the bytes of the control connection are not cut into packets here; SlimFramer.Parser.Receive does that. What each packet does is the contract of Obey; the step's own does not repeat it.
- Pipelines.Pipeline.Process: what the pull and the nodes write into the samples is left open; only silence written by the pipeline itself is modelled.
- DecoderInput.Input.Read: without the wait hook, which the PCM adapter leaves empty.
- DecodeWorker.Worker.Step: a decoder whose pull fails or changes format is not modelled, because the PCM adapter never does either.
- Bluetooth.Ingress.Receive: one producer call is one step apart from its stale load of the read cursor; the copy into the slot is not cut up as it is for the reservoir.
- Bluetooth.Decoder.Step: the reservoir is reduced to how many frames it takes; that it keeps them in order is Reservoirs.Reservoir.Write.
- Resampler.Resample: for neighbours more than 2^31 apart the sum may leave 32 bits, which C leaves undefined; the model keeps the number.
