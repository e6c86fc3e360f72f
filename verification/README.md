# A model of the SPDY/3.1 multiplexer

A served connection multiplexes many streams over one transport. One read task validates and dispatches frames, five
workers act on them, one write task drains a bounded queue, and any number of handlers, `close` calls and `ping` calls
run beside them. This project models three parts of it and proves what every interleaving of them keeps.

**The codec** (`Octets`, `Frame`, `HeaderBlock`, `BlockFormat`, `Zlib`, `Framer`, `WireFormat`). `HeaderBlock` has the
canonical name/value block: its tree of joined values, its bytes, and the bounds-checked parser, which is a loop over
positions as in the library and is proved against a recursive specification. `Zlib` is an abstract pair of stateful
coders with one law: while every block so far fitted the reader's vector, the next one comes back, cut to the vector's
capacity. Two coders are shown to obey it. `Framer` is the object that writes to and reads from a transport; the
transport may fail at any byte. `BlockFormat` and `WireFormat` describe blocks and frames byte by byte in terms of
their own, and prove that this is what is written and what any input is read as.

**One stream** (`Receive`, `PartialRead`, `SendHalf`, `ReplyGate`, `FinDiscipline`, `Streams`). The receive half with
its 64-chunk buffer, its close flag with a version, and the steps of `read_data`; the pieces that `poll_read` hands
out; the send half of one task; and the reply gate for any number of concurrent callers, with the exact condition
under which they respect the FIN. `Streams.Stream` is the object: its methods are proved to do what the step functions
of those modules say, so their results hold of it.

**The connection** (`Connection`, `Frames`, `Registry`, `Refusals`, `Routing`, `Delivery`, `Overtaking`, `Closing`,
`Ending`, `Pings`, `Conservation`, `Progress`, `Wire`, `Joint`, `ConnectionObject`). A state machine with a step for
every load, store, lock and channel operation, atomics being sequentially consistent. `Connection` has the state and
the steps, `Frames` says what each step leaves alone, the others prove one family of invariants each. `Joint` runs the
connection together with the reply gate of each of its streams, so that what is proved of one gate holds of the write
queue. `ConnectionObject` has the shared objects themselves: a table of `Stream` objects, worker messages and tasks
that refer to them, and the atomics. Each of its methods is proved to be one step of the machine on those shared
objects, so that they stay the ones of a reachable state.

## What the proofs found

- `read_data` tests the buffer (line 139) and the close flag (line 146) separately. A chunk and a FIN that arrive in
  between give an early end of stream: `Receive.EarlyEndOfStream` is the trace, `Receive.EndOfStreamExactly` says
  exactly when end of stream is honest.
- The sweep at the end of the read task can close a stream whose data is still in a worker's queue. The handler is then
  told end of stream before it was given that data: `Overtaking.SweepOvertakesData` is the run,
  `Overtaking.EndOfStreamIsComplete` the exact condition.
- `push_data` drops a chunk without a word when the buffer is full: `Receive.DroppedChunk` is a run. What was read and
  what is buffered are all that was pushed exactly if no push met a full buffer (`Receive.ReadsAreCorrect`).
- Lengths are cut to 24 bits without a check, and the reader's vector holds four times the chunk plus 512 bytes. A
  frame survives the wire if and only if its payload is shorter than 2^24 bytes and its header block fits that vector
  (`Framer.FrameRoundTripExactly`). A data frame of 2^24 bytes is read as an empty one (`Framer.LongDataIsLost`). One
  header of 600 bytes sent twice is refused, because the second chunk refers back to the first and is short
  (`Framer.RepeatedHeadersAreLost`).
- The counts and lengths of the header block are cut to 32 bits; exactly which maps survive that is
  `HeaderBlock.BlockRoundTripExactly`.
- `GoAwayStatus::try_from` never fails: unknown codes are taken for Ok, so the error branch of `parse_goaway` is dead.
- A FIN write stores the FIN flag before it is sent. If that send is given up or refused, the half counts as closed and
  no FIN is ever sent (`SendHalf.GivenUpFin`; exactly when is `SendHalf.FinFlagExactly`).
- With several tasks on one stream a frame can follow a FIN. For instance, two writers both pass the flag test
  (`FinDiscipline.TwoConcurrentFins`), or a writer passes it while a reply with FIN, already queued, has not stored the
  flag yet (`FinDiscipline.DataBehindReplyFin`). `FinDiscipline.DisciplineExactly` says which steps must not overlap for
  all states of a run to be safe, and `FinDiscipline.SafeExactly` that an unsafe state is one whose writes under way can
  finish behind a FIN.
- An empty data frame makes `poll_read` return ready with nothing, which its callers take for the end
  (`PartialRead.EmptyChunkLooksLikeTheEnd`; exactly when is `PartialRead.EmptyReadExactly`).
- The documentation of `write_data` says that it blocks until `send_reply` has been called. An inbound SYN_REPLY opens
  the gate too, and data can go out with no reply at all (`ReplyGate.DataWithoutReply`); exactly when the gate is open
  without a reply is `ReplyGate.OpenWithoutReplyExactly`.
- The ping ids repeat after exactly 2^31 pings (`Pings.PingIds`). A later ping with the same id takes the place of a
  waiter that is still in the map (`Overtaking.PingTakesAPlace` is the run), and the earlier call is never resolved
  (`Pings.OverwrittenIsLost`).
- A stream can be accepted after a GOAWAY that does not cover it was queued (`Overtaking.GoAwayMissesAStream`);
  `Closing.GoAwayRace` bounds it and `Closing.RaceIsLostExactly` says where the reader must stand for it.

## Model

| member | source | states |
|---|---|---|
| Frame.StatusCodesInvert | src/frame.rs:87-141 | Both status conversions invert the numeric codes; a RST code is accepted exactly from 1 to 11; a GOAWAY code is heard as Ok exactly if it is 0 or unknown |
| Frame.InRangeIsUnmasked | src/framer.rs:280-316 | Reading drops nothing exactly from frames with 31-bit ids and deltas, 3-bit priorities and 24-bit setting ids |
| Frame.FinIsTheLowestBit | src/frame.rs:4-6 | FIN is the lowest flag bit, whatever other bits are set |
| HeaderBlock.SplitJoin | src/framer.rs:492-508 | Splitting at NUL undoes joining with NUL for every non-empty list of NUL-free values, empty values included |
| HeaderBlock.JoinSplit | src/framer.rs:492-508 | Joining undoes splitting for all bytes, so distinct value fields mean distinct value lists |
| HeaderBlock.CanonicalForm | src/framer.rs:42-67 | Two iteration orders of the same multimap give the same tree, its names strictly ascending |
| HeaderBlock.AscendingUnique | src/framer.rs:42-67 | A tree with ascending names is determined by what it stores under each name |
| HeaderBlock.EncodeHeaders | src/framer.rs:42-67 | Whatever the iteration order, the bytes produced are those of the multimap, a function of its contents alone |
| HeaderBlock.SerializeTree | src/framer.rs:56-66 | The appending loop writes the count and then every name and value with its length, in tree order |
| HeaderBlock.BlockRoundTrip | src/framer.rs:42-67 | Parsing the block of a legal multimap whose count, names and joined values fit 32-bit lengths returns that multimap, whatever bytes follow |
| HeaderBlock.BlockRoundTripExactly | src/framer.rs:470-515 | A legal multimap comes back from its block if and only if its count, each name and each joined value fit 32-bit lengths |
| HeaderBlock.CutBlockIsRefused | src/framer.rs:470-515 | No proper prefix of a multimap's block parses: wherever it is cut, the parser reports a protocol error |
| HeaderBlock.ParseHeaderBlock | src/framer.rs:470-515 | The loop over positions stays in bounds, ends, and agrees with the recursive specification on all bytes, errors included, as long as the header map does not meet its size limit |
| HeaderBlock.ParsedIsWellFormed | src/framer.rs:470-515 | Whatever parses is a legal multimap, and its encoding is no longer than the input |
| HeaderBlock.Normalisation | src/framer.rs:470-515 | Re-encoding a parsed block and parsing it again gives the same map if and only if the merged map fits 32-bit lengths, as it does for every input of fewer than 2^32 bytes |
| HeaderBlock.TrailingBytesIgnored | src/framer.rs:470-515 | Bytes after the last counted entry do not change a successful parse |
| BlockFormat.LessIsByteOrder | src/framer.rs:44-59 | The order of names is the order by bytes: at the first difference the smaller byte, or the shorter name, comes first |
| BlockFormat.NamesAscend | src/framer.rs:44-59 | Whatever the iteration order, of two names in the tree the earlier one is smaller by bytes |
| BlockFormat.BlockLayout | src/framer.rs:42-67 | The block is, byte by byte, the number of names, then for each name of the map, ascending by bytes, its big-endian length, the name, and the length and bytes of its values joined by zero bytes |
| BlockFormat.ParseIsTheFormat | src/framer.rs:470-515 | A block parses to a map if and only if it is a count and that many length-prefixed legal entries, followed by anything, and the map has under each normal name the values of its entries in order; all else is a protocol error |
| Zlib.StampedObeysTheLaw | src/framer.rs:70-110 | The coder law has an instance that detects a lost chunk and in which every block fits |
| Zlib.RepeatingObeysTheLaw | src/framer.rs:93-110 | The law has an instance with a memory, whose chunks end in the sync-flush marker; a block repeated fits exactly up to 576 bytes |
| Framer.FrameRoundTrip | src/framer.rs:192-324 | A frame of admissible size comes back, masked, with the coders in step and what followed it untouched |
| Framer.FrameRoundTripExactly | src/framer.rs:144-153 | Whatever follows it, a frame survives the wire if and only if its payload is below 2^24 bytes and its header block fits the reader's vector |
| Framer.LongBlockIsRefused | src/framer.rs:93-135 | A header block that does not fit the reader's vector gives a protocol error; just that frame is consumed and the coders stay in step |
| Framer.LongDataIsLost | src/framer.rs:171-189 | A data frame of 2^24 bytes is read as an empty one, and its bytes are left to be read as frames |
| Framer.RepeatedHeadersAreLost | src/framer.rs:96-110 | The same legal SYN_REPLY written twice through a lawful coder with a memory: the first is read, the second, with a 20-byte payload, is refused with a protocol error |
| Framer.RunRoundTrip | src/framer.rs:272-324 | The bytes of any run of admissible frames, followed by anything, decode to exactly that run, compressor and decompressor in lockstep |
| Framer.RunAppend | src/framer.rs:192-204 | Encoding a run frame by frame at its end gives the bytes and the compressor state of the whole run |
| Framer.TornFrame | src/framer.rs:272-324 | A frame with a payload below 2^24 bytes, cut short, is never read as a frame: ConnectionClosed within the header, an I/O error within the payload |
| Framer.TornRun | src/framer.rs:272-324 | A run followed by part of a frame decodes to exactly the run and then that error |
| WireFormat.HeaderWritten | src/framer.rs:138-189 | The first eight bytes of every frame by value: 0x80 0x03, a zero, the type number, the flags and the low 24 bits of the length, or the 31-bit id, the flags and that length |
| WireFormat.FrameWritten | src/framer.rs:192-269 | The payload of each of the nine kinds, field by field at its offset: masked ids and deltas, priority bits, status numbers, flags and id of each setting, the compressed block, the data |
| WireFormat.HeaderRead | src/framer.rs:272-324 | On any input the reader's first decision by bytes: closed below eight bytes, a protocol error for another version, an I/O error for a short payload, a data frame by its fields, else the control payload |
| WireFormat.HeadersRead | src/framer.rs:340-387 | For types 1, 2 and 8 on any payload: too short is a protocol error that leaves the decompressor alone; else the decompressor moves on and the frame has the fields at their offsets |
| WireFormat.FieldsRead | src/framer.rs:389-467 | For types 3, 6, 7 and 9 on any payload: the fields at their offsets exactly if the bytes are there and the RST number is 1 to 11; every other type number is unknown |
| WireFormat.SettingsRead | src/framer.rs:401-433 | On any payload: the counted settings, each with the flags, the 24-bit id and the value at its offset, exactly if the bytes are there |
| WireFormat.ReadErrorsExactly | src/framer.rs:272-338 | A read is closed, fails for want of bytes, or finds an unknown type, each exactly when the bytes say so |
| Framer.Framer.WriteBoth | src/framer.rs:138-189 | Header and payload reach the transport in that order; after a failure it has a strict prefix of them |
| Framer.Framer.WriteControlFrame | src/framer.rs:138-168 | The bytes are the control header with the 24-bit length, then the payload |
| Framer.Framer.WriteDataFrame | src/framer.rs:171-189 | The bytes are the data header with the 31-bit id and the 24-bit length, then the data |
| Framer.Framer.CompressHeaders | src/framer.rs:70-90 | The chunk is the compressor's for the canonical block, and the compressor's history grows by that block |
| Framer.Framer.DecompressHeaders | src/framer.rs:93-135 | The result is the parsed block of at most the vector's capacity, and the history grows by the chunk even on failure |
| Framer.Framer.WriteSettings | src/framer.rs:232-242 | The loop over the settings produces exactly the encoding of the SETTINGS frame |
| Framer.Framer.WriteFrame | src/framer.rs:192-269 | Every frame kind hands its encoding to the transport and moves the compressor on exactly when it has headers, failed writes included |
| Framer.Framer.ReadFrame | src/framer.rs:272-324 | Result, decompressor state and remaining input are those of the decoder specification on all inputs, errors included |
| Framer.Framer.ParseControlFrame | src/framer.rs:326-467 | Dispatch by type, unknown types included, with the decompressor touched by the three header-bearing types only |
| Framer.Framer.ReadSettings | src/framer.rs:401-433 | The loop returns exactly the counted settings, or a protocol error when fewer bytes are there |
| Receive.ReadsAreCorrect | src/stream.rs:135-165 | Over every interleaving of pushes, closes, read steps and dropped reads, the chunks returned followed by those buffered are the pushed ones that found room, in order, each once; they are all of them exactly if no push met a full buffer |
| Receive.AllKeptExactly | src/stream.rs:54-56 | The chunks that found room are all that were offered exactly if no push met a full buffer; otherwise they are fewer |
| Receive.DroppedChunk | src/stream.rs:54-56 | A run of 65 pushes in which the first 64 chunks find room and the last is lost |
| Receive.PushExactly | src/stream.rs:54-56 | A chunk finds room exactly if fewer than 64 are buffered, and is then the last one |
| Receive.NeverParkedWhilePending | src/stream.rs:151-163 | A reader in the select has an enabled branch exactly when a chunk is buffered or the remote side has closed, however early it closed |
| Receive.ReaderProgress | src/stream.rs:135-165 | A call in progress always has a next step unless it is in the select with nothing pending |
| Receive.EndOfStreamExactly | src/stream.rs:138-163 | End of stream after the select is honest; after the two tests it is honest if and only if nothing was accepted between them |
| Receive.EarlyEndOfStream | src/stream.rs:138-148 | For every chunk a run in which end of stream is returned while the chunk is buffered |
| Receive.TestBothIsHonest | src/stream.rs:138-148 | With the two tests as one step, end of stream means that every accepted chunk was returned |
| PartialRead.PollConserves | src/stream.rs:173-222 | One poll moves bytes from what is held to the caller and loses, repeats or reorders none; the remainder is never empty |
| PartialRead.BytesConserved | src/stream.rs:173-222 | Over any run of pushes and polls of any buffer sizes, bytes returned and bytes held are the accepted bytes |
| PartialRead.PieceIsTheLongest | src/stream.rs:181-221 | A piece never overruns the room and is the longest prefix of the remainder or the first chunk that fits; a read is pending exactly if nothing is held and the stream is open |
| PartialRead.EmptyReadExactly | src/stream.rs:181-221 | For a caller with room, a ready read of nothing happens exactly at the end of the stream or on an empty chunk |
| PartialRead.EmptyChunkLooksLikeTheEnd | src/stream.rs:203-213 | A run in which a read of an open stream with data buffered is ready with nothing |
| SendHalf.AtMostOneFin | src/stream.rs:86-131 | In any calls by one task after its reply, however each send fares, the reply is first, at most one FIN is sent and nothing follows it |
| SendHalf.SentIsWhatWasAsked | src/stream.rs:104-132 | Over any calls the frames sent are in order one for each write answered Ok, with its payload and FIN exactly if asked, and one empty FIN frame for each shutdown that was the first |
| SendHalf.WriteAnswers | src/stream.rs:104-132 | Each answer of a write exactly when; one refused because of the FIN flag sends and changes nothing |
| SendHalf.ReplyAnswers | src/stream.rs:86-102 | Each answer of a reply exactly when; it opens the gate, and sets the flag if it carries FIN, only if it was sent |
| SendHalf.ShutdownAnswers | src/stream.rs:256-278 | Each answer of a shutdown exactly when; it sets the flag only together with its frame |
| SendHalf.MakeKeepsDiscipline | src/stream.rs:256-278 | Once the FIN flag is set no write or shutdown sends anything more |
| SendHalf.FinFlagExactly | src/stream.rs:117-131 | The flag is set without a FIN in the queue if and only if a FIN write that was the first to set it was given up or refused |
| SendHalf.GivenUpFin | src/stream.rs:120-131 | After a FIN write given up while the queue is full, no sequence of later calls sends anything |
| ReplyGate.NoLostWakeUp | src/stream.rs:96-115 | Once some replier has stored and notified, every caller before the gate has an enabled move, each brings it nearer, and a test lets it through |
| ReplyGate.OthersDoNotHinder | src/stream.rs:105-115 | No step of another task takes a caller's progress or a notification back |
| ReplyGate.ReplyComesFirst | src/stream.rs:86-131 | A caller is past the gate only if it is open, and with no peer SYN_REPLY at all no data frame precedes the SYN_REPLY |
| ReplyGate.OpenWithoutReplyExactly | src/connection.rs:218-220 | The gate is open with no SYN_REPLY queued if and only if a peer's SYN_REPLY has stored the flag and no send_reply is past its send; only then can data be the first frame |
| ReplyGate.DataWithoutReply | src/connection.rs:218-220 | A run in which data is sent and no reply ever was |
| ReplyGate.LogIsTheWrites | src/stream.rs:105-132 | In every interleaving each data entry of the log has the payload and FIN of the write_data call it names, that call is done, and a call that is done is in the log exactly once |
| ReplyGate.RepliersAreTheCalls | src/stream.rs:86-102 | In every interleaving the repliers are the send_reply calls with their arguments and the peer's SYN_REPLYs, in order |
| FinDiscipline.TwoConcurrentFins | src/stream.rs:117-131 | A run in which two concurrent writers both send a FIN |
| FinDiscipline.DataBehindReplyFin | src/stream.rs:96-100 | A run in which plain data follows a reply's FIN, because the reply stores the flag last |
| FinDiscipline.DisciplineExactly | src/stream.rs:86-131 | Over every run of any number of writers and repliers, all states are safe if and only if no step starts an overlap that involves a FIN; then at most one FIN is sent and nothing after it |
| FinDiscipline.StepIsSafeExactly | src/stream.rs:117-131 | From a safe state exactly the steps that start such an overlap lead out of safety: a FIN test passed, or a reply sent, beside a queued or coming FIN |
| FinDiscipline.SafeExactly | src/stream.rs:117-131 | A state is unsafe if and only if the writes already past the FIN test can, by finishing in some order with nothing else happening, put a frame behind a FIN |
| FinDiscipline.ClashIsFatal | src/stream.rs:117-131 | Each such overlap, and nothing else, can be followed by that end |
| FinDiscipline.FlagLagsExactly | src/stream.rs:96-100 | A FIN is queued with the flag unset exactly while a send_reply that sent it is on its way to the flag |
| Streams.Stream.PushData | src/stream.rs:54-56 | Appends the chunk if fewer than 64 are buffered and drops it otherwise |
| Streams.Stream.CloseRemote | src/stream.rs:59-61 | Sets the close flag and counts a new version |
| Streams.Stream.SendReply | src/stream.rs:86-102 | Frame, flags, broadcast and result as in the send-half machine, for each fate of the send |
| Streams.Stream.WriteData | src/stream.rs:105-132 | Blocks before the reply, refuses after the FIN, stores the flag even if the send then fails; a write answered Ok has sent the caller's payload, and no other has sent anything |
| Streams.Stream.PollShutdown | src/stream.rs:256-278 | A no-op after the FIN; otherwise sends an empty FIN frame and stores the flag only if that succeeded |
| Streams.Stream.ReadData | src/stream.rs:135-151 | A call alone: the first chunk, or end of stream exactly when closed with everything accepted already taken, or it is left in its select |
| Streams.Stream.ReadOnce | src/stream.rs:135-165 | Each load and await of read_data by itself, dropping the call in its select included, is the step of the receive machine |
| Streams.Stream.Wake | src/stream.rs:152-163 | The select, once a chunk or a close is there: the first chunk if one is buffered, else end of stream with everything accepted taken |
| Streams.Stream.PollRead | src/stream.rs:173-222 | Returns the longest next piece that fits the room, and only of the remainder while a read_data holds the receiver; what was held before is the piece followed by what is held after |
| Registry.AcceptedIds | src/connection.rs:269-327 | In every interleaving accepted ids are odd, below 2^31 and increasing, every table key is one of them, at most the last id or the one in flight, and the reply under the table lock is never reached |
| Registry.InsertIsNew | src/connection.rs:313-325 | The table never has the id that is about to be inserted |
| Registry.RemovesItsOwn | src/connection.rs:213-217 | A worker acting on a RST removes the table entry of the very object it carries, or none |
| Refusals.EveryRefusalHasItsReason | src/connection.rs:271-303 | Over every run each reply of the reader answers a frame received and has its reason: PROTOCOL_ERROR an id that is even or not above the last accepted one, REFUSED_STREAM an odd id on a connection going away, INVALID_STREAM data for the id, an echo an odd ping; the reader resets with no other status |
| Refusals.ReasonsStay | src/connection.rs:283-327 | No step lowers the last id, clears the going-away flag or forgets a frame, so a reason once given stays true |
| Refusals.OpenStreamGetsItsFrames | src/connection.rs:335-384 | A frame looked up for a stream that is still open is never refused or dropped: it goes to that very stream |
| Routing.PerStreamOrder | src/connection.rs:193-233 | Payloads routed for a stream are those pushed so far followed by those in its worker's hand or queue; chunks taken and buffered are the pushed ones that found room, in order, and all of them exactly if none was dropped |
| Routing.OneWorkerPerStream | src/connection.rs:329-342 | No worker but the one numbered by the id modulo 5 ever has a frame of the stream |
| Routing.NextIsRouted | src/connection.rs:197-198 | The frame a worker is about to handle is the next one routed to its stream |
| Routing.HandlerStartedOnce | src/connection.rs:199-205 | A handler is started at most once, exactly when the SYN_STREAM, routed once and ahead of all else, has been handled |
| Routing.DrainedMeansStarted | src/connection.rs:193-234 | When the reader has ended and the workers have drained, every accepted stream's handler was started exactly once and all routed frames handled |
| Delivery.RoutedIsAStretch | src/connection.rs:335-384 | Over every run, what was looked up and routed for an accepted stream is an unbroken stretch of the data, replies, headers and resets that arrived for its id, reaching to the newest while the stream is in the table; and it is the worker traffic with its id, no other's |
| Delivery.DataArrivesWithoutGaps | src/connection.rs:335-351 | Between two frames, the data that arrived for a stream's id is some refused, all that was routed, some refused; the refused are as many as the InvalidStream replies for the id, and none is late while the stream is in the table |
| Delivery.DataReachesItsStream | src/connection.rs:206-212 | End to end: the data that arrived for a stream is some refused, the chunks pushed into it, what its worker has, and some refused; what was taken and buffered is the pushed chunks that found room, and with the rest all of that stretch exactly if none was dropped |
| Overtaking.EndOfStreamIsComplete | src/connection.rs:206-212 | End of stream means that all routed data was read if and only if no push met a full buffer, the worker has no more of it, and nothing slipped in between the two tests |
| Overtaking.SweepOvertakesData | src/connection.rs:421-428 | A run in which the sweep closes a stream, its reader is told end of stream, and routed data was never read |
| Overtaking.GoAwayMissesAStream | src/connection.rs:102-115 | A run in which a stream is registered after a GOAWAY with last-good id 0 was queued |
| Overtaking.PingTakesAPlace | src/connection.rs:88-90 | A run in which, once the ids have gone round, a later ping has taken the place of a waiter that still waits |
| Closing.ClosingReachesAll | src/connection.rs:421-429 | An accepted stream is in the table or closed for reading; when the reader has ended all are closed and the connection's close flag is set |
| Closing.EndedForever | src/connection.rs:399-429 | After that no step accepts, reopens or unflags anything |
| Closing.ClosedStays | src/stream.rs:59-61 | No step of any task reopens a closed stream |
| Closing.GoAwayRace | src/connection.rs:102-115 | At most one GOAWAY is enqueued; its last-good id is 0 or accepted; an accepted id exceeds it exactly if the one id already past the refusal check when the flag was swapped was registered above it, and no other can |
| Closing.RaceIsLostExactly | src/connection.rs:103-108 | When the winning close call is about to load the last id, the reader carries an id past the refusal check exactly if it is about to insert it or an accepted id is above the one to be loaded; that id is the only one above |
| Ending.LoopEndsExactly | src/connection.rs:254-419 | The read loop is left exactly on a read error and on a peer's GOAWAY, and never entered again |
| Ending.GoAwayIsTheLast | src/connection.rs:399-403 | Over every run a peer's GOAWAY is the last frame received, the read task is never back at its read, and past the two stores of its arm the connection is going away and closed |
| Ending.OthersAreIgnored | src/connection.rs:405-417 | SETTINGS and WINDOW_UPDATE change nothing that the model holds, and the task reads on |
| Ending.ClosedExactly | src/connection.rs:197-231 | A stream whose worker has acted on a RST, or on a FIN on DATA, SYN_REPLY or HEADERS, is closed or about to be; a closed stream was told so, or the final sweep has begun; a FIN on SYN_STREAM closes nothing |
| Ending.RemovedExactly | src/connection.rs:213-217 | A stream is gone from the table exactly once its worker has finished acting on a RST for it, and never for another reason |
| Pings.PingIds | src/connection.rs:88-93 | The p-th server ping id is 2 + 2p modulo 2^32: even across the wrap-around, distinct within 2^31 calls, and repeated at exactly that distance |
| Pings.SentMeansRegistered | src/connection.rs:90-94 | Every even ping that entered the write queue belongs to a caller that had entered its waiter: it is still in the map, was resolved, or has a rival of the same id |
| Pings.FirstEchoFindsItsWaiter | src/connection.rs:386-397 | On a connection of any age an unresolved waiter is in the map, and an echo of its id resolves it and no other, unless another ping of the same id has entered its waiter |
| Pings.RivalsAreRoundsApart | src/connection.rs:88-90 | Pings of the same id are at least 2^31 calls apart |
| Pings.WaiterLeavesExactly | src/connection.rs:90-94 | A step takes a waiter out of the map exactly by resolving it or by entering another of the same id |
| Pings.OverwrittenIsLost | src/connection.rs:90-98 | A waiter whose place was taken is never resolved, and its call can return at once |
| Pings.ResolvedOnceByItsOwn | src/connection.rs:391-396 | A waiter is resolved at most once over a whole run, and only by an echo of its own id |
| Pings.OddPingsLeaveTheMap | src/connection.rs:387-389 | Echoing a client's ping changes neither the map nor any waiter |
| Pings.EchoResolves | src/connection.rs:386-397 | An even ping received between two frames resolves the waiter of its id in the reader's next step, and no other |
| Pings.PingIsEchoed | src/connection.rs:387-389 | An odd ping received between two frames is the next frame the reader sends |
| Conservation.InboundConserved | src/connection.rs:267-397 | For each id and in total, SYN_STREAMs received are streams registered and refusals sent, Data frames are those routed and InvalidStream replies, odd pings are echoes, up to the one frame in flight and replies lost with the write task |
| Conservation.ReceivedEqualsAnswered | src/connection.rs:267-397 | Between two frames with the write task alive these are equalities, and each id accounts for one stream at most |
| Progress.NobodyDeadlocks | src/connection.rs:181-351 | In every reachable state a reader, worker, closer, pinger or handler that cannot move waits for a task that can, and no send is awaited with the table locked |
| Progress.InternalStepLowers | src/connection.rs:179-234 | Every step that needs no new input or call lowers one measure of the remaining work |
| Progress.InternalRunsEnd | src/connection.rs:179-234 | Under every schedule such steps come to an end, within the measure |
| Progress.StuckMeansQuiescent | src/connection.rs:179-234 | Where no such step is possible the queues are empty, the workers rest and no call is under way, and conversely |
| Progress.ComesToRest | src/connection.rs:179-234 | From every reachable state there is a schedule to such a state |
| Progress.QueuesAreBounded | src/connection.rs:147-172 | In every reachable state the write queue holds at most 64 frames and each worker queue at most 128 messages |
| Progress.WaitsExactlyWhenFull | src/connection.rs:147-172 | Handlers and reader wait for the write queue exactly while it holds 64 frames and its task lives, and the reader for a worker exactly while its queue holds 128 messages |
| Wire.WrittenIsPrefix | src/connection.rs:179-190 | Frames written are a prefix of frames enqueued, whoever enqueued them; the first is the SETTINGS of id 4 and value 100; a live write task has lost none |
| Wire.WireAgreesWithQueue | src/connection.rs:179-190 | A peer reading the wire at any moment, a partly written frame included, gets exactly the written frames in enqueue order and then an end of input |
| Wire.DecodedMayArrive | src/framer.rs:272-467 | Whatever bytes come in, a frame the decoder delivers has 31-bit ids, 3-bit priority and 24-bit setting ids, which is all the connection assumes of arriving frames |
| Wire.WriteTask | src/connection.rs:183-188 | The loop stops at the first failed write, having written whole the frames before it and a strict prefix of that one |
| Joint.QueueIsTheLog | src/stream.rs:86-132 | With handlers sending only through their streams' gates, the replies and data of each stream in the connection's write queue are, one by one and in order, what its gate logged, and gate and connection are each in a state of their own machines |
| Joint.QueueHasThePayloads | src/stream.rs:123-131 | Each of a stream's data frames in the write queue has the payload, and FIN exactly if asked, of a finished write_data call on that stream, no call's twice |
| Joint.ReplyPrecedesData | src/stream.rs:105-115 | In the write queue no data of a stream precedes its SYN_REPLY unless a worker has acted on the peer's SYN_REPLY for it |
| Joint.FinLastInQueue | src/stream.rs:117-131 | A FIN is the last of a stream's frames in the write queue exactly if it is the last its gate logged, as it is in every safe state |
| ConnectionObject.Served.constructor | src/connection.rs:144-172 | The new connection is the initial state of the machine, with an empty table |
| ConnectionObject.Served.TableHoldsItsStreams | src/connection.rs:305-325 | The shared table maps each id to its own stream object, and no two streams ever accepted have the same id |
| ConnectionObject.Served.MessagesFindTheirStream | src/connection.rs:329-342 | Every queued message carries a reference to the very stream its frame names, in the queue of that stream's worker |
| ConnectionObject.Served.OpenStreamsAreFound | src/connection.rs:421-429 | A stream object that is open is in the table under its id; when the read task has ended every stream object ever accepted is closed |
| ConnectionObject.Served.StreamKeepsOrder | src/connection.rs:206-212 | What was pushed into a stream object, followed by what its worker still has, is what was routed to it; what was taken and what it buffers are the pushed chunks that found room, and all of them exactly if none was dropped |
| ConnectionObject.Served.SendInitialSettings | src/connection.rs:237-245 | The SETTINGS of id 4 and value 100 is the first and only frame in the write queue |
| ConnectionObject.Served.FrameArrives | src/connection.rs:267-419 | A reply is due at once exactly for impossible stream ids and odd pings; a GOAWAY leads to the stores of its arm, an even ping to its waiter, stream frames to their look-up, and SETTINGS and WINDOW_UPDATE back to the read |
| ConnectionObject.Served.CheckLastId | src/connection.rs:282-292 | A SYN_STREAM that passes has an id above that of every stream ever accepted |
| ConnectionObject.Served.CheckGoneAway | src/connection.rs:295-303 | A SYN_STREAM passes only while the connection is not going away |
| ConnectionObject.Served.Register | src/connection.rs:305-325 | The id is never in use; a fresh object enters the table under it and no other entry changes |
| ConnectionObject.Served.SendToWorker | src/connection.rs:329-332 | The frame and the stream held go to the end of the queue that the id chooses, and nothing else moves |
| ConnectionObject.Served.LookUp | src/connection.rs:335-351 | An open stream with the frame's id is always found; a refusal is due exactly for data whose id is not in the table |
| ConnectionObject.Served.SendReply | src/connection.rs:344-349 | The reply enters the write queue last, or is lost with the write task |
| ConnectionObject.Served.ResolvePing | src/connection.rs:391-396 | Only the waiter of the echoed id leaves the map |
| ConnectionObject.Served.StoreCloseFlag | src/connection.rs:401-429 | When the read task ends with this store, every stream object ever accepted is closed |
| ConnectionObject.Served.StartSweep | src/connection.rs:423-425 | The streams to be closed are exactly those in the table |
| ConnectionObject.Served.SweepStream | src/connection.rs:425-427 | One of them is closed, and the shared state is the machine's after closing that stream and no other |
| ConnectionObject.Served.StepAlone | src/connection.rs:254-265 | The ends of the read loop, of the sweep and of a ping's wait leave table, streams and queues alone |
| ConnectionObject.Served.TakeMessage | src/connection.rs:197-198 | A resting worker takes the head of its queue, whose stream is the one its frame names |
| ConnectionObject.Served.PushToStream | src/connection.rs:206-212 | The data is pushed into the very stream object routed with it; a FIN is due next exactly if flagged |
| ConnectionObject.Served.ActOnOther | src/connection.rs:199-231 | A handler is started exactly for a SYN_STREAM, on the stream routed with it; a FIN counts on SYN_REPLY and HEADERS only |
| ConnectionObject.Served.CloseForRst | src/connection.rs:213-214 | The stream object is closed before its entry is removed |
| ConnectionObject.Served.CloseAfterFin | src/connection.rs:209-211 | The stream object is closed in a step of its own |
| ConnectionObject.Served.RemoveEntry | src/connection.rs:215-217 | The entry under the stream's id goes; it was this very stream object, or there was none |
| ConnectionObject.Served.TakeFrame | src/connection.rs:183-184 | The write task takes the head of the write queue |
| ConnectionObject.Served.WriteFrame | src/connection.rs:184-187 | A frame is written or the task ends; what is written stays a prefix of what was enqueued |
| ConnectionObject.Served.HandlerSend | src/stream.rs:86-132 | A handler's frame has its stream's id and enters the write queue last |
| ConnectionObject.Served.HandlerRead | src/stream.rs:135-165 | A step of read_data on the shared stream object is the machine's step, whatever the other tasks do to it |
| ConnectionObject.Served.SwapGoneAway | src/connection.rs:103-106 | The first of any racing calls wins, and only it |
| ConnectionObject.Served.LoadLastId | src/connection.rs:108-108 | What is loaded is 0 or the id of a stream object accepted |
| ConnectionObject.Served.SendGoAway | src/connection.rs:109-115 | The GOAWAY that is enqueued is the first one ever |
| ConnectionObject.Served.NewPing | src/connection.rs:88-89 | The id taken is even and differs from those of the last 2^31 calls |
| ConnectionObject.Served.EnterWaiter | src/connection.rs:90-90 | The waiter is in the map under its id before the ping is sent |
| ConnectionObject.Served.SendPing | src/connection.rs:91-94 | The ping enters the write queue, or the call fails because the write task is gone |

## Left out

- tokio, sockets, task spawning, timeouts and sleeps; a ping timeout may happen at any moment, and the timed drain at the end of `close` is not modelled.
- zlib internals, the preset dictionary and its handshake: the coders are abstract. The compressor's output vector is taken to be large enough.
- HeaderBlock.ParseHeaderBlock: does not model the size limit at which a header map panics, which ends the read task without its sweep, because the limit and what it counts are defined in the `http` crate and not in this repository.
- The HTTP upgrade handshake in `src/server.rs`, a short scan that would add only easy members.
- The validity tables for header names and values of the `http` crate: abstract predicates with the two laws the codec needs.
- `poll_write`, which tests neither the reply gate nor the FIN flag: one send without further state. In the connection it is one of the sends a handler may make.
- Wake-ups of `poll_read`: it registers no waker for the close flag, so only its bytes are claimed. Mixing it with `read_data`, which ignores the remainder, is not modelled.
- The contention branch for the `unread` lock in `poll_read`: only calls on the same half meet it, and they are exclusive.
- WINDOW_UPDATE and the initial window size, which are stored and not enforced: codec only.
- Error message strings and logging; errors are kinds.
- In the connection machine by itself a handler may send any frame of its stream at any time, which includes all it can do behind the gate; the two together are in Joint, where `poll_write` and `poll_shutdown`, which do not pass the gate, are not sends.
- `poll_shutdown` beside concurrent writers: it needs exclusive access to the stream and is modelled in the send half of one task.
- The connection object numbers ping and close calls; the oneshot a ping call waits on is its own variable.
- Handler code itself: its sends and reads may happen at any time once it has started.
- Wire.WireAgreesWithQueue: needs the written frames to be of admissible size, which is the exact condition of FrameRoundTripExactly.
- Framer.Framer.WriteFrame: takes header maps the `http` types allow (non-empty lists of valid values under valid names).
- The transport's back-pressure: the write task can always finish or fail a write.
