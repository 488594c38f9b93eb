# mach, verified in part

Dafny models of the parts of the mach HTTP client in which a mistake is easy to make and hard to
see, with proofs of what those parts promise. `dafny verify dfyconfig.toml` checks the project.

## What is modelled

**One HTTP/2 client connection as a step machine** (`ConnMachine`). The body writer, the read loop,
the callers of CancelStream and Close and the broadcasts of an error take atomic steps in any order: opening a stream is a
check, a load of the initial window and a commit, sending a chunk is a choice, a send and two debits, waiting for credit goes
through every load of the wait loop, finishing or cancelling a stream is a state swap followed by a
tail, and a send on a stream's Err channel comes after the look or the failure that led to it. Windows are int32 and wrap. Ghost totals count bytes sent, credit received, debits and
closed channels. `ConnWindows`, `ConnWake`, `ConnLifecycle` and `ConnErr` prove what every run from
every initial state keeps. `ConnLedger` keeps the books of a run from its steps alone, what was granted,
sent, debited, opened and purged, and proves that the machine's state is what the books say; `ConnBodies`
proves from them that bodies are conserved, and `ConnProgress` that a thread
that is not asleep waits for nothing but a mutex, and that mutexes are let go. `CreditByWriters` asks how many body writers the credit check can bear.

**The pieces of that connection that are algorithms**: the stream table with its probe slots and
overflow shards as a class that represents a map (`StreamTable`), the read loop with CONTINUATION
assembly as a class that refines a state machine over frames (`ReadLoop`), which streams it ends and when
it fails, told from the frames alone (`StreamEnds`), and the loop that cuts a
body into DATA frames (`BodyWriter`).

**Headers**: the scanner that looks for delimiters eight bytes at a time (`Swar`), the packed store
(`HeaderStore`), the byte-by-byte parser it must equal (`HeaderParse`), what the lines of a block
mean (`HeaderLines`, `HeaderRefine`), what a block says and reports without any of these, by its lines,
names and repetitions (`HeaderMeaning`), lookup and iteration (`HeaderLookup`), the object itself
(`Headkit`), and the case-insensitive comparison in words (`CaseFold`).

**Chunked transfer coding**: the buffered reader underneath (`Bufio`), reading piece by piece for
any rule of reading size lines (`ChunkStream`), the lenient decoders (`ChunkLenient`), chunk
extensions against a grammar (`ChunkExt`), the form of a size line (`ChunkSizes`), the strict decoder (`ChunkStrict`), both writers with
their round trips (`ChunkWriters`), and chunked bodies as a grammar on the bytes (`ChunkGrammar`)
that says which inputs each reader accepts and which it only seems to (`LenientBodies`,
`StrictBodies`), and which error the strict one gives for every other input (`StrictFaults`).

**HTTP/2 frames**: numbers and frame headers (`H2Wire`), SETTINGS (`H2Settings`), bodies and the
frame stream (`H2Frames`), the layout of every kind of frame and of every fault as predicates on the
bytes (`H2Grammar`), the frame header object (`H2FrameHeader`). **The connection pool** under
interleaving (`Pool`), and where each connection is by the steps alone (`PoolHistory`). **Decimal numbers** at the edge of the int range (`Decimal`).

## What the proofs found

Some promises hold only under a condition. Each has a lemma that shows it failing and one that
says exactly when it holds.

- A stream opened while the peer's initial window is 0 gets 65535 bytes of credit
  (`ConnWindows.ZeroWindowIsIgnored`), and a SETTINGS frame handled between the load of the initial
  window and the store of the stream passes the stream by (`ConnWindows.SettingsMissTheOpen`).
  `ConnWindows.WindowConserved` says by how much a window is off, and that it is right exactly when
  the two cancel out.
- The check of the connection window and its debit are separate, so the credit is safe for every
  interleaving exactly when there is at most one writer (`CreditByWriters.SafeExactlyForOneWriter`).
- writeRequest stores the open and the half-closed state without a look at the state it overwrites.
  Each closed state that is lost this way lets the stream be counted out once more: twice
  (`ConnLifecycle.RaceCountsOutTwice`), for a request without a body three times
  (`ConnLifecycle.RaceCountsOutThrice`). A stream that lost none is counted out once at most,
  whatever happened to others (`ConnLifecycle.CountedOutAtMostOnce`).
- A stream that ends in an error, its open having overwritten nothing, is never counted out, in any
  continuation of the run (`ConnLifecycle.StreamErrorIsNeverCountedOut`). `ConnLifecycle.CounterIsExact` says what the
  counter counts instead of the streams that are not closed.
- finish closes a stream's Err channel, and a send on a closed channel panics. The read loop's own
  sends are safe (`ConnErr.ReadLoopSendsAreSafe`). Three other sends are not, and for each the exact
  condition is proved. The write loop's send after a failed write can find the channel closed exactly
  if finish has run or is under way when the write fails (`ConnErr.WriteErrorSend`). The send back in
  waitExpectContinue can exactly if finish has run, is under way, or can still be caused by a frame
  when the value is taken (`ConnErr.ExpectSend`). The broadcast of an error can exactly if finish is
  under way or can still be caused when it finds the stream in the table (`ConnErr.BroadcastSend`).
  Each failure is reachable (`ConnErr.WriteErrorSendFails`, `ConnErr.ExpectSendFails`,
  `ConnErr.BroadcastSendFails`).
- A header block that arrives after the trailers of a live stream never reaches the header decoder,
  while the connection goes on (`ReadLoop.RefusedAfterTwo`); every other block does.
- DATA frames of a request carry the END_HEADERS bit of the HEADERS frame whose header object they
  reuse (`BodyWriter.WriteData`).
- The word comparison treats ten bytes next to the letters, nine punctuation characters and DEL, as
  if they had case (`CaseFold.ExactIff`); for header names it is exact.
- Both chunk readers that are read piece by piece report io.EOF for some inputs that are no complete
  bodies. The lenient one does for complete chunks followed by the start of a line without LF that is
  shorter than the buffer, and for nothing else (`LenientBodies.LenientEndMeans`). The strict one does
  for complete chunks followed by the start of a line without LF that is shorter than the buffer or at
  most 16384 bytes long, or by a size line and fewer bytes than it states, and for nothing else
  (`StrictBodies.StrictEndMeans`). So io.EOF from the strict reader means that the lenient decoder
  accepts the input with the same payload exactly when the input spells a complete body
  (`StrictBodies.StrictMeansLenient`).
- A body of a fixed length that is cut short ends with io.EOF, like a whole one: the stream does so
  exactly if fewer bytes arrive than the length says (`ChunkLenient.RequestStream.ReadAll`). It keeps to
  the length, whatever the buffer sizes, if no more is prefetched than the body has, as its callers see to;
  with more, a Read can run past the end (`ChunkLenient.OverrunsLength`).
- A size line that does not fit the read buffer is parsed without the part that filled the buffer
  (`ChunkLenient.LongLineLosesItsStart`); a line that fits is parsed alike with every buffer.
- PUSH_PROMISE does not send its END_HEADERS flag, so it is read back only without it
  (`H2Frames.PushRoundTrip`).

Where code and comments differ the model follows the code: the comment on the word comparison in
`proto/headkit/intern.go` allows any lowercase ASCII target, and for ten bytes, DEL among them, the comparison is not exact.

## Model

| member | source | states |
|---|---|---|
| `ConnMachine.ChunkSize` | client/h2/flow_control.go:39-57 | the largest chunk within what is left, the frame size and both windows; 0 exactly when a window is used up |
| `ConnWindows.DeltaIsExact` | client/h2/read_loop.go:267-275 | the int32 difference of two valid initial windows does not wrap |
| `ConnWindows.StepKeepsInv` | client/h2/request_writer.go:156-191 | every step of every thread keeps the accounting of windows, promised chunks and credit |
| `ConnWindows.WindowsNeverWrap` | client/h2/flow_control.go:100-117 | in every reachable state the int32 window of every stream ever opened is the exact integer sum of its base, credit and debits, and within -(2^31-1)..2^31-1 with the promised chunk too |
| `ConnWindows.WindowConserved` | client/h2/read_loop.go:267-326 | in every reachable state of a connection that has not failed, window = current initial window + credit - debits + 65535 if opened at 0 - changes missed during the open; conserved if and only if these cancel out |
| `ConnWindows.ZeroWindowIsIgnored` | client/h2/request_writer.go:70-77 | a reachable state in which a stream has 65535 bytes of window although the peer gave none |
| `ConnWindows.SettingsMissTheOpen` | client/h2/request_writer.go:70-100 | for any two settings: a reachable state in which an opened stream has the old initial window under the new settings |
| `ConnWindows.CreditIsRespected` | client/h2/flow_control.go:87-98 | with one body writer the totals kept by the machine stay within 65535 plus the credit; `ConnLedger.SentWithinGrant` has the same for the sums of the steps |
| `ConnLedger.SentWithinGrant` | client/h2/flow_control.go:87-98 | for every run: the bytes of its Send steps are at most 65535 plus the increments of its connection WINDOW_UPDATE steps that did not pass 2^31-1, and the connection window is exactly 65535 plus these less the debited bytes |
| `ConnLedger.WindowByTheBooks` | client/h2/read_loop.go:267-326 | for every run and stream: whether it is in the table, its identifier, what was sent on it, and its window as the last initial window plus the increments of its WINDOW_UPDATE steps less its debits, with the two deviations of an open, all told from the steps |
| `ConnLedger.RunBooks` | client/h2/request_writer.go:156-191 | every run keeps the machine in step with the ledger of its steps |
| `ConnBodies.BodiesAreConserved` | client/h2/request_writer.go:149-198 | for every run and opened stream: bytes sent plus bytes left are the body while the writer is at it; afterwards all of it was sent or it was given up; the stream is half-closed exactly if it has no body |
| `ConnBodies.RunBody` | client/h2/request_writer.go:41-198 | every run keeps that account of the bodies, for streams not yet opened too |
| `ConnProgress.WriterGoesOn` | client/h2/request_writer.go:41-147 | in every reachable state a write loop that works on a request and is not asleep can take its next step |
| `ConnProgress.ReaderGoesOn` | client/h2/read_loop.go:19-139 | in every reachable state the read loop takes any increment, any settings and any frame of a live stream, and ends what it began |
| `ConnProgress.CancelGoesOn` | client/h2/conn.go:171-217 | in every reachable state a request that is not closed can be cancelled, and the call waits only for a mutex |
| `ConnProgress.MutexIsLetGo` | client/h2/flow_control.go:18-37 | the write loop lets go of each mutex after a bounded number of its own steps, none of which can block |
| `ConnProgress.ChosenIsLargest` | client/h2/flow_control.go:39-57 | the writer waits exactly if not one byte fits, and otherwise takes the largest chunk that does |
| `CreditByWriters.TwoOverspend` | client/h2/request_writer.go:149-191 | with two or more writers some run sends more than the credit |
| `CreditByWriters.SafeExactlyForOneWriter` | client/h2/request_writer.go:162-188 | every interleaving respects the connection credit if and only if there is at most one writer |
| `ConnWake.NoLostWakeUp` | client/h2/flow_control.go:18-37 | in every reachable state a sleeping writer has reason to sleep or some thread still owes the broadcast that wakes it |
| `ConnWake.RunKeepsWake` | client/h2/conn.go:184-216 | the wake-up invariant through cancel, close, finish, window updates and settings, in any order |
| `ConnLifecycle.IdsAreFreshAndOdd` | client/h2/request_writer.go:48-69 | stream identifiers are odd, strictly increasing, below 2^31-1 and never shared |
| `ConnLifecycle.ErrClosedAtMostOnce` | client/h2/request_writer.go:200-213 | no run closes a stream's Err channel twice |
| `ConnLifecycle.CountedOutAtMostOnce` | client/h2/conn.go:171-217 | for every stream, whatever happened to others: decrements done and owed are at most 1 if it is closed, plus one per closed state the open overwrote, at most 2, and less exactly by the closings that an error stored; with none overwritten at most one |
| `ConnLifecycle.CounterIsExact` | client/h2/conn.go:171-217 | in every reachable state openStreams = opened streams not closed + threads that won the swap of an opened stream and have its decrement ahead + closings by an error - overwritten closed states |
| `ConnLifecycle.LimitHeldAtOpen` | client/h2/conn.go:351-357 | in every run an open leaves the counter within the limit that was checked, and the streams not closed within the limit plus the overwritten states |
| `ConnLifecycle.RaceCountsOutTwice` | client/h2/request_writer.go:78-101 | from any state in which a stream is being opened cancels can lead to a second decrement, on a connection that goes on |
| `ConnLifecycle.RaceCountsOutThrice` | client/h2/request_writer.go:68-101 | from any state in which a request without a body is being opened cancels can lead to a third decrement, on a connection that goes on |
| `ConnLifecycle.StreamErrorIsNeverCountedOut` | client/h2/read_loop.go:88-91 | a stream the read loop ended with an error, its open having overwritten nothing, has no decrement done or owed in any continuation of any run |
| `ConnLifecycle.RunKeepsLife` | client/h2/context.go:79-87 | every run keeps identifiers, states, channel closings and counts in step |
| `ConnErr.ErrClosesExactly` | client/h2/request_writer.go:200-213 | in every reachable state some continuation closes an opened stream's Err channel if and only if it is closed, finish is under way, or the stream is in the table and not closed and the read loop has not failed |
| `ConnErr.RunPast` | client/h2/request_writer.go:200-213 | over every run a channel that cannot be closed any more stays open |
| `ConnErr.RunKeepsErr` | client/h2/request_writer.go:200-213 | over every run only the tail of finish closes a channel, and a closed one stays closed |
| `ConnErr.ReadLoopSendsAreSafe` | client/h2/stream_table.go:113-142 | the sends of GOAWAY and of finish find the channel open, whatever other threads do between look and send |
| `ConnErr.WriteErrorSend` | client/h2/write_loop.go:113-125 | the send after a failed write can find the channel closed if and only if finish has run or is under way when the write fails, and must if and only if it has run |
| `ConnErr.ExpectSend` | client/h2/request_writer.go:21-38 | the send back of a taken value can find the channel closed if and only if it may still be closed at the take, and must if and only if it was closed |
| `ConnErr.BroadcastSend` | client/h2/stream_table.go:86-111 | a broadcast that found a stream in the table can send on its closed channel if and only if finish is under way at the look, or the stream is not closed and the read loop has not failed |
| `ConnErr.WriteErrorSendFails` | client/h2/write_loop.go:113-125 | for all settings that allow a stream: a reachable state in which the send after a failed write finds the channel closed |
| `ConnErr.ExpectSendFails` | client/h2/request_writer.go:21-38 | the same for the send back in waitExpectContinue |
| `ConnErr.BroadcastSendFails` | client/h2/stream_table.go:86-111 | the same for the broadcast of an error |
| `StreamTable.Table.GetStream` | client/h2/stream_table.go:24-40 | lookup by probing and overflow equals lookup in the map |
| `StreamTable.Table.StoreStream` | client/h2/stream_table.go:42-63 | storing a fresh identifier puts it in one place and adds it to the map |
| `StreamTable.Table.DeleteStream` | client/h2/stream_table.go:65-84 | deleting removes the identifier from the map wherever it lives |
| `StreamTable.Table.PurgeStreamsAfterID` | client/h2/stream_table.go:113-142 | exactly the identifiers up to the last one stay, and each purged stream is told once |
| `StreamTable.Table.WalkAll` | client/h2/read_loop.go:273-309 | the SETTINGS walk succeeds exactly when every window can take the change, and then moved every live stream once |
| `StreamTable.Table.WalkSlots` | client/h2/read_loop.go:272-287 | the walk over the slots moves each stream in a slot once, or stops at one that overflows |
| `StreamTable.Table.WalkShard` | client/h2/read_loop.go:289-309 | the walk over an overflow map moves each of its streams once, or stops at one that overflows |
| `StreamTable.FillSlot` | client/h2/stream_table.go:46-51 | taking a free probe slot keeps one place per identifier |
| `StreamTable.EmptySlot` | client/h2/stream_table.go:67-73 | clearing a slot keeps every other stream findable |
| `StreamTable.SplitByShard` | client/h2/stream_table.go:53-62 | an overflow map holds exactly the streams hashed to it that are in no slot |
| `ReadLoop.BlocksAreAssembled` | client/h2/read_loop.go:33-127 | over every run the decoder gets exactly the concatenated fragments of each header sequence that is not refused, live stream or not; a sequence is refused exactly if its stream is live and its trailers were decoded since it was opened; the buffer is empty between sequences; no stream finishes successfully inside one |
| `ReadLoop.RefusedAfterTwo` | client/h2/read_loop.go:383-386 | a refused block has two earlier decoded blocks of the same stream |
| `ReadLoop.PendingEndIsHonoured` | client/h2/read_loop.go:111-127 | a deferred END_STREAM is pending only on the stream of the open sequence |
| `ReadLoop.Loop.Turn` | client/h2/read_loop.go:141-181 | one turn of the loop does what the frame machine does |
| `ReadLoop.Loop.DeadStream` | client/h2/read_loop.go:33-69 | fragments for unknown or closed streams are assembled and decoded too |
| `ReadLoop.Loop.LiveBlock` | client/h2/read_loop.go:358-419 | a finished block of a live stream is decoded once, or refused after trailers |
| `ReadLoop.Loop.LiveStream` | client/h2/read_loop.go:88-127 | a frame of a live stream, then its end-of-stream handling; which streams end is `StreamEnds.StreamsEndRightly` |
| `ReadLoop.Loop.Handle` | client/h2/read_loop.go:19-139 | turns keep the invariant behind the assembly theorem |
| `StreamEnds.StreamsEndRightly` | client/h2/read_loop.go:19-139 | for every run: the streams finished, in order and with their outcomes, are computed from the frames and the answers to them alone; a stream is live exactly if it was opened and neither dropped nor ended since; the loop has failed exactly if a frame was fatal |
| `StreamEnds.RunMatches` | client/h2/read_loop.go:19-139 | the same carried from any point of a run to its end |
| `BodyWriter.WriteData` | client/h2/request_writer.go:149-198 | success means the payloads concatenate to the body, each within frame size and windows when chosen, END_STREAM on the last frame only |
| `BodyWriter.WriteTunnelData` | client/h2/request_writer.go:251-291 | the same for tunnel data: every frame of a non-empty body is non-empty and within its limits, END_STREAM is on the last frame exactly if asked for, and an empty body is one empty frame exactly if it ends the stream |
| `BodyWriter.SendBody` | client/h2/request_writer.go:156-191 | the loop both share: payloads are a prefix of the body and flags are only added |
| `Swar.WordCovers` | proto/headkit/header.go:95-101 | the zero-byte test misses no delimiter, whatever borrows reach its lane |
| `Swar.FalseLane` | proto/headkit/header.go:95-101 | it does report a byte that is none, after a true match |
| `Swar.LoadMask` | proto/headkit/header.go:120-126 | the mask of a word has lane bits only, among them the lane of every delimiter |
| `Swar.FirstLane` | proto/headkit/header.go:134-137 | the lowest set bit belongs to the first set lane |
| `Swar.TakeLane` | proto/headkit/header.go:204-210 | clearing eight bits from there removes that lane and no other |
| `HeaderStore.PackUnpack` | proto/headkit/header.go:346-349 | packing four fields into a word loses nothing if and only if all four have 16 bits |
| `HeaderStore.OrDisjoint` | proto/headkit/header.go:349-349 | or of shifted fields is addition |
| `HeaderStore.SlotByFold` | proto/headkit/header.go:351-411 | names share a reserved slot exactly when they are equal up to case; which name has which slot is `HeaderMeaning.SlotMeans` |
| `HeaderStore.WithoutMeans` | proto/headkit/header.go:527-550 | removal leaves nothing the key names and everything else |
| `HeaderStore.WithoutIsFilter` | proto/headkit/header.go:527-550 | exactly the entries the key does not name are kept, in order and once each, and nothing is added |
| `HeaderParse.SkipPlain` | proto/headkit/header.go:126-130 | bytes that are no delimiters leave the parser's state alone |
| `HeaderRefine.ParseMeansLines` | proto/headkit/header.go:104-317 | for every block of at most 65535 bytes the parsed store is what the block's lines say: entries, order, named places and first error |
| `HeaderRefine.PlaceRefines` | proto/headkit/header.go:346-422 | placing a packed entry is placing it in the list, with the Host and Content-Length rules; what these are is `HeaderMeaning.PlaceMeans` |
| `HeaderRefine.CutSlices` | proto/headkit/header.go:319-344 | trimming by positions equals trimming the slices |
| `HeaderRefine.FlushIsLine` | proto/headkit/header.go:283-317 | a last line without a line feed is treated like any line |
| `HeaderRefine.LineByLine` | proto/headkit/header.go:221-281 | what holds at one line and carries to the next holds at the last |
| `HeaderMeaning.SlotMeans` | proto/headkit/header.go:351-411 | the six reserved places are those of Host, Connection, Content-Length, Content-Type, User-Agent and Accept, spelled out, in any case, and of no other name |
| `HeaderMeaning.SplitMeans` | proto/headkit/header.go:221-281 | the lines of a block have no line feed and joined by line feeds give the block |
| `HeaderMeaning.TrimMeans` | proto/headkit/header.go:319-344 | trimming takes off blanks at both ends and leaves none there |
| `HeaderMeaning.PlaceMeans` | proto/headkit/header.go:346-422 | one more field: Host and Content-Length keep the first, the other four places the last, everything else is appended; a second Host and a different Content-Length are errors and no other repetition is |
| `HeaderMeaning.BlockMeans` | proto/headkit/header.go:104-422 | for every block of at most 65535 bytes the store yields the six places and then the other fields in order, as its lines say, and reports the first offence of the lines |
| `HeaderMeaning.GetMeans` | proto/headkit/header.go:424-490 | Get after a parse finds the first or the last line of that name, as its place demands |
| `HeaderMeaning.SecondHost` | proto/headkit/header.go:355-366 | a block with two Host lines reports an error |
| `HeaderLookup.ViewIsFlat` | proto/headkit/header.go:553-570 | iteration yields the named places in order, then the other entries in order |
| `HeaderLookup.LookupMeans` | proto/headkit/header.go:424-490 | Get finds the first match of the whole list, skipping an empty value in a reserved slot |
| `HeaderLookup.SetThenLookup` | proto/headkit/header.go:514-517 | a value just set is the one found |
| `Headkit.Headers.ParseHeaderBlockSWAR` | proto/headkit/header.go:104-317 | the scan in words leaves the same store as the byte loop, false lanes and all, and terminates |
| `Headkit.Headers.AddPacked` | proto/headkit/header.go:319-422 | trims, packs and places one entry |
| `Headkit.Headers.Word` | proto/headkit/header.go:132-217 | taking the lanes of one word in turn does what the bytes up to the last lane do |
| `Headkit.Headers.Byte` | proto/headkit/header.go:221-281 | one byte of the tail loop |
| `Headkit.Headers.Get` | proto/headkit/header.go:424-490 | the slot, then the packed words, then the overflow list |
| `Headkit.Headers.Set` | proto/headkit/header.go:514-517 | all entries of the name are replaced by one at the end, which Get then finds |
| `Headkit.Headers.Add` | proto/headkit/header.go:519-521 | appends one entry |
| `Headkit.Headers.Del` | proto/headkit/header.go:527-550 | removes exactly the entries the key names, packed and overflow |
| `Headkit.Headers.All` | proto/headkit/header.go:553-570 | yields the contents in order |
| `Headkit.ParseBlock` | proto/headkit/header.go:104-317 | the object after parsing any block holds what the lines of the block say and reports their first offence |
| `Headkit.ParseAndGet` | proto/headkit/header.go:104-490 | Get on a parsed object gives the value that the lines of the block give |
| `Headkit.ParseAndEdit` | proto/headkit/header.go:104-570 | any block parsed and then edited by any Set, Add and Del calls gives what the list model gives |
| `CaseFold.EqualFoldSWAR` | proto/headkit/intern.go:708-753 | for ASCII targets: words fold bytes up to the covered length, single bytes are lowercased after it |
| `CaseFold.Compare64` | proto/headkit/intern.go:755-762 | a folded word equals an ASCII word exactly when byte folds to byte, although lanes can carry into each other |
| `CaseFold.Compare32` | proto/headkit/intern.go:764-771 | the same for four bytes |
| `CaseFold.ExactForNames` | proto/headkit/intern.go:706-753 | for targets of lowercase letters and hyphens the comparison is case-insensitive equality, on all bytes |
| `CaseFold.ExactIff` | proto/headkit/intern.go:706-753 | for any lowercase target it is exact for every name if and only if no covered byte is next to the letters |
| `Octets.HexRoundTrip` | proto/http/body_chunked.go:162-167 | a written size is read as the number |
| `Octets.ParseSizeMeans` | proto/http/body_chunked.go:218-231 | a text is read as n exactly if it is hexadecimal digits whose positional value is n, and n is an int |
| `ChunkSizes.LenientSize` | proto/http/body_chunked.go:191-234 | a line states n leniently exactly if it is digits for n, blanks, nothing or anything after a semicolon, and CRLF |
| `ChunkSizes.StrictSize` | proto/h1/chunked.go:91-119 | a line states n strictly exactly if it is digits for n and CRLF, or digits, blanks, a list of extensions of the grammar and CRLF |
| `ChunkStream.Split` | proto/http/request_stream.go:58-61 | part of a chunk can be taken now and the rest later |
| `ChunkStream.Take` | proto/http/request_stream.go:58-69 | takes bytes of the current chunk in whatever pieces arrive, and its line end with the last one |
| `ChunkLenient.ParseChunkSize` | proto/http/body_chunked.go:191-234 | reads a size line, extensions ignored, with its three ways to fail |
| `ChunkLenient.AppendFixed` | proto/http/body_identity.go:186-219 | fills the wanted bytes however they arrive, or reports the early end |
| `ChunkLenient.ReadBodyChunked` | proto/http/body_chunked.go:34-64 | the loop computes the decoded body, the error and the position |
| `ChunkLenient.RequestStream.Read` | proto/http/request_stream.go:34-112 | what one Read hands out is the next part of what was ahead, chunked or not, and its error is how that ends, errors of the trailer section included |
| `ChunkLenient.RequestStream.ReadAll` | proto/http/request_stream.go:34-112 | any sequence of buffer sizes and arrivals delivers the same bytes, the same error and the same position: chunks and trailer section, or exactly the stated length, prefetched part first, or all there is |
| `ChunkLenient.RequestStream.ReadFixed` | proto/http/request_stream.go:74-111 | for a body without chunks: prefetched bytes first, then the reader, never beyond the length, io.EOF at the length or at the end of the input |
| `ChunkLenient.OverrunsLength` | proto/http/request_stream.go:78-91 | with more bytes prefetched than a non-empty body has, a Read with enough room hands out more than the length and reports no end |
| `ChunkLenient.DecodersAgree` | proto/http/body_chunked.go:34-64 | whole-body and piecewise decoding accept the same inputs, with the same bytes and trailer position |
| `ChunkLenient.LimitIsExact` | proto/http/body_chunked.go:49-51 | a limit accepts exactly the bodies that are no longer |
| `ChunkWriters.LenientCutLooksFinished` | proto/http/request_stream.go:40-44 | written chunks without the last one end the stream like a finished body, while the whole-body decoder reports it |
| `ChunkLenient.LongLineLosesItsStart` | proto/http/body_chunked.go:198-205 | an overlong size line is read without the part that filled the buffer |
| `ChunkLenient.FittingLine` | proto/http/body_chunked.go:191-234 | a line that fits is read alike with every buffer |
| `ChunkExt.ValidateChunkExtensions` | proto/h1/chunked.go:257-378 | the nested loops accept what the scans accept, and terminate |
| `ChunkExt.ValidatorIsGrammar` | proto/h1/chunked.go:257-378 | the validator accepts exactly the written lists of the grammar |
| `ChunkExt.WrittenIsAccepted` | proto/h1/chunked.go:257-378 | everything the grammar writes is accepted |
| `ChunkExt.AcceptedIsWritten` | proto/h1/chunked.go:257-378 | everything accepted is written by some list of extensions |
| `ChunkExt.TokenByteMeans` | proto/h1/headerscanner.go:213-224 | the token bytes are the letters, the digits and the fifteen marks of section 5.6.2 of RFC 9110 |
| `ChunkStrict.ChunkedReader.ReadChunkLine` | proto/h1/chunked.go:45-76 | a line within the limits, or the error of one that is not |
| `ChunkStrict.ChunkedReader.ParseSizeLine` | proto/h1/chunked.go:91-119 | the size of a line with valid extensions; which lines these are is `ChunkSizes.StrictSize` |
| `ChunkStrict.ChunkedReader.DrainTrailers` | proto/h1/chunked.go:122-175 | the trailer section is drained to its empty line, or the first offence is reported |
| `ChunkStrict.ChunkedReader.Read` | proto/h1/chunked.go:79-196 | one Read hands out the next part of what was ahead, or how it ends |
| `ChunkStrict.ChunkedReader.ReadAll` | proto/h1/chunked.go:79-196 | any sequence of reads delivers the same |
| `ChunkStrict.SizesAgree` | proto/h1/chunked.go:91-119 | a strictly accepted size line states the same size leniently |
| `ChunkStrict.StrictThenLenient` | proto/h1/chunked.go:79-196 | complete strict bodies are complete lenient ones with the same payload; strict io.EOF before the end of a body is a lenient error |
| `ChunkWriters.ChunkedWriter.Write` | proto/h1/chunked.go:234-249 | appends one chunk, nothing for an empty write |
| `ChunkWriters.ChunkedWriter.Close` | proto/h1/chunked.go:252-255 | appends the last chunk and an empty trailer section |
| `ChunkWriters.WriteChunk` | proto/http/body_chunked.go:162-188 | a chunk, or the last size line alone |
| `ChunkWriters.WriteBodyChunked` | proto/http/body_chunked.go:99-160 | all pieces of a body as chunks, then the last size line |
| `ChunkWriters.EncodedAhead` | proto/h1/chunked.go:234-255 | any reader of written size lines delivers any list of writes, in front of anything |
| `ChunkWriters.HttpRoundTrip` | proto/http/body_chunked.go:162-188 | what proto/http writes its decoders return, stopping where the trailer starts |
| `ChunkWriters.H1RoundTrip` | proto/h1/chunked.go:234-255 | what proto/h1 writes and closes its reader returns, leaving what follows untouched |
| `ChunkWriters.H1EndToEnd` | proto/h1/chunked.go:79-255 | writer and reader objects together, for any writes, reads and arrivals |
| `ChunkWriters.AlwaysFits` | proto/http/body_chunked.go:162-167 | size lines of any int fit a buffer of 18 bytes |
| `ChunkWriters.StrictCutLooksFinished` | proto/h1/chunked.go:84-89 | chunks without the last one are delivered and end with io.EOF |
| `ChunkWriters.StrictCutInsideChunk` | proto/h1/chunked.go:177-196 | the same for a chunk with fewer bytes than its line states, which the whole-body decoder reports |
| `ChunkGrammar.PiecesAhead` | proto/h1/chunked.go:79-120 | for any rule of what a line states: written chunks are delivered and then what follows them is read |
| `ChunkGrammar.Parse` | proto/h1/chunked.go:79-120 | every input is chunks up to a line that states none or a chunk that is not complete |
| `ChunkStrict.LineEnds` | proto/h1/chunked.go:45-76 | an input counts as ending inside a size line exactly if it has no LF and is shorter than the buffer or within the limit |
| `StrictBodies.FieldMeans` | proto/h1/chunked.go:145-172 | a trailer line is accepted exactly if it is a token that is not forbidden, a colon, and anything |
| `StrictBodies.ReservedMeans` | proto/h1/chunked.go:380-393 | the names refused in a trailer section are host, trailer, content-length and transfer-encoding in any case |
| `StrictBodies.FieldsRead` | proto/h1/chunked.go:122-175 | up to 64 field lines and an empty line are read as a trailer section |
| `StrictBodies.ReadFields` | proto/h1/chunked.go:122-175 | an accepted trailer section is up to 64 field lines and an empty line |
| `StrictBodies.BodyIsRead` | proto/h1/chunked.go:79-196 | chunks, a last line, field lines and an empty line are read to exactly their data, leaving what follows |
| `StrictBodies.CutIsRead` | proto/h1/chunked.go:79-196 | chunks cut inside a line or inside data end with io.EOF after what there was |
| `StrictBodies.StrictEndMeans` | proto/h1/chunked.go:79-196 | the reader ends complete if and only if the input is chunks whose lines have the form of a size line, a line for zero, up to 64 fields and an empty line, and with io.EOF otherwise if and only if it is cut inside a line or inside data |
| `StrictBodies.StrictMeansLenient` | proto/h1/chunked.go:79-196 | when the strict reader ends with io.EOF, the lenient decoder accepts with the same payload if and only if the input spells a complete body |
| `StrictFaults.StrictStopsRightly` | proto/h1/chunked.go:79-196 | for every input, error and body: the reader delivers that body and stops with that error if and only if the input is complete chunks followed by what that error is for, in the words of the grammar |
| `StrictFaults.TrailerFaultMeans` | proto/h1/chunked.go:122-175 | a trailer section is refused with an error if and only if it is up to 64 fields and then a cut, an overlong line, a line without CR, a field too many, a reserved name or no field, each with its own error |
| `StrictFaults.TooLongMeans` | proto/h1/chunked.go:45-76 | a size line is refused for its length if and only if no LF is among the bytes it may have |
| `StrictFaults.BadSizeMeans` | proto/h1/chunked.go:91-119 | a line without CR is a boundary error and one that does not have the form of a size line an invalid size |
| `LenientBodies.ReadLine` | proto/http/body_chunked.go:191-234 | what a size line of any length states, and how an input without LF ends |
| `LenientBodies.BodyIsRead` | proto/http/body_chunked.go:34-64 | chunks and a last line are read by both decoders to exactly their data, up to the trailer section |
| `LenientBodies.LenientEndMeans` | proto/http/request_stream.go:34-72 | the lenient decoders accept an input if and only if it spells such a body, and the stream ends with io.EOF otherwise if and only if it is cut within a line shorter than the buffer |
| `H2Wire.HeadRoundTrip` | proto/h2/header.go:107-122 | header fields survive if and only if the length has 24 bits and the stream 31 |
| `H2Wire.RoundTrip24` | proto/h2/utils.go:84-94 | 24-bit numbers survive |
| `H2Wire.RoundTrip32` | proto/h2/utils.go:96-117 | 32-bit numbers survive |
| `H2Settings.Settings.Read` | proto/h2/settings.go:105-164 | the loop applies settings in order up to the first value that is not allowed |
| `H2Settings.Settings.Encode` | proto/h2/settings.go:166-190 | writes every parameter, switches only when they are on |
| `H2Settings.SettingsRoundTrip` | proto/h2/settings.go:105-190 | encoding and reading into reset parameters restores them all if and only if they are allowed |
| `H2Settings.LastWins` | proto/h2/settings.go:105-164 | reading accepts exactly allowed values, and every parameter then has the last value given for it |
| `H2Frames.PaddingIsExact` | proto/h2/utils.go:128-139 | padding is cut if and only if the payload is a length byte, the data and that many bytes |
| `H2Frames.DependencyRoundTrip` | proto/h2/frame_control.go:222-251 | stream, exclusive bit and weight survive if and only if the stream has 31 bits |
| `H2Frames.DataRoundTrip` | proto/h2/frame_data.go:54-97 | DATA is read back if and only if it is on a stream |
| `H2Frames.HeadersRoundTrip` | proto/h2/frame_headers.go:86-170 | HEADERS with flags, padding and priority is read back if and only if it fits its stream |
| `H2Frames.PriorityRoundTrip` | proto/h2/frame_control.go:222-251 | PRIORITY is read back if and only if it fits |
| `H2Frames.ResetRoundTrip` | proto/h2/frame_control.go:165-183 | RST_STREAM is read back if and only if it is on a stream |
| `H2Frames.SettingsBodyRoundTrip` | proto/h2/settings.go:192-221 | SETTINGS is read back if and only if it is on stream 0 and allowed or an acknowledgement |
| `H2Frames.PushRoundTrip` | proto/h2/frame_ext.go:107-138 | PUSH_PROMISE is read back if and only if it fits and does not end its headers |
| `H2Frames.GoAwayRoundTrip` | proto/h2/frame_control.go:112-136 | GOAWAY is read back if and only if it fits |
| `H2Frames.WindowRoundTrip` | proto/h2/frame_window.go:31-53 | WINDOW_UPDATE is read back if and only if the increment is 1..2^31-1 |
| `H2Frames.PlainRoundTrip` | proto/h2/frame_control.go:45-67 | PING and CONTINUATION are read back if and only if they fit |
| `H2Frames.BodyRoundTrip` | proto/h2/header.go:154-271 | every body is read back as written if and only if it fits |
| `H2Frames.StaysInSync` | proto/h2/header.go:154-251 | reading a frame of any kind and content takes exactly its own bytes and judges it by them; what it makes of them is `H2Grammar.ReadFrameMeans` |
| `H2Frames.StreamStaysInSync` | proto/h2/header.go:154-251 | any sequence of frames, too long, unknown and malformed ones among them, is read frame by frame |
| `H2Frames.FrameRoundTrip` | proto/h2/header.go:254-271 | a frame that fits arrives as it was sent |
| `H2Frames.TrafficRoundTrip` | proto/h2/header.go:137-271 | the bytes of any list of fitting frames with unknown ones among them are read as exactly those frames, in order |
| `H2Grammar.ReadFrameMeans` | proto/h2/header.go:154-251 | for any bytes, whoever wrote them: reading gives an outcome if and only if a header with the length of the payload is in front and the frame is too long, unknown, of that layout, or at fault in that way |
| `H2Grammar.ParseMeans` | proto/h2/header.go:154-251 | for every kind, flags, stream and payload: a body is read if and only if the payload has the layout of that body |
| `H2Grammar.FaultsMean` | proto/h2/header.go:154-251 | and an error is given if and only if the payload has the fault of that error |
| `H2Grammar.UnpaddedMeans` | proto/h2/utils.go:128-139 | with PADDED the payload is a length byte, the contents and that many bytes, without it the contents |
| `H2Grammar.DataMeans` | proto/h2/frame_data.go:54-74 | DATA by its layout, padded or not |
| `H2Grammar.HeadersMean` | proto/h2/frame_headers.go:86-126 | HEADERS by its layout: padding, dependency with exclusive bit and weight, fragment |
| `H2Grammar.PushMeans` | proto/h2/frame_ext.go:107-131 | PUSH_PROMISE by its layout: padding, promised stream, fragment |
| `H2Grammar.SettingsFrameMeans` | proto/h2/settings.go:192-215 | SETTINGS by its layout: six bytes a setting, and every parameter the last value given for its number, or its default |
| `H2Grammar.Big32` | proto/h2/utils.go:96-117 | four bytes are read as the number they write to the base 256, the highest first |
| `H2FrameHeader.FrameHeader.PackHeader` | proto/h2/header.go:107-129 | writes the nine header bytes in place |
| `H2FrameHeader.FrameHeader.Serialize` | proto/h2/frame_headers.go:128-170 | adds the flags and builds the payload of each kind of body |
| `H2FrameHeader.FrameHeader.WriteTo` | proto/h2/header.go:254-271 | appends the frame's bytes |
| `H2FrameHeader.FrameHeader.ReadFrom` | proto/h2/header.go:154-251 | reads, skips or refuses one frame, as `H2Grammar.ReadFrameMeans` says |
| `H2FrameHeader.SendAll` | proto/h2/header.go:254-271 | our frames and foreign ones become their bytes in order |
| `H2FrameHeader.ReceiveAll` | proto/h2/header.go:137-152 | reading on gives the outcome of every frame in order |
| `H2FrameHeader.Exchange` | proto/h2/header.go:137-271 | writing any list of fitting frames with unknown ones among them and reading it back gives ours field for field, the others by their header, in order |
| `Pool.HostPool.PopIdle` | client/pool.go:107-135 | pops the latest idle connections, closing expired ones, up to one that is not |
| `Pool.HostPool.PickLocked` | client/pool.go:98-145 | Get up to where it lets go of the lock does what the step of the interleaving model does |
| `Pool.HostConserves` | client/pool.go:98-200 | every locked section keeps a host's count and loses no connection |
| `Pool.StepKeepsInv` | client/pool.go:98-200 | every section keeps every connection in one place |
| `Pool.PoolIsSafe` | client/pool.go:98-200 | after any interleaving idle + checked + dialing + held is the count, within the limit; no connection is in two places; each one gone was closed, once |
| `PoolHistory.PoolFollowsSteps` | client/pool.go:98-200 | after any interleaving the idle connections of each host are the stack that the steps push and pop, the checked, held and dialing ones what the steps made of them, and the closed ones the expired, unhealthy and discarded ones in order |
| `Decimal.GuardIsExact` | proto/http/http_bytes.go:347-358 | one more digit overflows exactly when the wrapped result or the accumulator says so |
| `Decimal.ParseUintBuf` | proto/http/http_bytes.go:331-364 | the leading digits, their value, or which of the three errors |
| `Decimal.ParseUint` | proto/http/http_bytes.go:300-307 | accepts exactly the non-empty digit strings whose value is an int, and returns it |
| `Decimal.PrintedValue` | proto/http/http_bytes.go:286-293 | the printed digits have the printed value |
| `Decimal.PrintThenParse` | proto/http/http_bytes.go:286-307 | parsing inverts printing |

## Left out

- ConnWindows.CreditIsRespected: for one body writer, like `ConnLedger.SentWithinGrant`; `CreditByWriters` proves that it fails for more.
- ConnLifecycle.StreamErrorIsNeverCountedOut: for streams whose open overwrote no closed state; how often the others are counted out is the equation of `ConnLifecycle.CountedOutAtMostOnce`.
- ConnErr.BroadcastSend: for streams in a probe slot; sends to overflow streams hold the shard's lock, which keeps them before the close.
- ConnErr.ExpectSend: what the channels hold is not modelled, so a value may be taken at any time.
- HeaderRefine.ParseMeansLines: like `HeaderMeaning.BlockMeans` for blocks of at most 65535 bytes, which is what the 16-bit fields can address. Beyond that the scan in words still equals the byte loop, but an entry is read back from other places or with a slice error, which the model shows as an empty value.
- ChunkLenient.DecodersAgree: for inputs no longer than the largest int, since a body is kept in memory.
- ChunkLenient.ReadBodyChunked: an allocation that the runtime refuses is not shown; a body is read as far as it goes.
- Pool.PoolIsSafe: for runs without Close in which each caller returns a connection once and to the address it came from.
- Decimal.ParseUint: for 64-bit ints.
- Server push on the connection (`client/h2/push.go`): its streams bypass the open counter and the window setup.
- Longer sections that are one step of the connection machine: an open from its identifier to the load of the initial window (`client/h2/request_writer.go`, lines 54-70), and the rest of it up to the increment of the counter (lines 71-101); what follows a failed write (lines 114-123 and 135-142); the tail of finish and of CancelStream after the state swap; handleSettings with its walk over the streams; GOAWAY with its purge; and an inbound frame's state check with its handling. Races inside these are not captured.
- Receive windows and WINDOW_UPDATE frames that the client sends: they may be dropped after a second, so nothing exact holds of them.
- HPACK and QPACK: the header decoder takes blocks and says whether it accepted them.
- Liveness: whether a sleeping writer is woken in time, and delivery of queued frames.
- Error texts and wrapped errors: errors are compared by kind.
- ParseHeaderBlockSWAR on a store that was not reset, and iteration that stops early.
- Names of headers beyond the six reserved ones: the intern tables are plain dispatch.
- A reader that returns bytes together with io.EOF: the buffered reader returns them one after the other.
- ReadTrailer after a lenient body: it is any function of the bytes that follow, to an error and what is left.
- Chunk sizes whose sum leaves the int range: the model stops where the source's slice expression panics.
- hexkit and simd: hexadecimal parsing and printing, searching and trimming are given by simple functions.
- Frame bodies are values: reuse of pooled frame objects and of their buffers is not captured, the header object's flags and payload are.
- Clocks, health checks and dials of the pool: which connections are expired, healthy or dialed is any choice.
- TLS, sockets, deadlines, QUIC, proxies, WebSocket, compression, multipart, cookies, URIs, caches and the server: wrappers and plumbing that would only add easy members.
