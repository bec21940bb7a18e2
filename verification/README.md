# A verified model of tinyaprs-gate's core

tinyaprs-gate is an APRS gateway. It carries its own event loop, stream buffers, framing codecs, JSON
parser and MD5. This project models those parts in Dafny and proves what the rest of the program relies
on. `dafny verify dfyconfig.toml` checks all of it.

Most parts come in two layers. One says what an operation does on values, and the theorems are about
that. The other is the operation as the C code has it, with the same loops, pointers and buffers in
classes and arrays, and is tied to the first by the `ensures` of its methods.

| modules | source | main results |
|---|---|---|
| JsonParser, JsonPasses, JsonSecondPass, JsonFate, JsonTree, JsonBounds, JsonSafety, JsonHang | `src/json.c` | two passes over one text: the second follows the first (SecondPassFollows), exactly when it leaves a block (FaultIff), the length below which it never does (ParseSafe), and when the parse ends (ParseEnds) |
| JsonText, JsonReading, JsonNumbers, JsonFirstReading, JsonSecondReading, JsonSizes, JsonRoundTrip, JsonLargest, JsonParse | `src/json.c` | every JSON text of RFC 8259 is read as what it means, and exactly which are not (ParseMeaning), with the least of them (LeastFaults) |
| JsonGrammar, JsonTokens, JsonVerdict, JsonAccept, JsonCodes | `src/json.c` | a grammar of the texts that it accepts, comments and leniencies included: all others are rejected (Verdict, ParseVerdict) |
| JsonFree | `src/json.c` | a tree is freed by parent pointers alone, each node and block once (FreeEx) |
| ChunkQueue, OutputQueue, Ustream | `src/libubox/ustream.c` | a list of chunks with three pointers is a byte queue; nothing written is lost, doubled or reordered, and when a write fails (RunKeeps, WriteIs, FlushFailsIff) |
| UstreamFd, Stream | `src/libubox/ustream-fd.c` | no lost wakeup, and when the end of file and errors are noted (RunKeeps, RunState) |
| Xstream, XStreamObject | `src/libubox/xstream.c` | lines and KISS frames do not depend on how bytes arrive, and lines that fit all arrive (RunLines, AllLines, RunFrames) |
| KissFraming, KissCodec, KissReader | `src/tnc_config.c`, `src/kiss_codec.c`, `src/kiss.c` | the decoders undo the encoder, which frames they refuse, and which do not fit (DecodeEncode, Frames, ControlFrame, RowSpills) |
| Timers, TimerList | `src/libubox/uloop.c`, `src/libubox/list.h` | exact bounds from a difference that is no order (ProcessBounds, OverdueFires, ProcessEnds, WakeBounds, AlwaysTidy) |
| Dispatch, EventLoop | `src/libubox/uloop.c`, `src/libubox/uloop-epoll.c` | nested dispatching: every report is answered, no re-entry, no lost event, no call after deletion, but for one case (ReportIsAnswered, FirstReport, NoReentry, KeptIsDelivered, DeletedIsSilent; CalledDeletedIff) |
| Md5Transform, Md5Rounds, Md5 | `src/hash.c` | however a message is cut, the digest is that of RFC 1321 (Final, HashPieces) |
| Fifo | `src/fifobuf.h` | one producer and one consumer, interleaved in any way (AnyInterleaving, PushDone, PopDone) |
| Slre | `src/slre.c` | exactly when parsing ends, that the matcher does, and how far a match reaches (Foo, Baz) |
| Ax25, Ax25Print | `src/ax25.c` | decoding undoes the address encoding, when the payload lies inside the frame, and the printed text reads back as the frame (DecodeBack, InsideIff, TextReads) |
| Tier2Client | `src/tier2_client.c` | what is sent on every connection and when, and what becomes of the sockets (EverySession, AllIsSent, PublishedIsSent, OpenSockets) |

Where the code does not do what one would expect, the model follows the code, and lemmas give an input that
shows it or say when it happens:

- a number with a negative exponent makes the JSON parser loop for ever (OneTenthHangs, ParseEnds; ParseMeaning);
- so may a fraction of more than 2147483647 digits (ReadNumber1, ParseMeaning);
- the size of an object's entries is held in an `int`: from 89478486 members on the parser is refused the block, or
  writes outside it; refused the root's, it follows a null pointer, and refused another's, it rejects the text
  (FaultIff, ParseMeaning; LargeIs, LeastFaults, WrappedFaults, NestedRejected);
- with names long enough for the size that is missing, such an object is accepted, and its names and its entries
  share their bytes (HeldIff, ParseTree);
- the JSON parser accepts a comma before a closing bracket, any character behind a backslash, control characters in strings,
  a number that is a lone minus sign or has none but an exponent behind it, and what follows a zero byte (Verdict);
- surrogate pairs are put together with OR, so half of them come out wrong (PairExact, MeaningExact);
- a KISS control frame with escapes may be refused although its check byte is right (ControlFrameLost, ControlFrame);
- a KISS body of more than 512 bytes is stored behind its buffer before its length is looked at (FrameSpills,
  RowSpills; LongFrameSpills);
- the other KISS decoder drops what it has whenever its buffer is full, and takes what is left of a long frame for a frame
  (Frames, CutIs);
- a timer callback that sets its timer for no time keeps the event loop firing (AgainAndAgain; ProcessEnds);
- the event loop calls the callback of a descriptor that its own fetch has deleted (CalledDeletedIff, DroppedIsCalled;
  FetchCallsDeleted);
- a character set that ends in a backslash keeps the regex parser where it is (Foo, StuckNeedsEscape; EndlessSet);
- a refused connection leaves its socket open, and each further one another (RefusedKeepsSocket, OpenSockets);
- an AX.25 frame with neither repeater nor payload is refused, and one cut short in its path is accepted with a payload
  of nearly 2^64 bytes (DecodeBack; InsideIff, CutIsAccepted);
- `fifo_len` returns the capacity, which is not how many bytes are held (Len).

## Model

| member | source | states |
|---|---|---|
| JsonParser.StepProgress | src/json.c:288-919 | every iteration of the loop goes on in the text or lowers a rank, so neither pass can loop for ever; `flag_reproc` steps back, comments and the second pass's number skip included |
| JsonPasses.StepWF | src/json.c:288-919 | one iteration of the first pass from a well-formed state never follows a null or stray pointer, and leaves a well-formed state whose open values run from the root to `top` through parent pointers |
| JsonPasses.FirstPassSafe | src/json.c:276-919 | the first pass never follows a null pointer, on any text whatever |
| JsonPasses.Foreseen | src/json.c:117-207 | if the first pass will accept, its final counts cover every state on the way together with what the open strings, names and containers will still add; so blocks sized from them suffice |
| JsonSecondPass.SkipNumberStops | src/json.c:661-677 | the second pass's number skip stops at a place if only number characters lead there and none stands there |
| JsonSecondPass.NumberRun | src/json.c:748-856 | from inside a number of an accepted text the first pass reads number characters only, changes only the number's node, and comes to its end |
| JsonSecondPass.FollowNumber | src/json.c:656-695 | a number takes the second pass one step and the first many, and both end at the same character with the same nodes and flags, unless the entry for it goes beyond its block, where the second ends |
| JsonSecondPass.FollowString | src/json.c:292-445 | on a character of a string or name the second pass writes, within the block, exactly what the first pass counted; where a name ends, its entry may go beyond a block that is too small, and the second ends there |
| JsonSecondPass.FollowStep | src/json.c:288-919 | any other step of the first pass is matched by the second, with every index in bounds, if the block it asks for is to be had and the entry it writes lies in its block; if not, the second pass ends there |
| JsonFate.NextInside | src/json.c:189-207 | the next node that the first pass will create belongs to one of the values now open |
| JsonFate.StepTold | src/json.c:117-207 | a step of the first pass that fits the blocks leaves what the nodes tell of the second pass as it was; one that does not is where they tell the end of it |
| JsonTree.SecondPassFollows | src/json.c:276-921 | if the first pass accepts, the second ends as a walk over the nodes tells (FateFrom), which asks for each object's block when it begins, for the bytes of an entry's name when a member has been named, and of its value when that is complete: all blocks are to be had and large enough, and the second pass accepts with every string, name and value block filled to exactly the count of the first; or a block is refused; or an entry goes beyond its block |
| JsonTree.FaultIff | src/json.c:236-960 | on any text at all: the parser reaches outside a block iff that walk says so, and follows a null pointer iff the root is refused its block |
| JsonBounds.RunPays | src/json.c:276-919 | whatever the text, an object of k members takes 5k + 1 characters of it at least, and 4k + 1 besides one for each byte of its names; one without members has no name |
| JsonSafety.ParseSafe | src/json.c:236-921 | on no text shorter than 447392431 bytes does the parser follow a null pointer or reach outside a block, and what the first pass accepts the second accepts too |
| JsonLargest.LargeIs | src/json.c:117-207 | an object of k members with empty names is accepted iff k is at most 89478485, and otherwise makes the parser follow a null pointer or write outside a block |
| JsonLargest.LargestAccepted | src/json.c:117-207 | an object of 89478485 members with empty names is accepted |
| JsonLargest.LeastFaults | src/json.c:921-1018 | of the object with one member more, a JSON text of 447392431 bytes, the block is refused, and freeing the root follows a null pointer: the bound of ParseSafe is the best there is |
| JsonLargest.WrappedFaults | src/json.c:117-207 | with 178956971 members the size of the entries wraps to eight bytes, and entries are written outside the block |
| JsonLargest.NestedRejected | src/json.c:117-207 | with 178956971 members, of which the first is an object of 89478486, the text is rejected: the inner object is refused before anything of the outer has gone beyond its block |
| JsonSafety.ParseTree | src/json.c:869-915 | of an accepted text every node but the root is an entry of its parent exactly once, entries lead to later nodes, and an object without members has null for its block, iff no object has more than 89478485 members; which holds of every accepted text of less than 2^32 bytes |
| JsonSafety.HeldIff | src/json.c:117-207 | an object with more members lies in its block all the same iff its names have as many bytes as the size of the entries lacks |
| JsonHang.ParseEnds | src/json.c:80-91 | from a text in which no exponent is negative or has ten digits or more, and no fraction has more than 2147483647 digits, the parser comes back, whatever else it holds |
| JsonHang.OneTenthHangs | src/json.c:836-845 | the JSON text `1e-1` is one from which the parser never returns |
| JsonText.PairExact | src/json.c:338-347 | a surrogate pair is put together as RFC 8259 section 7 says iff bit 6 of its first half is clear, because the plane is OR-ed in and not added |
| JsonText.MeaningExact | src/json.c:302-395 | a value means by the standard what it means as the parser reads it iff its integers fit 64 bits and all its surrogate pairs are such |
| JsonCodes.HexIs | src/json.c:47-67 | a hexadecimal digit of either case is worth its place among the sixteen, and nothing else is one |
| JsonCodes.CodeIs | src/json.c:314-318 | four digits are the code unit that they write, the highest first |
| JsonCodes.Utf8Is | src/json.c:349-388 | the bytes written for any code point are read as that one by section 3 of RFC 3629, which allows no longer form |
| JsonReading.ReadElem | src/json.c:302-395 | one written character of a string, raw, escaped, `\u` or a surrogate pair, is taken in one or two steps and adds exactly the bytes it stands for |
| JsonNumbers.ReadNumber1 | src/json.c:748-856 | the first pass reads every number of RFC 8259 section 6, fraction and exponent included, into one node and stops right behind it, or never comes back, iff its exponent is negative or no `int`, or its fraction has more digits than an `int` counts |
| JsonNumbers.WrapOnce | src/json.c:752-775 | wrapping to 64 bits at every digit, and at the sign, is wrapping the whole integer once |
| JsonFirstReading.ReadValue1 | src/json.c:528-919 | the first pass over the text of a value appends the nodes of that value with exactly its counts and stops right behind it, or is stuck on the way iff it holds a number like that |
| JsonSizes.ValueFateShown | src/json.c:117-207 | what the walk over its nodes tells of a JSON text is what a recursion over the text itself does (ValueFate) |
| JsonSecondReading.ReadValue2 | src/json.c:528-919 | the second pass over the same text stores that value in those nodes, and touches no other, if no object in it has too many members |
| JsonRoundTrip.DenotesOne | src/json.c:869-915 | nodes denote one document at most |
| JsonRoundTrip.ParseMeaning | src/json.c:276-960 | every JSON text of RFC 8259 sections 2 to 7 keeps the parser from coming back iff an exponent in it is negative or no `int` or a fraction has more than 2147483647 digits; else it is accepted iff all its objects are to be had their blocks and fit them (ValueFate), and the nodes denote what it means, by the standard iff its integers fit 64 bits and its surrogate pairs are clean; else it is rejected where a block is refused, unless that is the root's, and reaches outside memory otherwise |
| JsonParse.ParseEx | src/json.c:236-921 | the two loops compute the outcome of the two passes, which ParseVerdict and ParseMeaning tell of any text: no fault on a text shorter than 447392431 bytes, and on acceptance a tree iff no object is oversized, as on every text of less than 2^32 bytes |
| JsonFree.Document.FreeEx | src/json.c:970-1018 | freeing ends on every tree; each node is freed once, each block owned by a node once, nothing is used after it is freed, and where an object has no block null is freed and not a count |
| JsonFree.UpWalk | src/json.c:970-1018 | going up from an emptied node keeps the walk: what is neither freed nor on the path still waits in a container |
| JsonFree.EndWalk | src/json.c:970-1018 | when the walk leaves the root, everything has been freed |
| JsonParse.ParseAndFree | src/json.c:964-1025 | a document of less than 2^32 bytes of text that is parsed and then freed loses every node, and every block that a node owns |
| JsonTokens.GapRun | src/json.c:426-472 | white space, and comments of both kinds where they are allowed, are passed over as the grammar of JsonGrammar says, up to the first character of neither; a comment that is not closed, or a slash alone, is rejected |
| JsonTokens.StringRun | src/json.c:292-418 | a string is read up to its closing quote iff all its escapes are of the grammar: any character behind a backslash, four hexadecimal digits behind `u`, and a second such escape behind half a surrogate pair; else the text is rejected |
| JsonTokens.NumberRun | src/json.c:748-856 | a number ends where the grammar says, is rejected for a leading zero, a missing digit behind point or exponent, or a comment right behind it, and hangs iff its exponent or fraction does |
| JsonVerdict.ValueRun | src/json.c:476-919 | from any place where a value may begin, the first pass reads one value of the grammar and appends its nodes, or rejects, or hangs, as the grammar says |
| JsonVerdict.ItemsRun | src/json.c:476-525 | the items of an array: a comma between them, one more allowed before the bracket, anything else rejected |
| JsonVerdict.MembersRun | src/json.c:699-746 | the members of an object: a name, a colon, a value, and a comma between them, one more allowed before the brace, anything else rejected |
| JsonVerdict.Verdict | src/json.c:276-921 | on every text up to 2^32 - 9 bytes, comments on or off: the first pass accepts iff the text up to its first zero byte is a gap, a value of the grammar, and a gap; all others are rejected, but for those with a number that hangs |
| JsonAccept.ParseVerdict | src/json.c:276-921 | so does the whole parse: what is not of the grammar is rejected, what hangs in the grammar hangs, and a text of the grammar shorter than 447392431 bytes is accepted |
| JsonAccept.JsonIsOfGrammar | src/json.c:276-921 | every JSON text of RFC 8259 is of the grammar, but for the numbers that hang |
| JsonAccept.Garbage | src/json.c:474-490 | a value, white space and then any character but white space, a zero byte, a comment, or one that goes on a number: the text is rejected whatever follows, unless the value hangs |
| JsonAccept.MarkSkipped | src/json.c:249-257 | a byte order mark in front of the text makes no difference |
| ChunkQueue.SqueezeKeeps | src/libubox/ustream.c:146-172 | squeezing a chunk keeps the bytes held and the layout: chunks before `data_tail` full and not empty, those after it empty |
| ChunkQueue.PrepareKeeps | src/libubox/ustream.c:250-284 | making room moves no byte of the queue, and succeeds only with room in the chunk being filled |
| ChunkQueue.PrepareFull | src/libubox/ustream.c:250-299 | with one buffer and an allocator that succeeds, reserving one byte fails iff `buffer_len` bytes are held |
| ChunkQueue.PrepareIff | src/libubox/ustream.c:250-284 | with any limit: a byte of room is refused iff there is no byte free behind the data, no empty chunk behind that one, none can be added or the allocator has none, and the data is not moved, as it always is at the limit once anything has been read from the last chunk |
| ChunkQueue.PrepareCount | src/libubox/ustream.c:52-75 | a chunk is added only when there is no room without, and never one more than the limit |
| ChunkQueue.FillReadKeeps | src/libubox/ustream.c:301-326 | filling appends exactly the bytes that lie in the room, however many chunks they span, and `data_bytes` stays their count |
| ChunkQueue.ConsumeKeeps | src/libubox/ustream.c:214-240 | consuming drops exactly that many bytes from the front, whatever chunks are freed or recycled |
| ChunkQueue.ConsumeCount | src/libubox/ustream.c:174-193 | emptied chunks are given back, all but the least number of buffers |
| ChunkQueue.ReadBufFirst | src/libubox/ustream.c:328-343 | the read buffer is the front of what is held; there is none iff `data_bytes` is 0, and with one chunk it is all |
| OutputQueue.FillIsPut | src/libubox/ustream.c:301-326 | reading into the reserved room and then filling is one append |
| OutputQueue.WriteBufferedKeeps | src/libubox/ustream.c:413-438 | buffered writing appends the prefix it reports as taken, and nothing else |
| OutputQueue.WriteKeeps | src/libubox/ustream.c:440-463 | one write: delivered and still buffered bytes grow by exactly the accepted prefix, and -1 means a write error |
| OutputQueue.FailsIff | src/libubox/ustream-fd.c:84-114 | said on the replies of the kernel: a write call fails iff an error comes, with only interrupts and short writes before it, when not all has been taken |
| OutputQueue.LeftIs | src/libubox/ustream-fd.c:84-114 | and what it takes is the sum of what is written before that, or before the link takes no more, up to all there is |
| OutputQueue.WriteIs | src/libubox/ustream.c:440-463 | one write whole: with nothing buffered the link gets what it takes of the data and the rest is buffered, else all is buffered; the error is set iff the link breaks; with no limit and a willing allocator all is accepted |
| OutputQueue.FlushKeeps | src/libubox/ustream.c:372-411 | a flush moves bytes from the front of the queue to the link in order, and loses none |
| OutputQueue.FlushFailsIff | src/libubox/ustream.c:372-411 | a flush sets the write error iff the link breaks at some chunk and has taken all chunks before it |
| OutputQueue.FlushSends | src/libubox/ustream.c:372-411 | a flush to a link that takes all it is given sends all that waits, and says so |
| OutputQueue.RunKeeps | src/libubox/ustream.c:372-463 | over any row of writes and flushes with any short writes, and while there is no write error, delivered followed by buffered bytes are the accepted prefixes in order |
| Ustream.BufList.AddBuf | src/libubox/ustream.c:38-50 | a chunk is linked in as the last |
| Ustream.BufList.FreeBuf | src/libubox/ustream.c:174-193 | the first chunk is given back or recycled behind the last |
| Ustream.BufList.Alloc | src/libubox/ustream.c:52-75 | a chunk is allocated iff the limit allows one and the allocator has one |
| Ustream.BufList.Squeeze | src/libubox/ustream.c:250-263 | squeezing moves the data of the chunk being filled to its front in place |
| Ustream.BufList.PrepareBuf | src/libubox/ustream.c:250-284 | the pointers do what making room does to the list as a value |
| Ustream.BufList.FillRead | src/libubox/ustream.c:301-326 | the loop over chunks fills as the value does |
| Ustream.BufList.Consume | src/libubox/ustream.c:214-240 | the loop over chunks consumes as the value does |
| Ustream.BufList.GetReadBuf | src/libubox/ustream.c:328-343 | the first chunk, iff it holds anything, and the bytes it holds |
| Ustream.BufList.Read | src/libubox/ustream.c:345-363 | the caller's buffer gets the front of the queue, the queue keeps the rest, and the count is the smaller of the two |
| Ustream.BufList.WriteBuffered | src/libubox/ustream.c:413-438 | the loop of copies takes what the value does |
| UstreamFd.AdvanceKeeps | src/libubox/ustream-fd.c:24-137 | every step keeps the descriptor watched as it must be and both queues: bytes received are held or taken, bytes accepted are delivered or held |
| UstreamFd.RunKeeps | src/libubox/ustream-fd.c:24-137 | no lost wakeup over any run: read interest iff neither blocked nor at the end of file, write interest whenever output waits without a write error; and no byte lost either way |
| UstreamFd.RunFits | src/libubox/ustream-fd.c:45-82 | while allocation succeeds, reading stops for want of room only with a full buffer |
| UstreamFd.FlushingFlushes | src/libubox/ustream-fd.c:84-114 | watching from inside the write callback does not change what a flush sends |
| UstreamFd.StateIs | src/libubox/ustream-fd.c:24-137 | what every step does to the state: `eof` is set iff a read finds the end or an error, the stream being unblocked with room; the full block iff there was no room, until something is consumed; the write error iff the link breaks before taking all, or its error is seen; no other step changes any of them, and once all is sent writing is not watched any more |
| UstreamFd.RunState | src/libubox/ustream-fd.c:24-137 | over any run `eof` is set iff some such read has come, and the write error iff some such break has |
| UstreamFd.WriteWatchIs | src/libubox/ustream-fd.c:24-137 | when writing is watched for: begun exactly by a write that falls short, or a flush that leaves something; ended by a flush that leaves nothing and by an error seen; by nothing else while output waits |
| Stream.Stream.constructor | src/libubox/ustream-fd.c:160-173 | a fresh stream is watched for reading, with one read buffer of 4096 bytes and write buffers of 256 |
| Stream.Stream.SetUloop | src/libubox/ustream-fd.c:24-38 | the interest set is that of the value |
| Stream.Stream.SetReadBlocked | src/libubox/ustream.c:195-202 | blocking and unblocking reads adjusts the interest only on a change |
| Stream.Stream.Consume | src/libubox/ustream.c:214-240 | consuming lifts the block that a full buffer had set |
| Stream.Stream.ReadOnce | src/libubox/ustream-fd.c:45-82 | one round of reading: room, block, end of file, or bytes; it does what the value does, of which StateIs tells when the end of file is set |
| Stream.Stream.FdWrite | src/libubox/ustream-fd.c:84-114 | the write loop delivers a prefix, reports how long it is, or -1, and asks for write events iff it was short |
| Stream.Stream.Write | src/libubox/ustream.c:440-463 | a write goes out at once when nothing is buffered, and the rest is buffered |
| Stream.Stream.WritePending | src/libubox/ustream.c:372-411 | the loop over chunks flushes as the value does, and true means that nothing waits |
| Stream.Stream.Flush | src/libubox/ustream-fd.c:116-137 | after a write event the descriptor is watched for writing only if output still waits |
| Xstream.NotifyDigests | src/libubox/xstream.c:12-63 | with one buffer the codec loop consumes and delivers what decoding all held bytes does, and lifts the block if it consumed any |
| Xstream.LinesAppend | src/libubox/xstream.c:119-153 | a text cut anywhere is cut into the same lines |
| Xstream.LinesRight | src/libubox/xstream.c:119-153 | the lines, with what is not ended yet, are the text with nothing left out; each ends in a carriage return or a line feed, 0D or 0A, and has no other, and without their ends they are the same but for that byte |
| Xstream.RunLines | src/libubox/xstream.c:119-153 | from any reader that has looked at all it holds: however reads chunk the input, the lines delivered are the split of it at every CR or LF, and the rest is held |
| Xstream.LineStream | src/libubox/xstream.c:181-195 | the same from a fresh stream |
| Xstream.StuckIff | src/libubox/ustream-fd.c:45-82 | an unblocked line stream reads nothing of what has come iff the buffer is full |
| Xstream.NeverStuck | src/libubox/xstream.c:119-153 | and if each line with its end fits the buffer, that never happens |
| Xstream.AllLines | src/libubox/xstream.c:119-153 | on a fresh stream, if every line with its end has at most 4096 bytes and the last has its end, all that the peer sends is received, however the kernel cuts it, and the lines delivered are the text split at every CR or LF |
| Xstream.RunFrames | src/libubox/xstream.c:12-63 | a KISS stream delivers what its bytes, one by one, complete, whatever pieces they arrive in, and holds nothing back |
| Xstream.FrameStream | src/kiss_codec.c:149-166 | a fresh KISS stream that has received a row of frames with garbage between has delivered exactly the accepted bodies |
| XStreamObject.XStream.DecodeLine | src/libubox/xstream.c:119-153 | the line decoder goes on where it stopped looking, and reports line and bytes consumed as the value does |
| XStreamObject.XStream.OnNotifyRead | src/libubox/xstream.c:12-63 | the loop delivers and consumes as the value does |
| XStreamObject.KissDecoder.Reset | src/kiss_codec.c:46-62 | everything, the timer too, is as at the start |
| XStreamObject.KissDecoder.DecodeByte | src/kiss_codec.c:64-144 | one byte does to the frame buffer what it does to the value |
| XStreamObject.KissDecoder.Decode | src/kiss_codec.c:149-166 | the loop stops right behind the byte that completes a frame |
| KissFraming.EscapedClean | src/tnc_config.c:101-121 | an escaped payload holds no FEND and at most doubles |
| KissFraming.EscapeIs | src/tnc_config.c:101-121 | C0 is sent as DB DC, DB as DB DD, and every other byte as itself |
| KissFraming.FrameBytes | src/tnc_config.c:93-133 | a frame with both of them, written out byte by byte |
| KissFraming.FittingAll | src/tnc_config.c:101-121 | a payload is encoded whole iff all of it but its last byte, escaped, leaves three bytes of the frame free |
| KissFraming.DecodeEncode | src/tnc_config.c:51-133 | decoding an encoded frame gives back port, command and payload, whatever follows it |
| KissFraming.DecodeRefuses | src/tnc_config.c:51-91 | a frame is refused iff it has less than three bytes or does not begin with C0; port and command are the halves of its second byte |
| KissFraming.KissFrame.EncodeBegin | src/tnc_config.c:93-99 | the frame is a FEND and the head byte |
| KissFraming.KissFrame.EncodeAppend | src/tnc_config.c:101-121 | the escaped part of the payload that finds room is appended |
| KissFraming.KissFrame.EncodeEnd | src/tnc_config.c:123-126 | a FEND is appended |
| KissFraming.KissFrame.EncodeEx | src/tnc_config.c:128-133 | the frame is the encoding of as much of the payload as finds room |
| KissFraming.KissFrame.DecodeEx | src/tnc_config.c:51-91 | -1, or the payload with its port and command |
| KissCodec.AlwaysTimed | src/kiss_codec.c:46-166 | after any run of bytes and timeouts the receive timer is pending iff a frame has begun and not ended, and no body is longer than 512 bytes; on a run that stores behind the buffer (RowSpills) this holds of the model only |
| KissCodec.FrameSpills | src/kiss_codec.c:103-127 | between frames, the encoding of a body of any length makes the decoder store a byte behind its 512 byte buffer iff the body has more than 512 bytes, since the length is tested after the store |
| KissCodec.RowSpills | src/kiss_codec.c:103-127 | and any row of frames, with FEND-free garbage between, iff one of its bodies has |
| KissCodec.LongFrameSpills | src/kiss_codec.c:103-127 | a data frame of 513 zeros is one that does it |
| KissCodec.Frame | src/kiss_codec.c:64-144 | one encoded frame is delivered iff it is a data frame or its check byte, as the decoder counts, is right; the decoder is then between frames |
| KissCodec.Frames | src/kiss_codec.c:64-166 | any row of frames with FEND-free garbage between: exactly the accepted bodies, in order |
| KissCodec.DataBodies | src/kiss_codec.c:64-144 | data frames are all accepted |
| KissCodec.ControlFrame | src/kiss_codec.c:129-143 | a control frame with the sender's check byte is accepted iff the bytes that the decoder counts twice, those right before an escaped byte, sum to 0 mod 256 |
| KissCodec.NothingDoubled | src/tnc_config.c:224-231 | in particular when nothing in it needs an escape |
| KissCodec.ControlFrameLost | src/kiss_codec.c:135-143 | the payload 01 C0 is one that is refused |
| KissReader.KissReader.Run | src/kiss.c:117-123 | a frame left open for more than two seconds is dropped, but its escape is not |
| KissReader.KissReader.DecodePutc | src/kiss.c:156-201 | one byte does to the buffer and the callback what it does to the value, in a buffer of two bytes or more |
| KissReader.Frames | src/kiss.c:156-274 | a row of frames of any length with garbage between: the callback is given each frame, and each gap, as `kiss_decode_frame` reads it, or what is left of it |
| KissReader.CutIs | src/kiss.c:170-174 | what is left of a run of bytes between two FENDs is what whole buffers of max - 2 bytes, cut off its front, leave; of a run that fills the buffer, nothing |
| KissReader.StrayEscape | src/kiss.c:176-197 | an escape before any other byte is as if it were not there |
| KissReader.GivenFrame | src/kiss.c:203-274 | a frame reaches the callback iff it is a nonempty data frame of port 0, or the one byte return command |
| KissReader.GapGiven | src/kiss.c:203-274 | stray bytes between frames reach it iff they look like such a frame |
| Timers.DiffBounds | src/libubox/uloop.c:252-257 | how far the truncated difference is off, and what its sign tells, with `tv_usec` from -999999 to 1000000 |
| Timers.DiffNotOrder | src/libubox/uloop.c:252-257 | the difference does not order moments: three of them, each pair of neighbours equal, the outer two apart |
| Timers.AddKeeps | src/libubox/uloop.c:259-278 | adding keeps every timer in the list at most once and every earlier deadline less than 1 ms after any later one, and puts in that timer only |
| Timers.CancelKeeps | src/libubox/uloop.c:309-318 | cancelling takes out that timer and nothing else |
| Timers.SetKeeps | src/libubox/uloop.c:289-307 | setting replaces the timer's deadline by now plus msecs, exactly, negative or not |
| Timers.ProcessBounds | src/libubox/uloop.c:493-507 | whatever callbacks do, no timer fires 1 ms or more early and none 1 ms or more overdue is left |
| Timers.FiredOrLeft | src/libubox/uloop.c:493-507 | a pending timer that no callback touches is fired or left, never both or neither, and no other of its name is |
| Timers.OverdueFires | src/libubox/uloop.c:493-507 | so it is fired if it is 1 ms overdue, and left if it is not due for 1 ms |
| Timers.ProcessEnds | src/libubox/uloop.c:493-507 | if callbacks set timers for a millisecond or more only, however much they do, no more timers fire than were due |
| Timers.AgainAndAgain | src/libubox/uloop.c:493-507 | with a callback that sets its timer for no time the loop goes on for as long as it does so |
| Timers.FireKeeps | src/libubox/uloop.c:493-507 | each timer fired whose callback sets others for a millisecond or more lowers the number of due timers |
| Timers.FirstEarliest | src/libubox/uloop.c:477-491 | the first timer is the earliest to within a millisecond |
| Timers.WaitsIff | src/libubox/uloop.c:477-491 | the loop waits without end iff no timer is pending |
| Timers.WakeBounds | src/libubox/uloop.c:477-491 | sleeping until the next timeout ends at most 1998 microseconds past the earliest deadline |
| Timers.AlwaysTidy | src/libubox/uloop.c:252-318 | the same order and uniqueness after any run, however long, of setting, cancelling and firing |
| TimerList.Loop.Insert | src/libubox/list.h:94-148 | `list_add_tail` before a node of the ring puts the entry there and keeps the ring |
| TimerList.Loop.Remove | src/libubox/list.h:80-110 | `_list_del` takes the entry out and keeps the ring |
| TimerList.Loop.FindPlace | src/libubox/uloop.c:266-270 | the walk over the ring stops at the first later entry, or at the head |
| TimerList.Loop.Add | src/libubox/uloop.c:259-278 | 0 and the timer in its place, or -1 and no change for a timer that is pending |
| TimerList.Loop.Cancel | src/libubox/uloop.c:309-318 | 0 and the timer out of the list, or -1 for one that is not pending |
| TimerList.Loop.Set | src/libubox/uloop.c:289-307 | the list is that of the value |
| TimerList.Loop.NextTimeout | src/libubox/uloop.c:477-491 | the sleep is that of the value |
| TimerList.Loop.Process | src/libubox/uloop.c:493-507 | the loop fires the timers, in the order, that the value does, whatever the callbacks do |
| Dispatch.AdvanceKeeps | src/libubox/uloop.c:137-250 | every step, at any depth of nesting, keeps the book: an intact edge-triggered call has its frame, alone, and only a registered descriptor is queued |
| Dispatch.RunKeeps | src/libubox/uloop.c:137-250 | and so does every run |
| Dispatch.NoReentry | src/libubox/uloop.c:163-205 | the callback just called has no other call of itself under way that is edge-triggered and has not seen its deletion |
| Dispatch.DeletedIsSilent | src/libubox/uloop.c:233-250 | after `uloop_fd_delete`, at whatever depth, the callback is not called until events are fetched anew for it |
| Dispatch.KeptIsDelivered | src/libubox/uloop.c:137-205 | events kept for an edge-triggered call under way are delivered to its callback before its frame is gone, unless it is deleted |
| Dispatch.DeliverKeepsEvents | src/libubox/uloop.c:137-161 | events passed over because their callback is under way are kept for it, and none kept before is lost |
| Dispatch.FirstReport | src/libubox/uloop-epoll.c:69-107 | from an empty queue the callback called is that of the first report that has an error, a hangup or an event, whose descriptor has a callback and whose events are not kept for a call under way, with exactly the events reported; nobody is called iff there is no such report |
| Dispatch.ReportIsAnswered | src/libubox/uloop-epoll.c:69-107 | no report is lost: when the events fetched are used up, the callback of each has been called with exactly its events, or they were kept for a call of it under way, unless it was deleted or added anew meanwhile |
| Dispatch.StepRegisters | src/libubox/uloop.c:207-250 | a descriptor is registered, with the flags asked for, iff it has been added and since then neither deleted nor dropped by a fetch |
| Dispatch.CalledDeletedIff | src/libubox/uloop-epoll.c:69-107 | with nothing queued, what a run calls is a deleted descriptor iff it is one that the fetch itself has deleted, for an error it has not asked to be told of |
| Dispatch.DroppedIsCalled | src/libubox/uloop-epoll.c:69-107 | and if the first report is such, its descriptor is deleted and called all the same, if it has a callback |
| Dispatch.FetchCallsDeleted | src/libubox/uloop-epoll.c:69-107 | a descriptor watched for reading that reports an error is one |
| EventLoop.FdLoop.StackEvent | src/libubox/uloop.c:137-161 | the walk over linked frames keeps the events, or cuts the frame off |
| EventLoop.FdLoop.FdDelete | src/libubox/uloop.c:233-250 | pending events are cleared, the frame cut off and the flags reset |
| EventLoop.FdLoop.FdAdd | src/libubox/uloop.c:207-231 | a descriptor is registered with its flags, or deleted when it wants nothing |
| EventLoop.FdLoop.FetchEvents | src/libubox/uloop-epoll.c:69-107 | the array of events is what the kernel reports, slot by slot: FirstReport and ReportIsAnswered tell what becomes of it |
| EventLoop.FdLoop.RunEvents | src/libubox/uloop.c:163-205 | the loop keeps, skips or delivers as the value does |
| EventLoop.FdLoop.CallbackReturned | src/libubox/uloop.c:185-203 | a callback is called again with what was kept for it, or its frame is taken off |
| Md5Rounds.Round1 | src/hash.c:183-199 | the sixteen written-out steps are steps 1 to 16 of RFC 1321 section 3.4 |
| Md5Rounds.Round2 | src/hash.c:201-217 | steps 17 to 32 |
| Md5Rounds.Round3 | src/hash.c:219-235 | steps 33 to 48 |
| Md5Rounds.Round4 | src/hash.c:237-253 | steps 49 to 64 |
| Md5.TransformBlock | src/hash.c:175-264 | one call is one block of the RFC |
| Md5.Encode | src/hash.c:271-281 | words are written low byte first |
| Md5.Decode | src/hash.c:288-295 | a block is read as sixteen words, low byte first |
| Md5Transform.DecodeEncode | src/hash.c:271-295 | decoding undoes encoding |
| Md5.CountStep | src/hash.c:112-118 | the two counting words, with the carry found by comparison, are 8 times the total mod 2^64 |
| Md5.BlocksAppend | src/hash.c:120-133 | block by block is all at once |
| Md5.PaddingTable | src/hash.c:40-44 | any part of the padding table that is asked for is a padding of that length |
| Md5.Context.constructor | src/hash.c:88-98 | a fresh context has taken in nothing |
| Md5.Context.Update | src/hash.c:105-138 | a context has taken in one more piece: its state, buffer and count are those of the whole message |
| Md5.Context.Final | src/hash.c:145-169 | the digest is that of the message by RFC 1321 sections 3.1 to 3.5, and the context is zeroed |
| Md5.HashPieces | src/hash.c:346-366 | the digest depends on what is read, not on how it is cut |
| Fifo.FullIs | src/fifobuf.h:113-139 | full iff size - 1 bytes are held, empty iff none is; never more are held |
| Fifo.Buffer.constructor | src/fifobuf.h:210-217 | a fresh buffer holds nothing |
| Fifo.Buffer.Push | src/fifobuf.h:156-169 | the byte is appended |
| Fifo.Buffer.Pop | src/fifobuf.h:182-195 | the oldest byte is taken |
| Fifo.Buffer.Flush | src/fifobuf.h:201-205 | nothing is held any more |
| Fifo.Buffer.Len | src/fifobuf.h:222-225 | what it returns is the capacity: never less than the number of bytes held, and that number exactly when the buffer is full |
| Fifo.AnyInterleaving | src/fifobuf.h:113-195 | one producer and one consumer, read by read and write by write: bytes popped are the oldest pushed, none lost; no slot is overwritten before its pop has read it; "not full", once found, stays true |
| Fifo.PushDone | src/fifobuf.h:113-169 | a producer that finds the ring not full and pushes has pushed its byte behind the others, whatever the consumer does in between |
| Fifo.PopDone | src/fifobuf.h:125-195 | a consumer that finds the ring not empty and pops gets the oldest byte, whatever the producer does in between, and whichever of slot and head it reads first |
| Fifo.TestsRight | src/fifobuf.h:113-139 | undisturbed, the two tests tell exactly whether the ring is full, and empty |
| Slre.SetLen | src/slre.c:85-93 | the length up to and with a closing bracket, or -1, or one past the end of the regex |
| Slre.GetOpLen | src/slre.c:95-97 | 0 exactly at a set that is never closed |
| Slre.Bar | src/slre.c:183-300 | ends for every parsed regex; the match reaches at most one past the text, and not past it without a set; captures stay within that |
| Slre.Doh | src/slre.c:303-319 | the same over the branches of a bracket |
| Slre.Baz | src/slre.c:321-334 | the same from every place in the text |
| Slre.SetupBranchPoints | src/slre.c:336-363 | sorting keeps the branches, and every bracket is given exactly those that name it |
| Slre.SortBranches | src/slre.c:340-349 | the exchanges sort, and lose no branch |
| Slre.Foo | src/slre.c:365-423 | parsing and matching end iff the scan of the regex does: with the first error of the scan, or with a match that reaches no further than Bar says; at a set that is never closed, met before any error, it stays for ever |
| Slre.StuckNeedsEscape | src/slre.c:365-423 | which never happens without a backslash |
| Slre.EndlessSet | src/slre.c:365-423 | and does on the regex `[\` |
| Ax25.AX25Msg.DecodeFrame | src/ax25.c:38-97 | -1 for a short frame or another kind, else 1 and all fields of the message, on any frame whose reading stays within memory |
| Ax25.AX25Msg.Repeaters | src/ax25.c:50-73 | the loop reads up to eight repeaters, each with its flag |
| Ax25.PathBack | src/ax25.c:50-73 | a path of any length up to eight is read back, repeaters and flags |
| Ax25.DecodeTold | src/ax25.c:38-97 | with any length told of 17 or more, the bytes of a frame are decoded to its stations and marks, and the payload is said to have what is left of that length, wrapped |
| Ax25.DecodeBack | src/ax25.c:38-97 | a UI frame encoded by section 3.12 of AX.25 v2.2 is decoded to its stations, marks and payload, and refused iff it has neither repeater nor payload |
| Ax25.InsideIff | src/ax25.c:38-97 | an accepted payload lies inside the frame iff the address with the extension bit, or the eighth repeater, and control and PID behind it do; then nothing behind the frame had to be read, and otherwise its length has wrapped to nearly 2^64 |
| Ax25.CutIsAccepted | src/ax25.c:38-97 | a frame with repeaters, told shorter than its path, is such a one |
| Ax25.NeverOutside | src/ax25.c:38-97 | 72 bytes are all that decoding reads |
| Ax25.AcceptIff | src/ax25.c:38-97 | whatever is in memory, a frame is accepted iff it is told 17 bytes or more and control and PID, behind the last address, are those of a UI frame without layer 3 |
| Ax25.SetBits | src/ax25.h:97-114 | setting one repeater's flag leaves the others |
| Ax25Print.PathFits | src/ax25.c:114-131 | with up to eight repeaters the path and its closing zero fit 128 bytes |
| Ax25Print.PrintCall | src/ax25.c:100-106 | a call, printed as the value has it, of which TextReads and DecimalIs tell what it means, and its closing zero fit ten bytes |
| Ax25Print.PrintPath | src/ax25.c:114-131 | the loop builds that path |
| Ax25Print.DecimalIs | src/ax25.c:100-106 | the id printed is a decimal numeral of that value without a leading zero |
| Ax25Print.TextReads | src/ax25.c:100-131 | read by the TNC-2 format (name, hyphen and numeral of a nonzero id, `>`, comma, `*`, colon), the printed text gives source, destination, repeaters and marks, and then the payload up to a zero and a line end |
| Ax25Print.TextTells | src/ax25.c:114-131 | for alphanumeric calls the text tells source, destination, repeaters, their marks, and the payload up to a zero |
| Tier2Client.StepKeeps | src/tier2_client.c:103-300 | every step keeps what the connection's log says in each state |
| Tier2Client.EverySession | src/tier2_client.c:103-300 | on every connection of every run: nothing is sent, or a login after the greeting and then keepalives and packets; keepalives keep their distance; a connected state has a socket |
| Tier2Client.PacketsVerified | src/tier2_client.c:279-289 | every packet comes after the login and a verified logresp on the same connection |
| Tier2Client.OneLogin | src/tier2_client.c:221-260 | at most one login is sent on a connection |
| Tier2Client.RefusedKeepsSocket | src/tier2_client.c:134-192 | a refused connection leaves a disconnected client with an open socket |
| Tier2Client.OpenSockets | src/tier2_client.c:103-192 | over any run: a disconnected client has a socket iff the last attempt to make one was refused; and of all the sockets made, those never closed are one for each refusal and that of the connection |
| Tier2Client.StepSends | src/tier2_client.c:103-300 | every step sends exactly what is due: a login on the greeting, a packet on publishing in a verified session, a keepalive in a session without one for more than 120 seconds that is not given up as idle; and nothing else |
| Tier2Client.AllIsSent | src/tier2_client.c:103-300 | over any run what has been sent, on all connections, is what was due, in order |
| Tier2Client.PublishedIsSent | src/tier2_client.c:279-289 | the packets of a run, on past and present connections, are the texts published while verified, in order |
| Tier2Client.IdleIsTriedAgain | src/tier2_client.c:103-132 | a connection that has not been heard from for more than 90 seconds is closed at the next run, and another attempted at once |
| Tier2Client.ActiveGoesOn | src/tier2_client.c:103-132 | any other goes on |
| Tier2Client.Backoff | src/tier2_client.c:103-132 | a client whose attempts fail tries again each time that more than the wait has passed, and the wait grows by 15 seconds with each |
| Tier2Client.RetryConnects | src/tier2_client.c:103-178 | and the first attempt that succeeds connects |
| Tier2Client.Tier2.OpenClient | src/tier2_client.c:134-178 | 0 iff connected, with the new state |
| Tier2Client.Tier2.CloseClient | src/tier2_client.c:180-192 | closing, which does nothing while disconnected |
| Tier2Client.Tier2.RunClient | src/tier2_client.c:103-132 | reconnecting, keeping alive and closing an idle connection, in that order |
| Tier2Client.Tier2.ReceiveText | src/tier2_client.c:221-260 | a line from the server moves the session on |
| Tier2Client.Tier2.PublishText | src/tier2_client.c:279-289 | a result that is not negative iff the session is verified, and the client then is what the value is, with the packet in the history of its connection (StepSends, PublishedIsSent) |

## Left out

Members stated for less than the code accepts:

- JsonRoundTrip.ParseMeaning: of a number with a fraction or exponent the meaning says only that it is a `double`, not which. A character is one byte of the text, and texts have up to 2^32 - 9 of them. Arithmetic on `int64_t` wraps.
- JsonHang.ParseEnds: one direction only; exactly when the parser comes back is what JsonAccept.ParseVerdict tells, by the grammar. An exponent or a count of fraction digits that is no `int` counts as not coming back, because its conversion is undefined.
- JsonVerdict.Verdict: texts of up to 2^32 - 9 bytes; longer ones may reach the limits of the counters, and are rejected there.
- JsonSafety.ParseSafe: allocation of less than 2^63 bytes succeeds, more does not, and `max_memory` is not set; `int` has 32 bits, `long` and pointers 64, so that an entry of an object takes 24 bytes; the text is read as if a zero byte followed it.
- JsonTree.FaultIff: as ParseSafe. Of freeing the unfinished document after a refusal only the root without a block is modelled; not entries of an oversized root whose pointers its names have overwritten, nor what open containers below the root lose.
- JsonSafety.ParseTree: what names and entries that share bytes make of each other.
- JsonFree.Document.FreeEx: trees the parser returns.
- KissReader.KissReader.DecodePutc: with a buffer of one byte `maxBufferLen - 2` wraps, and bytes are stored beyond it; such buffers are shut out.
- Timers.ProcessBounds: at each event the clock and all pending deadlines lie within 24 days, since the difference is an `int` of milliseconds; the span may move on between events.
- Dispatch.AdvanceKeeps: the trigger mode of a registered descriptor stays as it is, and the kernel reports registered descriptors only, each once.
- EventLoop.FdLoop.FdAdd: `register_poll` succeeds, and O_NONBLOCK is not modelled.
- Ustream.BufList.FreeBuf: the first chunk only, which is the only one its callers give it.
- UstreamFd.RunKeeps: a callback that uses the stream again is a run of further steps between two steps; one made in the middle of a step is not modelled.
- Xstream.LineStream: one line stream at a time, since all line streams of the program share one object, and a codec that does not change.
- KissCodec.AlwaysTimed: after a store behind the buffer, which RowSpills tells, the code may do anything; the model resets as if it had not damaged anything.
- XStreamObject.KissDecoder.DecodeByte: so too; its buffer has one slot more than the source's, which stores byte 513 before it looks at the length.
- KissReader.Frames: head bytes equal to FEND or FESC are shut out, which end the frame or escape what follows.
- Md5.Context.Update: pieces up to 2^32 - 64 bytes; with longer ones `i + 63` may wrap.
- Fifo.AnyInterleaving: each read and write of `head`, `tail` and a slot is one step, in program order.
- Slre.Foo: nothing about which texts match, nor what is captured beyond that it stays within bounds. Characters are ASCII; the entry past the bracket array that `foo` may look at holds anything.
- Ax25.AX25Msg.DecodeFrame: nothing about reads beyond memory, which the repeater loop makes of a short frame since it does not look at the length; with 72 bytes there are none (NeverOutside).
- Ax25Print.TextTells: before `snprintf` cuts the text to the caller's buffer.
- Tier2Client.EverySession: how an attempt to connect ends, whether a line is a verified logresp, and the clock are inputs; a text that is sent is sent whole.

Parts of the program that are not modelled:

- JSON: line and column numbers, error texts, memory limits.
- ustream: `ustream_vprintf`, the zero byte kept behind string data, `ustream_free_buffers` after an error, state callbacks.
- uloop: processes and signals, the explicit timeout of `uloop_run_timeout`, the eof and error flags of a descriptor, kqueue.
- xstream: setting another codec in the middle of a stream.
- AX.25: FCS and bit stuffing, which this program leaves to the modem.
- The regex behind `tier2_client_verifylogin`, name resolution, and the texts that are sent.
- Configuration, logging, beacons, serial ports, sockets, child processes, `src/iokit.c`: plumbing with few properties of their own.
