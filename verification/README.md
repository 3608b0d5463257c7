# Models and proofs for five cores of the repository

This project models five pieces of the repository that keep state or promise a round trip, and proves
what they keep over every input and every run. It is self-contained: `dafny verify dfyconfig.toml`
checks all of it.

**The MP3 stream parser and RTP stamper** (`tools/mp3control/mp32rtp/mp32rtp.c`). `Mp3Stream` gives the
parser as a machine that takes one byte at a time, and beside it a reference scanner with no buffer, no
blocks and no fast skip. `Mp3Chunking` proves when the two agree under every way of cutting the stream
into blocks: if and only if the scanner meets no TAG or ID3 block right behind a skipped byte. Streams
without tags, and well-formed sequences of frames, tags and noise, always meet that condition.
`Mp3Boundaries` proves when the cuts make no difference, whatever the scanner says: if and only if the
parse of the whole stream passes no tag inside the skip. The skip runs over every byte other than 0xff,
the first letter of a tag included, but it forgets at the end of a block that it was skipping. `Mp3Laws` has the laws that need no such condition:
conservation of bytes, disjoint ordered slices, the exact law for splitting a block, and the bounds of
the buffer. `MpegStandard` holds the header calculation against the
standard's layout and rates, and `Mp3Marks` says byte by byte what is recognised. `RtpStamper` gives the
header fields of every packet of a run. `Mp32Rtp` is the program's
own form, a class over one byte array with the in-place shifts, and is proved to do what the machine
does.

**The DWR engine's marshalling** (`dev/GPS/Garmin/dwr/engine.js`). `DwrWire` has the texts and a reader
for them, `DwrMarshal` the serializer on values, which decides as the code does what to take an object for,
`DwrRoundTrip` the isomorphism with the graph as it was taken, `DwrFunctions` what becomes of functions in
arrays, `DwrExact` which graphs can be read back as what they were, `DwrCalls` the extension to whole
batches, `DwrBatchMap` the engine's functions that update the batch and the array of objects met
in place.

**The DWR engine's scheduler** (same file). `DwrEngine` is the engine on values with every outcome of a
send, every reply and every timeout as input; `DwrRuns` has the invariant, carried through the mutually
recursive functions; `DwrSafety` the statements about whole runs; `DwrRelease` progress; `DwrScripts`
which replies complete their batch; `DwrHandlers` and `DwrCallbacks` what becomes of the handlers of a call,
from the call to its callback; `DwrReports` what user code is told of every fault; `DwrScheduler` the engine as objects whose methods call one another,
proved against `DwrEngine`. The methods of `DwrScheduler` have the shape of the functions they are proved
against, so what is proved there is the framing of the heap (which objects a call may change, and that
batch objects and references correspond) and the loops of `_validateBatch`, `_unloader` and the script.
What the engine promises stands in `DwrSafety`, `DwrRelease` and `DwrScripts`: `Play` says that a run on
objects ends in `Run` of the model with the invariant `Good` kept, and from there `AnsweredAtMostOnce`,
`OrderedRuns`, `OneAtATime` and the others apply to it.

**The serial-port registry** (`dev/LinPAC/i7k-0.8.0/i7k/sio.c`). `SioRegistry` has a heap-linked list
that refines a sequence of ports, and the histories of opening and closing over it.

**DCON command framing** (`dev/LinPAC/i7k-0.8.0/i7k/i7k.c`) is in `DconFraming`; **query strings, forms
and HTML escaping** (`httpd/www/js/prototype.js`) are in `UriComponent`, `TextLists`, `QueryString`,
`QueryLaws`, `FormElements` and `HtmlEscape`.

## Where the code falls short of what is said about it

- `mp3parse.h:31` gives 2880 as the longest frame, for MPEG 2.5 "Layer 2,3" at 160 kbps and 8 kHz. By
  the code only Layer II reaches it (Layer III gives half), and with the padding bit it gives 2881, one
  more than `rtp_buf` has room for. The model's buffer has 2881 bytes; `FrameBytesRange` and
  `BufferBounds` say exactly which header that is.
- Parsing depends on block boundaries exactly when a tag begins at a byte that the parse of the whole
  stream passes inside the resync skip (`ChunkIndependenceExactly`; `TagAfterNoise` is such a stream),
  and a cut behind a given block is harmless for every continuation exactly when its parse did not end
  inside the skip (`SplitLawExactly`).
- `unescapeHTML` does not undo `escapeHTML` on texts that hold an entity of a bracket, since `&amp;` is
  undone first (`RoundTripExactly` in `HtmlEscape`).
- A query string does not round trip for a hash with an empty key or an array of fewer than two values
  (`RoundTripExactly` in `QueryString`).
- A refused speed closes the port but leaves its entry in the list (`AgreementExactly`), and a port on
  descriptor 0 cannot be found again, since 0 stands for "not listed" (`ReopenExactly`).
- In the engine, switching ordered mode off lets a new batch overtake the waiting ones
  (`OrderExactly`).
- Marshalling takes any object with a `join` for an array, which loses its members (`JoinLosesObject`), and
  looks an object with a `nodeName` and a `nodeType` up a second time on the way to writing it as XML, which
  makes it a link to itself (`NodeLinksToItself`; the code behind that second lookup is never reached). An
  array that holds a function is written with a dangling reference (`DanglingExactly`). A value can be
  read back exactly when it reaches none of the three (`RoundTripExactly` in `DwrExact`).
- A reply whose script throws leaves its batch outstanding exactly when the statements
  in front of the first that throws do not complete it (`ReplyCompletesExactly`,
  `ScriptCompletesExactly`; `ThrowingRun` is such a run). The batch then stays the received one, and a
  batch exception that names another batch is charged to it (`NamedBatchExactly`).

## Model

| member | source | states |
|---|---|---|
| `MpegHeader.FrameBytesRange` | tools/mp3control/mp32rtp/mp32rtp.c:160-262 | a header is accepted exactly when its computed length is not 0; accepted lengths lie in 24..2881, and 2881 occurs for exactly one header class (MPEG 2.5, Layer II, 160 kbps, 8 kHz, padded) |
| `MpegStandard.HeaderLayout` | tools/mp3control/mp32rtp/mp32rtp.c:190-194 | a header laid out by the standard, field by field, with any protection, private and last bits, is read as these fields |
| `MpegStandard.AllowedExactly` | tools/mp3control/mp32rtp/mp32rtp.c:198 | exactly free format, the forbidden bit rate and the reserved values are refused |
| `MpegStandard.RatesAreStandard` | tools/mp3control/mp32rtp/mp32rtp.c:64-78 | the table holds the standard's bit rates, written out in closed form for each version and layer |
| `MpegStandard.SamplingFrequencies` | tools/mp3control/mp32rtp/mp32rtp.c:211-218 | 44.1, 48 and 32 kHz, a half of them for MPEG 2 and a quarter for MPEG 2.5 |
| `MpegStandard.SamplesOfFrame` | tools/mp3control/mp32rtp/mp32rtp.c:226-252 | 384, 1152 or 576 samples, by layer and version |
| `MpegStandard.FrameLength` | tools/mp3control/mp32rtp/mp32rtp.c:239-255 | a frame is as long as its standard bit rate fills while its samples last, and one slot of padding, of four bytes in Layer I |
| `MpegStandard.CommonHeaders` | tools/mp3control/mp32rtp/mp32rtp.c:160-262 | FF FB 90 00 announces 417 bytes, FF FB 92 00 announces 418 |
| `Mp3Stream.RecogniseRange` | tools/mp3control/mp32rtp/mp32rtp.c:314-334 | what four bytes announce needs only those four bytes, and is 24..2881 bytes long |
| `Mp3Marks.RecognisedExactly` | tools/mp3control/mp32rtp/mp32rtp.c:317-334 | four bytes announce a frame if and only if eleven bits are set and the header is allowed, 128 bytes if and only if they begin with the letters TAG, 24 if and only if with ID3, and otherwise nothing |
| `Mp3Marks.FirstAnnounced` | tools/mp3control/mp32rtp/mp32rtp.c:285-392 | under every chunking the first item delivered is the one that the first four bytes announce |
| `Mp3Marks.Id3Found` | tools/mp3control/mp32rtp/mp32rtp.c:328-331 | however a stream is cut that begins with 0x49 0x44 0x33, its first 24 bytes are the first item and the first call of the hook; without a hook nothing is called |
| `Mp3Marks.TagFound` | tools/mp3control/mp32rtp/mp32rtp.c:324-327 | the same of 0x54 0x41 0x47 and 128 bytes |
| `Mp3Marks.FrameFound` | tools/mp3control/mp32rtp/mp32rtp.c:317-323 | the same of an allowed header; the frame is the first one sent |
| `Mp3Stream.StepSound` | tools/mp3control/mp32rtp/mp32rtp.c:310-390 | every byte keeps the state sound (fewer than 4 bytes held before a header, 4 <= held < announced length after it), and everything delivered is as long as its own header says |
| `Mp3Stream.RunAppend` | tools/mp3control/mp32rtp/mp32rtp.c:310-390 | taking a and then b is taking a++b, for the machine that remembers that it is skipping |
| `Mp3Stream.StepAgrees` | tools/mp3control/mp32rtp/mp32rtp.c:310-390 | one byte through the buffering machine leaves the answer of the bufferless scanner for everything still to come, and keeps the alignment that this needs |
| `Mp3Chunking.BlocksAgree` | tools/mp3control/mp32rtp/mp32rtp.c:285-392 | from any sound state and for any blocks, the items delivered and then the scan of what is still held are the scan of everything, if no tag follows right behind a skipped byte |
| `Mp3Chunking.AnyChunking` | tools/mp3control/mp32rtp/mp32rtp.c:285-392 | from reset, every way of cutting an aligned stream into blocks delivers what the scanner finds, unfinished item included |
| `Mp3Chunking.RunMisaligned` | tools/mp3control/mp32rtp/mp32rtp.c:334-359 | a stream with a tag right behind a skipped byte is always read differently when it comes in one block |
| `Mp3Chunking.ScannerAgreementExactly` | tools/mp3control/mp32rtp/mp32rtp.c:285-392 | the result agrees with the scanner under every chunking if and only if the stream is aligned, that is, the scanner meets no tag right behind a skipped byte |
| `Mp3Boundaries.StepSeamless` | tools/mp3control/mp32rtp/mp32rtp.c:310-390 | the condition on all bytes to come is the one on the next byte (it is not passed inside the skip as the first of a tag) and the one on the rest, from the state it leads to |
| `Mp3Boundaries.CutMatters` | tools/mp3control/mp32rtp/mp32rtp.c:334-359 | cutting in front of a tag that the whole parse passes inside the skip gives a different result from not cutting |
| `Mp3Boundaries.BlocksLag` | tools/mp3control/mp32rtp/mp32rtp.c:285-392 | where no tag is passed inside the skip, a parse cut anywhere delivers what the uncut one delivers, though it may lag behind by up to three bytes that the other has skipped |
| `Mp3Boundaries.ChunkIndependenceExactly` | tools/mp3control/mp32rtp/mp32rtp.c:285-392 | any two ways of cutting a stream into blocks deliver the same, unfinished item included, if and only if the parse of the whole passes no tag inside the skip |
| `Mp3Boundaries.AlignedIsSeamless` | tools/mp3control/mp32rtp/mp32rtp.c:285-392 | where the scanner is met under every chunking, the chunkings agree with each other |
| `Mp3Boundaries.SeamlessNotAligned` | tools/mp3control/mp32rtp/mp32rtp.c:334-359 | not the other way round: of x, TAG and a zero byte no chunking finds the tag that the scanner finds |
| `Mp3Boundaries.TagAfterNoise` | tools/mp3control/mp32rtp/mp32rtp.c:334-359 | four bytes of noise and the start of a tag: in one block the tag is skipped, cut in front of it the tag is found |
| `Mp3Laws.Conservation` | tools/mp3control/mp32rtp/mp32rtp.c:130-140 | bytes held before and bytes read are, in order, exactly the bytes of the pieces handled and the bytes still held: nothing is lost, doubled or moved |
| `Mp3Laws.PiecesAreSlices` | tools/mp3control/mp32rtp/mp32rtp.c:310-390 | any two pieces are slices of the input at offsets that do not overlap and keep their order |
| `Mp3Laws.Tally` | tools/mp3control/mp32rtp/mp32rtp.c:310-390 | bytes read = bytes of frames + 24 per ID3 + 128 per TAG + bytes thrown away + bytes held |
| `Mp3Laws.BufferBounds` | tools/mp3control/mp32rtp/mp32rtp.c:310-390 | after any blocks: under 4 bytes in S_START, otherwise 4 <= held < frame_length with 24 <= frame_length <= 2880, or 2881 for the one oversized header class |
| `Mp3Laws.EndedSkipping` | tools/mp3control/mp32rtp/mp32rtp.c:334-359 | with an empty buffer after at least one piece, a run is inside the resync skip exactly when the last thing it did was to throw a byte away |
| `Mp3Laws.SplitLaw` | tools/mp3control/mp32rtp/mp32rtp.c:310-390 | parsing a then b equals parsing a++b, in state and in all pieces, tags included, when b is empty or begins with 0xff or a did not end inside the skip |
| `Mp3Laws.SplitLawExactly` | tools/mp3control/mp32rtp/mp32rtp.c:310-390 | from a given state, a block a may be cut off from every continuation without any difference if and only if its parse did not end empty behind a thrown-away byte |
| `Mp3Laws.TagFreeScan` | tools/mp3control/mp32rtp/mp32rtp.c:285-392 | a stream holding neither TAG nor ID3 is aligned, and the frames found in it are those of a scanner that knows of frames only |
| `Mp3Laws.TagFreeStreams` | tools/mp3control/mp32rtp/mp32rtp.c:285-392 | on such streams every chunking delivers exactly the frames of the frame-only scanner |
| `Mp3Laws.NoiseIsPassed` | tools/mp3control/mp32rtp/mp32rtp.c:334-359 | bytes with no 0xff and no tag, in front of a 0xff or at the end, change nothing of what the scanner finds behind them |
| `Mp3Laws.ScanOfLayout` | tools/mp3control/mp32rtp/mp32rtp.c:268-392 | the scanner finds exactly the items of any sequence of frames, TAG blocks, ID3 blocks and noise in front of frames |
| `Mp3Laws.LaidOutStreams` | tools/mp3control/mp32rtp/mp32rtp.c:268-392 | any chunking of such a sequence delivers exactly its items in order and ends in S_START; without noise the buffer is empty and nothing was thrown away |
| `Mp3Laws.NoiseCostsNothing` | tools/mp3control/mp32rtp/mp32rtp.c:334-359 | two such sequences with the same items deliver the same, whatever noise they hold and however each is cut into blocks |
| `RtpStamper.TicksAreNearest` | tools/mp3control/mp32rtp/mp32rtp.c:221-240 | the ticks a frame adds to the timestamp are within half a tick of its exact duration |
| `RtpStamper.BytesMatchDuration` | tools/mp3control/mp32rtp/mp32rtp.c:221-255 | the two units of the header calculation agree: without its padding a frame has exactly the whole bytes that its bit rate fills in its duration |
| `RtpStamper.StampAppend` | tools/mp3control/mp32rtp/mp32rtp.c:461-482 | stamping two runs of frames one after the other is stamping them together |
| `RtpStamper.StamperAfter` | tools/mp3control/mp32rtp/mp32rtp.c:461-482 | the counters after n frames: s0+n in its low 16 bits, t0 plus the ticks of all frames in its low 32, the marker still on only if n is 0 |
| `RtpStamper.PacketAt` | tools/mp3control/mp32rtp/mp32rtp.c:461-482 | packet k is frame k behind the header of the counters that the k frames before it left |
| `RtpStamper.PacketFields` | tools/mp3control/mp32rtp/mp32rtp.c:461-482 | packet k of a run has version 2, type 14, the marker only for k = 0, sequence number (s0+k) mod 2^16 and timestamp t0 + sum of the ticks before it mod 2^32, both big-endian, fragment offset 0, and frame k as its payload |
| `RtpStamper.TailIs` | tools/mp3control/mp32rtp/mp32rtp.c:80-92 | the stream identifier is be ef ba be, and four bytes of 0 stand before the frame |
| `RtpStamper.RawPackets` | tools/mp3control/mp32rtp/mp32rtp.c:474-477 | in raw mode the packets are the frames |
| `RtpStamper.DriftBound` | tools/mp3control/mp32rtp/mp32rtp.c:221-240 | over n frames the ticks differ from the exact playing time by at most n/2 |
| `Mp32Rtp.Sender.constructor` | tools/mp3control/mp32rtp/mp32rtp.c:80-92 | the statics as the program starts: empty buffer, S_START, the first header with the marker on |
| `Mp32Rtp.Sender.Reset` | tools/mp3control/mp32rtp/mp32rtp.c:268-273 | the half-assembled item is forgotten; counters and what was sent are as before |
| `Mp32Rtp.Sender.TransferData` | tools/mp3control/mp32rtp/mp32rtp.c:130-140 | as many bytes as fit and are there move to the end of the buffer, in order; the flags say which of the two ran out; the header is untouched |
| `Mp32Rtp.Sender.DiscardFirst` | tools/mp3control/mp32rtp/mp32rtp.c:336-340 | the shift in place drops the first of the four bytes |
| `Mp32Rtp.Sender.DiscardNext` | tools/mp3control/mp32rtp/mp32rtp.c:344-348 | the two-byte shift drops the first byte, though it moves no third one |
| `Mp32Rtp.Sender.Discard` | tools/mp3control/mp32rtp/mp32rtp.c:336-348 | what is left begins at the first 0xff behind the first byte, or is empty |
| `Mp32Rtp.Sender.Enter` | tools/mp3control/mp32rtp/mp32rtp.c:314-334 | four bytes lead to the state that their reading announces, or to the desync label |
| `Mp32Rtp.Sender.SkipToSync` | tools/mp3control/mp32rtp/mp32rtp.c:349-357 | the input moves on to the next 0xff or to the end of the block, and never past a 0xff |
| `Mp32Rtp.Sender.Resynchronise` | tools/mp3control/mp32rtp/mp32rtp.c:334-359 | the buffer keeps its suffix from the next 0xff; only when nothing is left is input skipped |
| `Mp32Rtp.Sender.OnStart` | tools/mp3control/mp32rtp/mp32rtp.c:312-362 | S_START does what the byte machine does on the bytes it takes, and takes at least one |
| `Mp32Rtp.Sender.WriteCounters` | tools/mp3control/mp32rtp/mp32rtp.c:467-472 | the header in the buffer is the one the counters call for, and the frame is untouched |
| `Mp32Rtp.Sender.MarkerOff` | tools/mp3control/mp32rtp/mp32rtp.c:478 | only the top bit of the second header byte changes |
| `Mp32Rtp.Sender.Callback` | tools/mp3control/mp32rtp/mp32rtp.c:435-482 | one packet is sent, with or without its header, and the counters move on by one frame; the frame stays in the buffer |
| `Mp32Rtp.Sender.Deliver` | tools/mp3control/mp32rtp/mp32rtp.c:367-383 | a frame goes to the callback and counts, an ID3 block goes to the hook if there is one, and the buffer is empty |
| `Mp32Rtp.Sender.OnItem` | tools/mp3control/mp32rtp/mp32rtp.c:363-384 | S_FRAME and S_ID3 do what the byte machine does on the bytes they take, and send what it finishes |
| `Mp32Rtp.Sender.OnTag` | tools/mp3control/mp32rtp/mp32rtp.c:385-388 | S_TAG counts bytes without storing them, and sends nothing |
| `Mp32Rtp.Sender.Pass` | tools/mp3control/mp32rtp/mp32rtp.c:310-390 | every pass of the loop takes at least one byte and keeps the run, the outputs and the count in step with the machine |
| `Mp32Rtp.Sender.Parse` | tools/mp3control/mp32rtp/mp32rtp.c:285-392 | mp3_parse, working in place, leaves the state, sends the packets and returns the count that the value model of one block has |
| `Mp32Rtp.Sender.Play` | tools/mp3control/mp32rtp/mp32rtp.c:606-626 | the main loop over any blocks: state, packets, hook calls and the sum of the returned counts |
| `Mp32Rtp.EmitMeans` | tools/mp3control/mp32rtp/mp32rtp.c:367-379 | the packets are the frames among the items stamped in order, and the hook calls the ID3 blocks in order |
| `Mp32Rtp.SentIsWhatTheScannerFinds` | tools/mp3control/mp32rtp/mp32rtp.c:285-392 | end to end: from reset an aligned stream leaves as the scanner's frames, stamped in order, whatever blocks it was read in |
| `UriComponent.OctetsRoundTrip` | httpd/www/js/prototype.js:420-422 | the UTF-8 octets of every character read back as that character, and the first octet tells how many there are |
| `UriComponent.DecodeEncode` | httpd/www/js/prototype.js:420-422 | decodeURIComponent undoes encodeURIComponent, both defined over octets (section 2.1 of RFC 3986) |
| `UriComponent.EncodeSafe` | httpd/www/js/prototype.js:1016-1019 | an encoded text holds none of the characters that query strings and marshalled texts give a meaning to |
| `UriComponent.LeftAlone` | httpd/www/js/prototype.js:1016-1019 | exactly letters, digits and - _ . ! ~ * ( ) and the apostrophe are not escaped |
| `UriComponent.EscapesAre` | httpd/www/js/prototype.js:1016-1019 | an escape is a percent sign and two upper-case digits; digits are read in either case |
| `UriComponent.OctetsAreUtf8` | httpd/www/js/prototype.js:1016-1019 | the octets of a character are its bits, six to an octet, in as few as will hold them (section 3 of RFC 3629) |
| `UriComponent.OnlyUtf8IsRead` | httpd/www/js/prototype.js:420-422 | octets are read as a character if and only if they are the octets of that character |
| `UriComponent.HexDigitsOnly` | httpd/www/js/prototype.js:420-422 | hexadecimal digits of either case are read as digits, and nothing else |
| `UriComponent.PlainStays` | httpd/www/js/prototype.js:420-422 | a text without a percent sign is decoded to itself |
| `TextLists.SplitAcross` | httpd/www/js/prototype.js:416 | splitting at a separator is compatible with joining by it |
| `TextLists.SplitJoined` | httpd/www/js/prototype.js:416 | splitting a join of parts gives the parts of each part |
| `TextLists.DecimalRoundTrip` | dev/GPS/Garmin/dwr/engine.js:397-411 | a number printed in decimal reads back, so generated names with different numbers differ |
| `TextLists.DecimalDigits` | dev/GPS/Garmin/dwr/engine.js:397-411 | a numeral is the numeral of its tens and one more digit |
| `QueryString.ToQueryParams` | httpd/www/js/prototype.js:412-430 | the loop that fills the hash, with its pushes onto arrays, computes the value model; a malformed escape is the exception |
| `QueryString.PairIsRead` | httpd/www/js/prototype.js:1016-1019 | a printed pair is read as its key and value, a missing value as a missing value |
| `QueryString.PartIsRead` | httpd/www/js/prototype.js:1072-1082 | what one entry prints is read back as that entry's values, in order, under its key |
| `QueryString.PrintedIsKept` | httpd/www/js/prototype.js:413 | strip and the match for ? and # take nothing away from a printed string |
| `QueryString.ReadPrinted` | httpd/www/js/prototype.js:412-430 | for every hash and every order of enumeration, reading the printed string gives the hash in normal form |
| `QueryString.NormalExactly` | httpd/www/js/prototype.js:412-430 | a hash is its own normal form exactly when no key is empty and no array is shorter than two |
| `QueryString.RoundTripExactly` | httpd/www/js/prototype.js:1072-1082 | toQueryParams gives back the hash if and only if no key is empty and no array is shorter than two |
| `QueryLaws.QueryOfAddress` | httpd/www/js/prototype.js:413 | a query is read alike by itself, behind any text without # and a question mark, and in front of a fragment |
| `QueryLaws.BrokenFragment` | httpd/www/js/prototype.js:413 | what stands behind a # and over the end of a line is no fragment: the query is what follows the # |
| `QueryLaws.BlanksAre` | httpd/www/js/prototype.js:374-376 | the white space taken away is that of regular expressions, one by one |
| `QueryLaws.BlanksAround` | httpd/www/js/prototype.js:374-376 | white space around a query makes no difference |
| `QueryLaws.TwoPairs` | httpd/www/js/prototype.js:416-428 | two pairs parted by & are two entries |
| `QueryLaws.ValueWithEquals` | httpd/www/js/prototype.js:417-420 | only the first = parts a key from its value |
| `QueryLaws.MalformedThrows` | httpd/www/js/prototype.js:418-420 | a % without digits throws, in a key as in a value |
| `FormElements.SerializeElements` | httpd/www/js/prototype.js:3348-3370 | the loop builds the hash that holds, for each name, the values of the successful controls in form order, as an array exactly when there are several |
| `FormElements.OneSubmit` | httpd/www/js/prototype.js:3358-3359 | at most one submit control counts, none with submit: false; every control that counts has a name and a value |
| `FormElements.SuccessfulExactly` | httpd/www/js/prototype.js:3354-3359 | the controls that count are the enabled, named ones with a value that are no submit buttons, all of them and in order, and the first button that may be sent |
| `FormElements.FormRoundTrip` | httpd/www/js/prototype.js:3348-3370 | toQueryParams of the printed hash of any form of single-valued controls is that hash |
| `HtmlEscape.AmpersandsUndone` | httpd/www/js/prototype.js:527-534 | undoing &amp; after escaping leaves the text with only its angle brackets replaced |
| `HtmlEscape.UnescapeEscape` | httpd/www/js/prototype.js:527-534 | for every text, unescaping the escaped text is replacing the literal entities of the two brackets in it |
| `HtmlEscape.ReplaceShortens` | httpd/www/js/prototype.js:531-533 | replacing by something shorter changes nothing without an occurrence and shortens the text with one |
| `HtmlEscape.RoundTripExactly` | httpd/www/js/prototype.js:527-534 | unescapeHTML(escapeHTML(s)) == s if and only if s holds neither entity literally; otherwise the result is strictly shorter |
| `HtmlEscape.EscapesEach` | httpd/www/js/prototype.js:528-530 | escaping replaces character by character: & by &amp;amp;, < by &amp;lt;, > by &amp;gt; |
| `HtmlEscape.EntitiesUndone` | httpd/www/js/prototype.js:531-533 | each of the three entities is undone to its character |
| `HtmlEscape.AmpersandsFirst` | httpd/www/js/prototype.js:531-533 | an escaped entity of a bracket is undone twice, since ampersands are undone first |
| `DconFraming.GumCr` | dev/LinPAC/i7k-0.8.0/i7k/i7k.c:35-50 | the buffer holds the command up to its terminator, CR and NUL, and what lies behind them is as before |
| `DconFraming.GumChksum` | dev/LinPAC/i7k-0.8.0/i7k/i7k.c:66-93 | the buffer holds the command, the two hex digits of its sum mod 256, CR and NUL, whether char is signed or not |
| `DconFraming.Chksum` | dev/LinPAC/i7k-0.8.0/i7k/i7k.c:108-135 | 0 exactly when the last two characters are the digits of the sum of the rest, with the subtraction done in unsigned wrap-around |
| `DconFraming.FramedIsAccepted` | dev/LinPAC/i7k-0.8.0/i7k/i7k.c:66-135 | every framed command is accepted |
| `DconFraming.CrFirstChangesNothing` | dev/LinPAC/i7k-0.8.0/i7k/i7k.c:35-93 | framing a command that already got its CR is framing the command |
| `DconFraming.DigitsDetermineSum` | dev/LinPAC/i7k-0.8.0/i7k/i7k.c:82-90 | equal check digits mean equal sums mod 256 |
| `DconFraming.SingleErrorIsRejected` | dev/LinPAC/i7k-0.8.0/i7k/i7k.c:108-135 | changing any one byte of an accepted text, digits included, makes it rejected |
| `DconFraming.CharactersAre` | dev/LinPAC/i7k-0.8.0/i7k/i7k.c:35-135 | digits are upper-case hexadecimal, and commands end at NUL, LF or CR |
| `DconFraming.KnownCommand` | dev/LinPAC/i7k-0.8.0/i7k/i7k.c:66-93 | the check digits of $01M are D2 |
| `SioRegistry.TrimAt` | dev/LinPAC/i7k-0.8.0/i7k/sio.c:119-165 | with unique descriptors, trimming removes the one node and keeps the order of the rest, wherever it stands |
| `SioRegistry.TrimKeeps` | dev/LinPAC/i7k-0.8.0/i7k/sio.c:119-165 | after trimming descriptors are still unique, and exactly the one is gone |
| `SioRegistry.FollowKeeps` | dev/LinPAC/i7k-0.8.0/i7k/sio.c:73-104 | after following descriptors are still unique, and exactly the one may have been added |
| `SioRegistry.FollowThenTrim` | dev/LinPAC/i7k-0.8.0/i7k/sio.c:73-165 | following an unknown descriptor and trimming it is the identity; of a known one it is trimming |
| `SioRegistry.WellKeptStep` | dev/LinPAC/i7k-0.8.0/i7k/sio.c:393-643 | opening and closing keep the list one of named ports with distinct descriptors, whatever fails |
| `SioRegistry.AgreementExactly` | dev/LinPAC/i7k-0.8.0/i7k/sio.c:393-643 | one operation keeps the list equal to the open descriptors if and only if it is not an opening that got a descriptor and was refused its speed |
| `SioRegistry.ListIsOpenPorts` | dev/LinPAC/i7k-0.8.0/i7k/sio.c:393-643 | after every history without a refused speed the list is exactly the ports open; in every history its entries are named and distinct |
| `SioRegistry.ReopenExactly` | dev/LinPAC/i7k-0.8.0/i7k/sio.c:409-433 | opening an open port gives its descriptor back and changes nothing if and only if that descriptor is not 0, or open(2) fails |
| `SioRegistry.OpeningIsUndone` | dev/LinPAC/i7k-0.8.0/i7k/sio.c:393-643 | a port not listed is appended under the descriptor returned; closing it, or an undefined parity or stop code, restores list and descriptors |
| `SioRegistry.CodesReturned` | dev/LinPAC/i7k-0.8.0/i7k/sio.c:393-643 | the values that sio_open and sio_close return in each case |
| `SioRegistry.Registry.constructor` | dev/LinPAC/i7k-0.8.0/i7k/sio.c:38-59 | the empty list |
| `SioRegistry.Registry.Device` | dev/LinPAC/i7k-0.8.0/i7k/sio.c:38-59 | the walk along the nodes finds the first port of the name, or 0 |
| `SioRegistry.Registry.Follow` | dev/LinPAC/i7k-0.8.0/i7k/sio.c:73-104 | the node of the descriptor, found or appended at the tail of the heap list |
| `SioRegistry.Registry.Trim` | dev/LinPAC/i7k-0.8.0/i7k/sio.c:119-165 | the heap list refines the sequence without the descriptor; -1 exactly when there was none |
| `SioRegistry.Registry.Unlink` | dev/LinPAC/i7k-0.8.0/i7k/sio.c:136-158 | the pointer changes take out exactly the one node: head, middle, last and only one |
| `SioRegistry.Registry.OpenPort` | dev/LinPAC/i7k-0.8.0/i7k/sio.c:393-595 | sio_open's effect on list and descriptors, for every outcome of open and of the settings |
| `SioRegistry.Registry.ClosePort` | dev/LinPAC/i7k-0.8.0/i7k/sio.c:610-643 | sio_close's effect on list and descriptors, for known and unknown descriptors |
| `DwrWire.ReadText` | dev/GPS/Garmin/dwr/engine.js:1111-1276 | every text of a scalar, a link, an array or an object with any keys reads back as what was written |
| `DwrWire.TextsAre` | dev/GPS/Garmin/dwr/engine.js:1111-1276 | the text of each kind of value |
| `DwrWire.ArrayOfTwo` | dev/GPS/Garmin/dwr/engine.js:1263-1275 | an array of two is a list of two links |
| `DwrWire.ObjectOfTwo` | dev/GPS/Garmin/dwr/engine.js:1172-1189 | an object of two members is a list of two encoded keys with their links |
| `DwrMarshal.AllGrows` | dev/GPS/Garmin/dwr/engine.js:1111-1143 | marshalling any value of a finite graph overwrites nothing, uses only fresh names between the old count and the new, describes every object it meets, writes one container text for each, and leaves under its own name a text that stands for the value |
| `DwrMarshal.ListGrows` | dev/GPS/Garmin/dwr/engine.js:1161-1276 | the same for the children of a node, each under a generated name of its own |
| `DwrMarshal.UnseenLess` | dev/GPS/Garmin/dwr/engine.js:1146-1158 | every object entered lowers the number of objects not yet met, so marshalling a cyclic graph ends |
| `DwrMarshal.ElementNameIs` | dev/GPS/Garmin/dwr/engine.js:1252-1255 | the generated name of the n-th child in call c is "c", c, "-e", n |
| `DwrMarshal.TestsFailOf` | dev/GPS/Garmin/dwr/engine.js:1132 | a test fails exactly of null, undefined, false, 0, NaN and the empty text |
| `DwrMarshal.KeptInOrder` | dev/GPS/Garmin/dwr/engine.js:1174-1182 | the members marshalled of an object are those of its first part and then those of its second |
| `DwrMarshal.KeptIfData` | dev/GPS/Garmin/dwr/engine.js:1175 | a member is marshalled if and only if it is no function |
| `DwrMarshal.LikeAnArray` | dev/GPS/Garmin/dwr/engine.js:1243-1276 | an object with a join, a length n and members 0 to n-1 is marshalled exactly as the array of these members |
| `DwrMarshal.OtherLengths` | dev/GPS/Garmin/dwr/engine.js:1264 | how often the loop runs for a length that is no number |
| `DwrRoundTrip.GraphIsShown` | dev/GPS/Garmin/dwr/engine.js:1111-1276 | where nothing taken for an array holds a function: following the links from the root name gives back the graph as the marshaller takes it, cycles and sharing included: each object visited has one name, no two share one, nothing else is written |
| `DwrFunctions.AllShadows` | dev/GPS/Garmin/dwr/engine.js:1111-1276 | marshalling with a stand-in for every function in what is taken for an array writes the same names and texts, and besides only the texts of the stand-ins |
| `DwrFunctions.EveryGraphIsWritten` | dev/GPS/Garmin/dwr/engine.js:1111-1276 | of any finite graph, every object visited and no other is written, once, under a name of its own and as what it is taken for, with a link for every child; the links lead to the children, except that the link of a function leads nowhere |
| `DwrFunctions.DanglingExactly` | dev/GPS/Garmin/dwr/engine.js:1243-1276 | every node visited that is taken for an array is written with a link for each element, and a link dangles if and only if its element is a function |
| `DwrFunctions.WrittenAsTaken` | dev/GPS/Garmin/dwr/engine.js:1132-1169 | every object visited is written as an array if and only if it is one or has a join on which a test succeeds, as a link to itself if and only if it has instead such a nodeName and nodeType, and as an object otherwise |
| `DwrFunctions.WrittenOnce` | dev/GPS/Garmin/dwr/engine.js:1146-1276 | a new text is that of a container exactly when its name is the name of an object met that is not taken for part of a document |
| `DwrExact.AgreeStays` | dev/GPS/Garmin/dwr/engine.js:1111-1276 | an object that is read back under the name it was written under is an array without functions or an object taken for one, and so on for what it holds |
| `DwrExact.VisitedIsReached` | dev/GPS/Garmin/dwr/engine.js:1111-1276 | where every node reached is one that the marshaller takes for what it is, the objects visited are those reached |
| `DwrExact.DecodesExactly` | dev/GPS/Garmin/dwr/engine.js:1111-1276 | in any map in which a graph stands, it is read back if and only if it reaches only such nodes |
| `DwrExact.RoundTripExactly` | dev/GPS/Garmin/dwr/engine.js:1111-1276 | the marshalled map gives back the graph of a value if and only if the value reaches no array holding a function, no object with a join on which a test succeeds, and none with such a nodeName and nodeType; sharing and cycles included |
| `DwrExact.OneFunctionDangles` | dev/GPS/Garmin/dwr/engine.js:1243-1276 | an array of one function: a reference to a name that is not written |
| `DwrExact.JoinLosesObject` | dev/GPS/Garmin/dwr/engine.js:1132-1133 | an object with only a join: an empty array |
| `DwrExact.NodeLinksToItself` | dev/GPS/Garmin/dwr/engine.js:1161-1169 | an object with a nodeName and a nodeType: a link to itself, since the object is looked up a second time |
| `DwrCalls.ArgGrows` | dev/GPS/Garmin/dwr/engine.js:409-411 | marshalling an argument, functions included, overwrites nothing and uses new element names of its call and the parameter's own name |
| `DwrCalls.StandsGrows` | dev/GPS/Garmin/dwr/engine.js:409-411 | a graph that stands in a map stands in every map this one grows to |
| `DwrCalls.ArgsDone` | dev/GPS/Garmin/dwr/engine.js:409-411 | the graph of every argument of a call stands in the map, and later arguments disturb nothing of earlier ones |
| `DwrCalls.CallDone` | dev/GPS/Garmin/dwr/engine.js:404-415 | a call added to a batch keeps all texts of the calls before it, and the graph of each of its arguments stands in the map |
| `DwrCalls.BatchDone` | dev/GPS/Garmin/dwr/engine.js:404-415 | over any number of calls nothing is overwritten, and the graph of every argument of every call stands in the map |
| `DwrCalls.EveryArgumentDecodes` | dev/GPS/Garmin/dwr/engine.js:368-416 | in the map of a finished batch the j-th argument of the i-th call decodes, under "ci-paramj", to its graph if and only if it meets the condition of the exact round trip |
| `DwrCalls.EveryCallIsHeaded` | dev/GPS/Garmin/dwr/engine.js:404-415 | in the map of a finished batch, the i-th call has its script name, method name and number under "ci-scriptName", "ci-methodName" and "ci-id", what the batch began with is still there, and the count is that of the calls |
| `DwrBatchMap.Lookup` | dev/GPS/Garmin/dwr/engine.js:1146-1158 | the walk over referto finds the entry of the object, or pushes a new one at the end |
| `DwrBatchMap.SerializeXml` | dev/GPS/Garmin/dwr/engine.js:1230-1232 | finds the entry that its caller has just made, and returns a link to it |
| `DwrBatchMap.SerializeAll` | dev/GPS/Garmin/dwr/engine.js:1111-1143 | the engine's function, with its test for a join, updating map, paramCount and referto in place, leaves the state of the value model |
| `DwrBatchMap.NextChild` | dev/GPS/Garmin/dwr/engine.js:1252-1255 | the counter moves on, and the child is marshalled under the name of the new count |
| `DwrBatchMap.SerializeArray` | dev/GPS/Garmin/dwr/engine.js:1243-1276 | the reply and the state of the value model for an array |
| `DwrBatchMap.ArrayLoop` | dev/GPS/Garmin/dwr/engine.js:1260-1275 | the string built up piece by piece is the array's text |
| `DwrBatchMap.SerializeObject` | dev/GPS/Garmin/dwr/engine.js:1161-1190 | the reply and the state of the value model for an object, or for one with a nodeName and a nodeType |
| `DwrBatchMap.ObjectLoop` | dev/GPS/Garmin/dwr/engine.js:1172-1189 | the string built up, with the last separator cut off, is the object's text; members that are functions leave no trace |
| `DwrBatchMap.Execute` | dev/GPS/Garmin/dwr/engine.js:404-415 | head, arguments and count of a call go into the batch as the value model says |
| `DwrRuns.RegisteredSends` | dev/GPS/Garmin/dwr/engine.js:627-632 | registering a batch keeps the invariant: one more outstanding, under an id never used, behind everything sent before |
| `DwrRuns.SendKeeps` | dev/GPS/Garmin/dwr/engine.js:627-696 | sending, with every synchronous failure and everything it sets off, keeps the invariant; the batch comes right behind those sent before and in front of those waiting |
| `DwrRuns.ClearKeeps` | dev/GPS/Garmin/dwr/engine.js:1015-1059 | clearing up keeps the invariant and the order of sent and waiting batches, completes the batch, and leaves at most one outstanding where there was at most one |
| `DwrRuns.ReportKeeps` | dev/GPS/Garmin/dwr/engine.js:1085-1102 | errors and warnings keep the same |
| `DwrRuns.StateKeeps` | dev/GPS/Garmin/dwr/engine.js:811-885 | a state change keeps the same, and completes its batch if the reply can be read to its end |
| `DwrRuns.ScriptKeeps` | dev/GPS/Garmin/dwr/engine.js:878-882 | any script of callbacks, exceptions and batch exceptions keeps the same |
| `DwrRuns.CallbackKeeps` | dev/GPS/Garmin/dwr/engine.js:913-931 | a callback uses up the handlers of its call, is noted at most once, and keeps the same |
| `DwrRuns.ExceptionKeeps` | dev/GPS/Garmin/dwr/engine.js:934-944 | an exception uses up the handlers of its call, is noted at most once, and keeps the same |
| `DwrRuns.BatchExceptionKeeps` | dev/GPS/Garmin/dwr/engine.js:947-958 | a batch exception keeps the same, whether or not its batch is found |
| `DwrRuns.EndKeeps` | dev/GPS/Garmin/dwr/engine.js:208-227 | endBatch accepts one batch or none; it is sent at once, or waits behind all others exactly in ordered mode with something outstanding |
| `DwrSafety.StepFollows` | dev/GPS/Garmin/dwr/engine.js:196-1079 | every event keeps the invariant, moves batches only forward, and does to accepted, sent and waiting batches exactly what its kind says |
| `DwrSafety.RunsAreGood` | dev/GPS/Garmin/dwr/engine.js:196-1079 | every run keeps the invariant, and answers only calls of batches not yet done |
| `DwrSafety.EveryStateIsConsistent` | dev/GPS/Garmin/dwr/engine.js:627-632 | in every reachable state the counter is the size of _batches, ids are unique, _batches is exactly the batches sent and not completed, and a waiting queue means one is outstanding |
| `DwrSafety.AnsweredAtMostOnce` | dev/GPS/Garmin/dwr/engine.js:913-944 | over any run each call gets at most one callback or exception, and none once its batch is completed |
| `DwrSafety.LateRepliesAreIgnored` | dev/GPS/Garmin/dwr/engine.js:811-817 | once a batch is completed, state changes, timeouts and callbacks for it leave the whole engine as it is |
| `DwrSafety.OrderExactly` | dev/GPS/Garmin/dwr/engine.js:222-227 | one event keeps first-in-first-out if and only if it is neither a batch taken while ordered mode is off and others wait, nor an unload while others wait |
| `DwrSafety.OrderedRuns` | dev/GPS/Garmin/dwr/engine.js:208-227 | while ordered mode stays on, through every interleaving of replies, timeouts, failures and polls, what was sent is a prefix of what was accepted |
| `DwrSafety.UnloadDropsTheQueue` | dev/GPS/Garmin/dwr/engine.js:1062-1079 | leaving the page drops exactly the waiting batches and sends none |
| `DwrSafety.OneAtATime` | dev/GPS/Garmin/dwr/engine.js:222-227 | ordered, with no polling and no call to a second servlet in one batch, at most one batch is ever outstanding |
| `DwrRelease.CompletionReleases` | dev/GPS/Garmin/dwr/engine.js:1052-1058 | whenever a reply, a script or a timeout completes a batch while others wait, the first waiting one has been sent next |
| `DwrScripts.ThrowsExactly` | dev/GPS/Garmin/dwr/engine.js:988-993 | a script throws if and only if one of its statements does, and what it does is what the statements in front of that one do |
| `DwrScripts.ReplyCompletesExactly` | dev/GPS/Garmin/dwr/engine.js:811-885 | when a request calls back, its outstanding batch is completed if and only if the batch is asynchronous and either the state cannot be read, or the reply is there, the page is not being left, and no statement of its script throws or those in front of the first that does complete the batch |
| `DwrScripts.TimeoutCompletes` | dev/GPS/Garmin/dwr/engine.js:996-1002 | a timeout completes its outstanding batch if and only if the batch has its timer set |
| `DwrScripts.SendUntouched` | dev/GPS/Garmin/dwr/engine.js:627-696 | sending a waiting asynchronous batch, and all that its failure sets off, leaves every other batch that does not wait, the batch whose reply is being run and the order of the queue alone |
| `DwrScripts.ScriptCompletesExactly` | dev/GPS/Garmin/dwr/engine.js:876-885 | read off the text of the script, while only asynchronous batches wait: it completes its batch if and only if no statement throws, or in front of the first that does there is a batch exception or a callback of the batch whose handler is there and throws |
| `DwrScripts.ThrowLeavesOutstanding` | dev/GPS/Garmin/dwr/engine.js:878-884 | in every state, a script that is one throwing statement changes nothing but the batch held as received, and leaves its batch outstanding; with a batch exception in front the batch is completed |
| `DwrScripts.ThrowingRun` | dev/GPS/Garmin/dwr/engine.js:878-884 | a run from the start that ends with such a batch: one call, sent without fault, and a reply whose script throws |
| `DwrScripts.NamedBatchExactly` | dev/GPS/Garmin/dwr/engine.js:947-958 | a batch exception completes the outstanding batch it names if and only if no other batch is held as received |
| `DwrRelease.SendOutcome` | dev/GPS/Garmin/dwr/engine.js:627-696 | as far as error handlers return: a send that goes wrong in any way completes its batch before _sendData returns; an asynchronous one that goes well registers it and does nothing else |
| `DwrRelease.AnswersArrive` | dev/GPS/Garmin/dwr/engine.js:913-944 | while its batch is outstanding and it has not been answered, a callback or an exception for a call reaches the handler it has, and a callback that throws completes the batch, as far as the error handler then returns |
| `DwrRelease.BatchExceptionCompletes` | dev/GPS/Garmin/dwr/engine.js:947-958 | as far as error handlers return: a batch exception completes the batch held as received, or, if none is, the one it names |
| `DwrHandlers.CallIsAdded` | dev/GPS/Garmin/dwr/engine.js:397-414 | a call goes into its batch under the next number with exactly its handlers, and the handlers of the calls before it stay |
| `DwrHandlers.HandlersAreRetained` | dev/GPS/Garmin/dwr/engine.js:399-402 | over any run, every call keeps the handlers it was made with until it is answered |
| `DwrCallbacks.BatchIsBuilt` | dev/GPS/Garmin/dwr/engine.js:196-202 | beginBatch and n calls to one servlet leave a batch being built that holds exactly the n handlers, by the numbers of the calls |
| `DwrCallbacks.BuiltBatchKeepsHandlers` | dev/GPS/Garmin/dwr/engine.js:399-402 | whatever happens after that, each of these calls keeps its handlers until it is answered |
| `DwrCallbacks.AnsweredInFull` | dev/GPS/Garmin/dwr/engine.js:913-931 | a reply that answers every call has every callback called, in the order of the calls, and completes the batch |
| `DwrCallbacks.BatchIsAnswered` | dev/GPS/Garmin/dwr/engine.js:196-227 | from beginBatch over n calls and endBatch to the reply: every callback is called, in order |
| `DwrReports.FaultIsTold` | dev/GPS/Garmin/dwr/engine.js:668-696 | the first fault of a send is told next: an old browser and refused headers as warnings, a refused open or send as errors |
| `DwrReports.SynchronousSend` | dev/GPS/Garmin/dwr/engine.js:688-696 | a synchronous send that goes well has its batch completed before it returns if and only if the state cannot be read, or the reply is there and the page is not being left |
| `DwrReports.ReplyIsTold` | dev/GPS/Garmin/dwr/engine.js:820-874 | an unreadable state and a reply that is missing or malformed are warnings, another status is an error; told next |
| `DwrReports.TimeoutIsTold` | dev/GPS/Garmin/dwr/engine.js:996-1002 | a timeout is an error, told after all that clearing up sets off |
| `DwrReports.CallbackFaultIsTold` | dev/GPS/Garmin/dwr/engine.js:913-931 | a callback that throws is an error; an answer for which there is no handler says nothing |
| `DwrReports.ExceptionFaultIsTold` | dev/GPS/Garmin/dwr/engine.js:935-944 | an exception without a handler goes to the error handler, and clears nothing up |
| `DwrReports.AnswerUsesUp` | dev/GPS/Garmin/dwr/engine.js:921-922 | an answered call has no handlers left, whether it had any that was used or not |
| `DwrReports.BatchExceptionIsTold` | dev/GPS/Garmin/dwr/engine.js:947-958 | a batch exception is an error, told next |
| `DwrReports.FinishSays` | dev/GPS/Garmin/dwr/engine.js:882-903 | at the end of a reply no batch is the received one, and there is a warning exactly if a call is unanswered, while nothing waits |
| `DwrReports.IncompleteReplyIsTold` | dev/GPS/Garmin/dwr/engine.js:893-903 | an empty script is a warning exactly if the batch has an unanswered call, and completes the batch |
| `DwrReports.FullReplySays` | dev/GPS/Garmin/dwr/engine.js:893-903 | a reply that answers every call says nothing but what it calls |
| `DwrReports.MisusedBatches` | dev/GPS/Garmin/dwr/engine.js:196-219 | beginning twice and ending nothing are errors and change nothing else; an empty batch is dropped |
| `DwrReports.MismatchIsTold` | dev/GPS/Garmin/dwr/engine.js:383-391 | a call to a second servlet is an error and is not added |
| `DwrReports.SettingsAreSet` | dev/GPS/Garmin/dwr/engine.js:65-150 | the setters set what they are named for |
| `DwrReports.StartsAs` | dev/GPS/Garmin/dwr/engine.js:281-346 | the initial state |
| `DwrReports.BatchBegins` | dev/GPS/Garmin/dwr/engine.js:477-497 | a new batch has the settings of the moment and no call |
| `DwrReports.PollGoesOut` | dev/GPS/Garmin/dwr/engine.js:419-460 | a poll is sent asynchronously, without a timeout, to the default servlet, with one call that has a callback |
| `DwrReports.UnloadCompletesAll` | dev/GPS/Garmin/dwr/engine.js:1062-1079 | leaving the page completes every outstanding batch that its loop comes by, drops the queue and marks the engine as unloading |
| `DwrScheduler.BatchObject.Merge` | dev/GPS/Garmin/dwr/engine.js:515-533 | options that are given override those of the batch, and only those |
| `DwrScheduler.Scheduler.constructor` | dev/GPS/Garmin/dwr/engine.js:281-346 | a new engine is the initial state of the model |
| `DwrScheduler.Scheduler.Register` | dev/GPS/Garmin/dwr/engine.js:627-647 | the fields set at the start of _sendData |
| `DwrScheduler.Scheduler.SendData` | dev/GPS/Garmin/dwr/engine.js:627-696 | _sendData on batch objects leaves the state of the value model, recursion included |
| `DwrScheduler.Scheduler.ClearUp` | dev/GPS/Garmin/dwr/engine.js:1015-1059 | _clearUp on batch objects |
| `DwrScheduler.Scheduler.Report` | dev/GPS/Garmin/dwr/engine.js:1085-1102 | _handleError and _handleWarning |
| `DwrScheduler.Scheduler.StateChange` | dev/GPS/Garmin/dwr/engine.js:811-885 | _stateChange, including what is left behind when a script throws |
| `DwrScheduler.Scheduler.ValidateBatch` | dev/GPS/Garmin/dwr/engine.js:893-903 | the loop over the calls warns exactly when one still has its handlers |
| `DwrScheduler.Scheduler.Eval` | dev/GPS/Garmin/dwr/engine.js:988-993 | the statements of a script one after the other, up to one that throws |
| `DwrScheduler.Scheduler.HandleCallback` | dev/GPS/Garmin/dwr/engine.js:913-931 | _remoteHandleCallback |
| `DwrScheduler.Scheduler.HandleException` | dev/GPS/Garmin/dwr/engine.js:934-944 | _remoteHandleException |
| `DwrScheduler.Scheduler.HandleBatchException` | dev/GPS/Garmin/dwr/engine.js:947-958 | _remoteHandleBatchException |
| `DwrScheduler.Scheduler.CreateBatch` | dev/GPS/Garmin/dwr/engine.js:477-497 | _createBatch takes the settings of the moment; the object is new |
| `DwrScheduler.Scheduler.BeginBatch` | dev/GPS/Garmin/dwr/engine.js:196-202 | beginBatch, and its error when a batch is begun already |
| `DwrScheduler.Scheduler.EndBatch` | dev/GPS/Garmin/dwr/engine.js:208-227 | endBatch |
| `DwrScheduler.Scheduler.Execute` | dev/GPS/Garmin/dwr/engine.js:368-416 | the scheduling half of _execute, including the mismatch of servlets |
| `DwrScheduler.Scheduler.Poll` | dev/GPS/Garmin/dwr/engine.js:419-460 | _poll |
| `DwrScheduler.Scheduler.AbortRequest` | dev/GPS/Garmin/dwr/engine.js:996-1002 | _abortRequest |
| `DwrScheduler.Scheduler.Unload` | dev/GPS/Garmin/dwr/engine.js:1062-1079 | _unloader, for any order of its for-in loop |
| `DwrScheduler.Scheduler.Dispatch` | dev/GPS/Garmin/dwr/engine.js:196-1079 | every event of the model, on objects |
| `DwrScheduler.Scheduler.Play` | dev/GPS/Garmin/dwr/engine.js:196-1079 | a whole run on objects ends in the state of the model, and keeps the invariant |

## Left out

- Sockets, reading, options, random start values and the waiting and jitter of `callback` in `mp32rtp.c`: input and output. Start values are parameters, packets go to a sequence.
- The `MPEG_COMPRESS` family, `MPEG_SAMPLERATE` and `MPEG_BITRATE` units: a finite repacking, and values that nothing here uses.
- Layer I frames are as long as the code computes them; the code does not round down to 4-byte slots as the standard does.
- RtpStamper.PacketFields: reads the update of the timestamp, which the program does in double precision, as exact arithmetic, and takes the counter as unbounded with its low 32 bits sent.
- RtpStamper.StamperAfter: the same exact and unbounded counter; the program adds a double to an `unsigned long`.
- RtpStamper.DriftBound: the durations are exact rationals, not doubles.
- Mp32Rtp.Sender.Callback: the waiting and the jitter are not modelled, and the timestamp is the exact one.
- What the ID3 hook does with a block; it is a flag and a log of the blocks it was given.
- Registry: the two option blocks of each port, the wait list and the rest of termios, and the variant for I-7565-H1/H2 ports. Allocation always succeeds. The name of a port is copied, where the source keeps the caller's pointer.
- The value of `open(2)` is an input, -1 or a descriptor not open at the time.
- DconFraming.Chksum: needs two characters before the terminator, as the source reads two bytes back without a check.
- The read loops of `i7k.c` and the wrappers of `msw.c`: device input and output.
- QueryString.RoundTripExactly: keys are plain map keys, without the names that every JavaScript object inherits; values that are objects other than arrays and separators other than `&` are not modelled.
- UriComponent.DecodeEncode: strings are sequences of Unicode scalar values, so a lone surrogate, which the source refuses with an exception, does not occur.
- FormElements.SerializeElements: a control has one value or none; multiple selects are not modelled.
- FormElements.FormRoundTrip: controls with several values at once (multiple select) are not modelled; an array of one value would not round trip.
- HtmlEscape: the version for WebKit and IE, by replacement; the other goes through the DOM.
- DwrBatchMap.SerializeAll: boxed values, dates and values of other types are not modelled. Numbers are carried as their text, null and undefined are one value, and the class name of an object is what is found for it, a word.
- DwrMarshal.AllGrows: arrays hold nothing but their elements, so none of them lacks its `join`. The `length` of an object taken for an array is read where it is absent, a truth value, a function or plainly a whole number; where it is a fraction, an object or other text, how many passes it makes the loop run is part of the object, and finite.
- DwrBatchMap.SerializeXml: what stands behind its lookup, the serializing of documents, is not modelled; no run reaches it.
- The engine's branch of `_serializeArray` for Internet Explorer builds the same text through an array.
- Which argument of a call holds its handlers and options; they are parameters of `Execute`.
- DwrSafety.StepFollows: hooks and handlers do not call back into the engine. Callbacks may throw; error handlers, warning handlers and exception handlers return. In the source a throwing error or warning handler keeps `_handleError` or `_handleWarning` from clearing its batch up.
- DwrRelease.SendOutcome: rests on error and warning handlers that return, as do all statements that a failure completes a batch; only a timeout is cleared up before its handler is called.
- DwrRelease.AnswersArrive: that a throwing callback completes its batch rests on an error handler that returns.
- DwrRelease.BatchExceptionCompletes: rests on an error handler that returns.
- DwrScripts.ReplyCompletesExactly: rests on error and warning handlers that return. The script of a synchronous or asynchronous reply is a list of commands; other script code has no effect on the engine, or throws.
- DwrScheduler.Scheduler.SendData: the branches for iframes and script tags are not modelled.
- DwrScheduler.Scheduler.StateChange: partial replies of Comet polls are not modelled.
- DwrScheduler.Scheduler.CreateBatch: a batch carries the asynchronous and timeout settings; the other settings change nothing that is modelled.
- DwrScheduler.BatchObject.Merge: merges these two settings of the seven.
- DwrScheduler.Scheduler.Poll: the guard for reverse Ajax being off and the start of the Comet check are not modelled.
- DwrScripts.ScriptCompletesExactly: rests on error handlers that return. While a synchronous batch waits, completing a batch may run that one's reply in the middle of the script; DwrScripts.ReplyCompletesExactly covers this case too, in terms of the run.
- DwrScripts.NamedBatchExactly: likewise asks that no synchronous batch waits, or that the received batch is completed already.
- The engine speaks XMLHttpRequest; iframes, script tags, partial replies of Comet polls, cookies and the building of requests are not modelled. `open` does not fail to provide a request object.
- DwrScheduler: setters of polling, of hooks and of handlers; the retries of polls after an error.
- `timer.c`, the Garmin plug-in wrappers, the rest of `prototype.js`, and the LinPAC library headers: easy members or declarations.
