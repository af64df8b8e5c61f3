# WebSocket binary-frame codec, modelled and proved in Dafny

This project models `proxy/ws/frame.go`, the framing layer of the proxy's
WebSocket transport. The file is a codec for binary frames as laid out in
section 5.2 of RFC 6455, with client-to-server masking from section 5.3. It
has two independent stateful halves:

- the **frame writer** (`frameWriter.ReadFrom`, `Write`) pulls up to 4096
  bytes at a time from a source into its scratch buffer. For each chunk it
  builds a 2 to 10 byte header, with FIN and MASK set by role and the
  length written inline, as 16-bit big-endian or as 64-bit big-endian. In
  the client role it then sends the 4-byte mask key and XOR-masks the
  payload in place. It writes header, key and payload to the sink and
  stops at the first sink error or at the end of the source;
- the **frame reader** (`frameReader.Read`) parses a header whenever the
  current frame is used up (`left == 0`). It hands the caller at most
  `min(len(b), left)` payload bytes per call. In the server role it
  unmasks them with a phase (`maskOffset`) that carries over from one
  partial read to the next. The payloads of consecutive frames come out as
  one continuous stream.

Modules, one per concern:

- `Wire` (`wire.dfy`) holds the frame layout:
  - the constants;
  - big-endian encoding and decoding;
  - the choice of length class;
  - the header bytes;
  - XOR masking;
  - the bytes of a whole frame.
- `Streams` (`streams.dfy`) holds the collaborators:
  - an `io.Reader` whose answers are a script (`seq<Yield>`), with one Read call handled by `Take`;
  - `io.ReadFull` over that script (`FullRead`);
  - an `io.Writer` (`Sink`) that records what it accepts and fails when its fault script says so.
- `FrameWriting` (`writer.dfy`) holds the `FrameWriter` class.
  - Its methods mirror the Go loop and its in-place buffer updates.
  - It is specified by the function `Pump`, the whole ReadFrom loop as a function of the source's answers and the sink's state.
- `FrameReading` (`reader.dfy`) holds the `FrameReader` class.
  - Its fields are `left`, `maskKey`, `maskOffset` and the source.
  - It is specified by the function `ReaderStep`, one Read call.
  - It also holds `Reads`: a caller making several Read calls with given buffer sizes.
- `RoundTrip` (`roundtrip.dfy`) shows that what the writer writes, the reader in the matching role gives back.

Behaviours of the source that the model keeps as they are:

- In the server role the writer never sets FIN (frame.go:76-81). Only client frames are marked final.
- A writer draws its mask key once, in `FrameWriter` (frame.go:53-58), and masks every frame it sends with that same key. RFC 6455 section 5.3 asks for a fresh key per frame. The model keeps the single key: `Frames` uses one `key` for all chunks.
- The reader assigns the raw 7-bit length (126 or 127) to `left` before reading the extension. A failed extension read therefore leaves `left` at 126 or 127 (frame.go:166-178, `ExtendedLength`).
- A payload read that fails reports 0 bytes and leaves `left` and `maskOffset` alone. The bytes it brought are still in the caller's buffer (frame.go:196-199, `PayloadContract`).
- A short mask-key read leaves the bytes that did arrive at the front of `maskKey` (frame.go:182-188, `ReadMaskKey`).
- The writer adds the chunk to `n` before writing it. A sink error therefore still counts the chunk (frame.go:75, `PumpStopsOnSinkFault`).
- A 64-bit length from 2^63 on becomes negative under `int64(...)` (frame.go:179). The next slice `b[:readLen]` then panics. The model turns that panic into the status `SlicePanic` (`HugeLengthPanics`).
- FIN, opcode and MASK of incoming frames are not checked (frame.go:162-164).

## Model

| member | source | states |
|---|---|---|
| Wire.BigEndian | proxy/ws/frame.go:90 | the stored length field has exactly the requested width |
| Wire.BigEndianValue | proxy/ws/frame.go:173 | the value read from `w` bytes is below 256^w |
| Wire.BigEndianRoundTrip | proxy/ws/frame.go:87-95 | reading back the bytes that PutUint16/PutUint64 store gives the stored value, for every value that fits the width |
| Wire.ByteOf | proxy/ws/frame.go:86 | `byte(nr)` for `nr` below 256 has the value `nr` |
| Wire.LengthField | proxy/ws/frame.go:83-95 | the extended length is 0, 2 or 8 bytes long, as the length class says |
| Wire.HeaderBytes | proxy/ws/frame.go:76-98 | the header written is exactly 2 + lengthFieldLen bytes |
| Wire.HeaderLayout | proxy/ws/frame.go:76-95 | the opcode is binary; the reserved bits are clear; FIN is set iff client; MASK is set iff client; up to 125 the low 7 bits are the length and nothing follows; from 126 to 65535 comes marker 126 and 2 big-endian bytes spelling the length; from 65536 to 2^64-1 comes marker 127 and 8 big-endian bytes spelling it |
| Wire.HeaderFirstByte | proxy/ws/frame.go:76-81 | byte 0 carries the binary opcode and no reserved bit; FIN is set exactly in the client role |
| Wire.LengthFieldValue | proxy/ws/frame.go:87-95 | the extended length spells the payload length whenever there is one and the length fits 64 bits |
| Wire.ByteLowBits | proxy/ws/frame.go:78-86 | or-ing a base length with the role's MASK flag keeps the length in the low 7 bits and makes the high bit the flag |
| Wire.Mask | proxy/ws/frame.go:115-117 | masking keeps the payload's length |
| Wire.MaskAt | proxy/ws/frame.go:201-204 | masked byte i is payload byte i XOR key byte (i + offset) mod 4 |
| Wire.MaskPointwise | proxy/ws/frame.go:115-117 | a byte sequence that matches the XOR formula at every index is the masked payload |
| Wire.MaskInvolution | proxy/ws/frame.go:115-117 | masking twice with the same key and phase restores the payload; the writer masks from phase 0 and the reader resets its phase to 0 (frame.go:187) |
| Wire.MaskSplit | proxy/ws/frame.go:201-205 | masking a payload in two pieces, the second starting at the phase where the first stopped, equals masking it whole |
| Wire.PhaseShift | proxy/ws/frame.go:205 | carrying the phase modulo 4 between pieces gives the same key index as counting from the start |
| Wire.XorTwice | proxy/ws/frame.go:116 | XOR with the same key byte twice is the identity |
| Streams.Take | proxy/ws/frame.go:72 | one Read call hands over at most len(p) bytes; an exhausted source answers EOF; a short successful answer uses up one answer of the script |
| Streams.TakeData | proxy/ws/frame.go:72 | a Read call loses no byte and invents none: what it hands over plus what the source keeps is what the source had |
| Streams.TakeShrinks | proxy/ws/frame.go:72 | a Read call with a non-empty buffer makes progress on a non-empty source |
| Streams.TakeTerminal | proxy/ws/frame.go:127-132 | a Read call reports the source's first error, or leaves it still to come |
| Streams.Fill | proxy/ws/frame.go:158 | the ReadFull loop gathers at most the bytes asked for, and all of them when it ends without error |
| Streams.FullRead | proxy/ws/frame.go:158 | io.ReadFull returns nil exactly when all k bytes came; EOF comes only when no byte came |
| Streams.FillData | proxy/ws/frame.go:158 | the ReadFull loop loses no byte and invents none |
| Streams.FullReadData | proxy/ws/frame.go:158 | io.ReadFull loses no byte and invents none |
| Streams.TakeStream | proxy/ws/frame.go:63 | a Read of k bytes from a buffered source (bytes.NewBuffer) hands over min(k, available) bytes, which are the source's first bytes |
| Streams.FullReadStream | proxy/ws/frame.go:158 | io.ReadFull of k bytes from a source holding at least k bytes returns those k bytes and nil |
| Streams.Overwrite | proxy/ws/frame.go:90 | copying `d` into an array at `lo` stores `d` there and changes nothing else |
| Streams.ByteSource.constructor | proxy/ws/frame.go:63 | a source with the given answers |
| Streams.ByteSource.Read | proxy/ws/frame.go:196 | `r.Read(p[lo:hi])` stores what `Take` hands over at `lo`, returns its count and error, and advances the source |
| Streams.ByteSource.ReadFull | proxy/ws/frame.go:158 | `io.ReadFull(r, p[lo:hi])` stores what `FullRead` gathers at `lo` and returns its count and error |
| Streams.SinkWrite | proxy/ws/frame.go:98 | a sink write either appends all of `p` and succeeds, or fails and appends nothing; a sink that accepts everything keeps doing so |
| Streams.Sink.constructor | proxy/ws/frame.go:44-49 | a sink with the given fault script and nothing written |
| Streams.Sink.Write | proxy/ws/frame.go:98 | `w.Writer.Write(p)` behaves as `SinkWrite` on the sink's state |
| FrameWriting.EmitFrame | proxy/ws/frame.go:76-124 | a frame that goes out without error appends exactly `Frame(client, key, payload)`; a sink that accepts everything accepts the frame |
| FrameWriting.FrameEmitterEmitsFrames | proxy/ws/frame.go:98-124 | the writer's frame emission, as a function value, sends the frames of its role and key |
| FrameWriting.PumpChunking | proxy/ws/frame.go:69-75 | every frame carries between 1 and 4096 payload bytes; the payloads are the source's bytes in source order, with nothing skipped; the returned `n` is the number of bytes pulled from the source |
| FrameWriting.PumpSucceedsWithFrames | proxy/ws/frame.go:96-130 | a run that returns nil has appended to the sink exactly the frames of its chunks, in order |
| FrameWriting.PumpHealthyWithFrames | proxy/ws/frame.go:96-130 | on a sink that accepts everything, every chunk read goes out as its frame, also when the source then fails (frame.go:127-130) |
| FrameWriting.PumpWritesFrames | proxy/ws/frame.go:96-130 | a run that returns nil, and any run on a sink that accepts everything (one that ends with a source error after its last frame included), has appended to the sink exactly the frames of its chunks, in order |
| FrameWriting.PumpOnHealthySink | proxy/ws/frame.go:127-132 | with a sink that accepts everything, the run returns the source's first error, with EOF read as nil |
| FrameWriting.EmitFrameFaults | proxy/ws/frame.go:97-124 | the first failing write of a frame ends it with the sink's error: a failing header write leaves nothing of the frame written; a failing second write (the mask key in the client role, the payload in the server role) leaves the header written; a failing client payload write leaves header and mask key written |
| FrameWriting.PumpStopsOnSinkFault | proxy/ws/frame.go:96-124 | a sink error on the header, mask-key or payload write stops the loop at once: that error is returned, the chunk is counted, nothing more is read from the source, and the sink holds exactly what it accepted of the frame (nothing, the header, or header and key) |
| FrameWriting.Chunks | proxy/ws/frame.go:62-65 | b is cut into ceil(len(b)/4096) non-empty pieces that concatenate back to b; every piece but the last has 4096 bytes |
| FrameWriting.PumpBuffer | proxy/ws/frame.go:62-65 | Write(b) to a sink that accepts everything returns len(b) and nil, and appends exactly the frames of Chunks(b) |
| FrameWriting.FrameWriter.constructor | proxy/ws/frame.go:51-60 | the buffer holds 14 + 4096 bytes; the mask key is the four bytes of the random 32-bit value, least significant first |
| FrameWriting.FrameWriter.PutHeader | proxy/ws/frame.go:76-95 | the front of buf holds exactly `HeaderBytes(client, nr)`, and the payload area is untouched |
| FrameWriting.FrameWriter.PutLength | proxy/ws/frame.go:83-95 | the base length is or-ed into byte 1, which keeps its flag; the extended length is stored after it; lengthFieldLen is 0, 2 or 8 |
| FrameWriting.FrameWriter.MaskPayload | proxy/ws/frame.go:114-117 | the first nr payload bytes of buf become their mask with the writer's key from phase 0; the header area and the bytes after the nr payload bytes are unchanged |
| FrameWriting.FrameWriter.Emit | proxy/ws/frame.go:76-124 | the sink sees exactly what `EmitFrame` says, error included |
| FrameWriting.FrameWriter.Turn | proxy/ws/frame.go:69-125 | one loop turn: read one chunk, and emit its frame when the chunk is not empty |
| FrameWriting.FrameWriter.ReadFrom | proxy/ws/frame.go:67-137 | the count, the error, the source left and the sink's new state are those of `Pump` |
| FrameWriting.FrameWriter.Write | proxy/ws/frame.go:62-65 | ReadFrom over a source holding b |
| FrameReading.ExtendedLength | proxy/ws/frame.go:166-180 | base lengths other than 126 and 127 are the length; a failed extension read leaves `left` at the marker 126 or 127 |
| FrameReading.PayloadContract | proxy/ws/frame.go:191-209 | the payload phase hands over at most len(b) and at most `left` bytes; `left` drops by exactly the count; an error comes with a count of 0 and leaves `left` and the phase alone; the key never changes; in the server role the phase advances by the count modulo 4; a negative `left` panics |
| FrameReading.ReaderStepContract | proxy/ws/frame.go:153-210 | every Read returns m <= len(b); a successful Read leaves `left` >= 0; an error comes with m = 0; inside a frame m <= left, `left` drops by m, the key stays and (server role) the phase advances by m; at a frame boundary a successful Read parsed its header without error, and the same bounds hold against the `left`, key and phase that header set |
| FrameReading.ReadInsideFrame | proxy/ws/frame.go:191-209 | inside a frame, a Read takes only payload bytes from the source and no header: unmasked back, what it hands over is exactly what the source lost |
| FrameReading.ReadsAppend | proxy/ws/frame.go:153 | a caller's reads with sizes ks1 and then ks2 are the reads with ks1 followed, from where they left the reader, by the reads with ks2 |
| FrameReading.ReadInStream | proxy/ws/frame.go:191-209 | a Read of `0 < k <= left` bytes from a source holding the rest of the frame hands over the next k wire bytes unmasked and advances the phase by k |
| FrameReading.FrameReaderStepsInFrame | proxy/ws/frame.go:191-209 | the reader's Read, as a function value, behaves inside a frame as `ReadInStream` says |
| FrameReading.UnmaskedSplit | proxy/ws/frame.go:201-205 | unmasking in two pieces, the second starting at the phase where the first stopped, equals unmasking whole |
| FrameReading.AdvanceTwice | proxy/ws/frame.go:205 | advancing the phase by k and then by n is advancing it by k + n |
| FrameReading.ReadsInsideFrame | proxy/ws/frame.go:201-205 | phase persistence for any step that behaves as the reader does inside a frame |
| FrameReading.DrainInsideFrame | proxy/ws/frame.go:201-205 | inside one frame, reads of any positive sizes hand over the unmasked payload prefix as one read would, and leave the phase advanced by its length modulo 4 |
| FrameReading.ReadSizesDoNotMatter | proxy/ws/frame.go:191-209 | two ways of cutting the same amount of a frame's payload into reads give the same bytes and leave the same reader |
| FrameReading.ReadCallInFrame | proxy/ws/frame.go:191-209 | inside a frame, a successful Read from any source hands over bytes that, unmasked back, are exactly what the source lost; `left` drops by the count, the key stays and the phase moves on by the count |
| FrameReading.DrainFromAnySource | proxy/ws/frame.go:191-209 | inside a frame, from a source that may answer with short counts, successful reads of positive sizes adding up to at most `left` hand over bytes that, unmasked back, are exactly what the source lost; `left` drops by their number, the key stays, and the phase moves on by their number modulo 4 |
| FrameReading.DrainFrameFromAnySource | proxy/ws/frame.go:191-209 | inside a frame whose remaining payload q arrives in any pieces, successful reads hand over a prefix of q unmasked with the carried phase; the source keeps the rest of q and what follows it, and the reader is left with `left` = the rest of q and the phase advanced by the prefix |
| FrameReading.HugeLengthPanics | proxy/ws/frame.go:175-193 | a 64-bit length of 2^63 or more turns `left` negative, and that Read panics on the slice `b[:readLen]` and hands over nothing |
| FrameReading.FrameReader.constructor | proxy/ws/frame.go:148-151 | the reader's role is the opposite of `client`; every other field starts at zero |
| FrameReading.FrameReader.ReadHeader | proxy/ws/frame.go:154-189 | the header phase leaves the fields and the error that `Begin` gives |
| FrameReading.FrameReader.ReadLength | proxy/ws/frame.go:165-180 | the extended-length switch leaves `left` and the source as `ExtendedLength` gives them |
| FrameReading.FrameReader.ReadKey | proxy/ws/frame.go:182-188 | the mask-key read leaves the key, the phase and the source as `ReadMaskKey` gives them |
| FrameReading.FrameReader.Unmask | proxy/ws/frame.go:201-206 | the first `got` bytes of b become their unmasking from the current phase, and the rest of b is untouched |
| FrameReading.FrameReader.Read | proxy/ws/frame.go:153-210 | the count, the error and the new fields are those of `ReaderStep`; b holds the bytes handed over at its front and is unchanged after them |
| FrameReading.FrameReader.ReadPayload | proxy/ws/frame.go:191-209 | the count, the error, the new fields and b are those of `Payload` |
| RoundTrip.FixedBytesRead | proxy/ws/frame.go:158-166 | reading the two fixed bytes of a header the writer produced gives back the writer's base length from byte 1, with the extended length next |
| RoundTrip.ExtendedLengthRead | proxy/ws/frame.go:165-180 | the reader's extended-length switch, fed the writer's field, gives back every length below 2^63 |
| RoundTrip.LengthRoundTrip | proxy/ws/frame.go:158-180 | header round trip: as far as the length, the reader's parse of a header the writer produced sets `left` to the writer's `nr`, for every `nr` below 2^63 |
| RoundTrip.HeaderRoundTrip | proxy/ws/frame.go:154-189 | a header the writer produced and read in the matching role succeeds with `left` = nr; the server role takes the following four bytes as the key and resets the phase; the client role keeps key and phase |
| RoundTrip.DrainEntersFrame | proxy/ws/frame.go:154 | at a frame boundary, the first Read parses the header and then serves payload exactly as a Read made after the header would |
| RoundTrip.FrameHeaderRead | proxy/ws/frame.go:154-189 | after the header of a frame the writer produced, the reader is inside the frame with the wire payload ready |
| RoundTrip.FrameRoundTrip | proxy/ws/frame.go:153-210 | one frame of a non-empty payload, read in the matching role by reads of any positive sizes that add up to it, gives the payload back and leaves the reader at the next frame boundary |
| RoundTrip.FrameReaderReadsFrames | proxy/ws/frame.go:153-210 | the reader's Read, as a function value, decodes single frames as `FrameRoundTrip` says |
| RoundTrip.FirstFrameThenRest | proxy/ws/frame.go:153-210 | reading a stream of frames with one cut of read sizes per frame gives the first payload and then whatever the reads for the other frames give |
| RoundTrip.ReadsStream | proxy/ws/frame.go:153-210 | for any step that decodes frames, a stream of frames read with any positive read sizes adding up to each frame's payload in turn gives back all payloads in order and stops at a frame boundary |
| RoundTrip.StreamRoundTrip | proxy/ws/frame.go:153-210 | the same for the reader's own Read |
| RoundTrip.WriteThenRead | proxy/ws/frame.go:62-65 | what the writer sends for b to a sink that accepts everything, read back in the matching role with any positive read sizes adding up to each frame's payload in turn, is b; the writer returns len(b) and nil |

## Left out

- `rand.Uint32` (frame.go:53) is a nondeterministic foreign call. The writer's constructor takes its result as the parameter `seed`.
- The Go standard library (`io.Reader`, `io.Writer`, `io.ReadFull`, `bytes.NewBuffer`) is not part of this model. It is replaced by a finite scripted source, a scripted sink and the function `FullRead`, which follows the documented contract of `io.ReadFull`. Sources that never end are not modelled.
- A sink write that fails is modelled as accepting nothing. Partial writes that also report an error are not modelled.
- Neither the writer's `int64` count nor the reader's `left -= int64(m)` is taken modulo 2^64. The writer's count is the sum of chunks of at most 4096 bytes from a finite scripted source, and 2^63 bytes are not modelled as reachable. The reader's `left` can be as large as 2^63-1 after a 64-bit length, but the subtraction cannot wrap: it runs only when `0 <= m <= left` (`PayloadContract`), so `left - m` stays between 0 and `left`. The one conversion that can wrap, `int64(Uint64)` at frame.go:179, is modelled (`Int64`).
- A run-time panic on a negative slice bound is modelled as the status `SlicePanic`, returned with the reader's state as it stood. Go would unwind the goroutine.
- FrameWriting.FrameWriter.ReadFrom: says nothing about the writer's scratch `buf` after the call (nor do `Write`, `Turn` and `Emit`), because every turn overwrites the header and the payload area before using them. Only `PutHeader`, `PutLength` and `MaskPayload` state what they leave in `buf`.
- FrameReading.DrainInsideFrame: the source answers every Read in full (`InFrame` is built on `StreamOf`), so each read of k bytes gets k bytes. A source with short counts is covered by `DrainFromAnySource` and `DrainFrameFromAnySource`, which state what the reads hand over but not how many bytes each read gets.
- FrameReading.ReadSizesDoNotMatter: holds for a source that answers every Read in full. With short counts the count of each read depends on the source's pieces, and only the content (`DrainFrameFromAnySource`) is the same.
- FrameReading.FrameReader.Read: says nothing about the reader's scratch `buf` after the call, because the code overwrites it before every use.
- RoundTrip.StreamRoundTrip: the caller's read sizes must add up to each frame's payload in turn (`CutsFit`). A read with a buffer bigger than the rest of the current frame gets a short count, because the reader never serves two frames in one call. A caller that goes on reading after such a short count is not covered.
- RoundTrip.StreamRoundTrip: the source answers every Read in full (`StreamOf`), as for `FrameRoundTrip`.
- RoundTrip.WriteThenRead: the read sizes are restricted in the same way as for `StreamRoundTrip`, and the written bytes are read back from a source that answers every Read in full (`StreamOf`), not from a connection that returns short counts.
- RoundTrip.FrameRoundTrip: the source answers every Read in full (`StreamOf`). A frame that arrives in pieces leaves the reader inside the frame after reads that add up to its payload, and reading on is not covered (`DrainFrameFromAnySource` states the content of what such reads hand over).
- RoundTrip.FrameRoundTrip: the payload is non-empty. The writer never emits an empty frame (frame.go:74), so an empty frame cannot appear in what it writes.
- There is no concurrency in the file.
