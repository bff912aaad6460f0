# proxy_rs: HPACK, framing and bodies, verified

A Dafny model of the protocol code in the `http` crate of proxy_rs, with proofs of what that code is
for. `dafny verify dfyconfig.toml` checks everything.

The program decodes HTTP/2 header blocks with HPACK (RFC 7541), reads and writes HTTP/2 frames
(RFC 9113), and reads HTTP/1.1 requests with chunked bodies (RFC 9112). Code that updates things in
place is modelled by classes, methods and loops over the same variables. Each such method is proved
against a specification function or predicate, and the properties are proved about those for all
inputs.

## Layout

| file | what it models |
|---|---|
| `Words.dfy`, `Arithmetic.dfy`, `Wrappers.dfy`, `Streams.dfy` | machine words, bits and byte encodings; division; results; byte sources and sinks |
| `Utf8.dfy`, `Numerals.dfy` | UTF-8, white space and numbers in text, each with what it means |
| `Buffers.dfy` | the growing byte buffer and its allocator account |
| `HuffmanTables.dfy` | the code tables and the 513-node array tree, and the proof, subtree by subtree, that they describe one code |
| `HuffmanTheory.dfy` | code words, walks in the tree, prefix freeness, unique parsing |
| `Huffman.dfy` | the encoder, the decoder and the size prediction |
| `Literal.dfy`, `LiteralLaws.dfy` | prefix-coded integers and string literals; round trips and input in pieces |
| `StaticTable.dfy`, `Tables.dfy` | the static table and the dynamic table, as a byte deque and as a sequence of fields |
| `HeaderDecoder.dfy`, `HeaderLaws.dfy`, `HeaderErrors.dfy` | the representation decoder and its driver; end-to-end and fragmentation theorems; what is refused, and why |
| `Rfc7541.dfy` | tag bytes, static entries and header blocks of RFC 7541, byte for byte |
| `Frames.dfy`, `FrameBodies.dfy`, `SettingsFrames.dfy`, `FrameStream.dfy` | frame headers, DATA, HEADERS, CONTINUATION and SETTINGS; a stream of frames |
| `FrameLaws.dfy` | every printed frame as bytes, and exactly which frames the readers refuse |
| `HeaderBlocks.dfy` | header blocks carried by HEADERS and CONTINUATION frames |
| `SipHash.dfy`, `StaticIndex.dfy` | the streaming hash and the hashed static-table index |
| `HeaderHashes.dfy` | the program's hash of every name in the header map, computed round by round |
| `Http11Body.dfy`, `Http11Headers.dfy` | the chunked body reader; header blocks as text |

## Main results

- **Huffman.** The encoder's tables and the decoder's tree are shown to be one prefix code
  (`HuffmanTables.WholeTree`, `HuffmanTheory.CodeWalk`, `HuffmanTheory.LeafIsCode`). The decoder
  returns `s` iff the bits are the code words of `s` and fewer than 30 one-bits, `FoundEOS` iff some
  prefix is code words and then EOS, `IncompleteData` otherwise. Decoding undoes encoding for every
  byte string, and encoding undoes decoding exactly when fewer than 8 bits of padding were accepted.
- **Dynamic table.** The byte deque is at all times the encoded entries, oldest first; `insert` and
  `resize` keep exactly the longest run of newest entries that fits; walking back by trailing sizes
  finds exactly the i-th newest entry. Index 62 is always the field inserted last.
- **Header blocks.** Every meaningful list of representations decodes, printed, to its meaning over
  the table as a sequence, consuming every byte, also when a new entry takes its name from one that its
  own insertion evicts. Decoding does not depend on how any bytes at all, valid or not, are cut into
  pieces. Both results hold through HEADERS and CONTINUATION frames. Every refusal is stated with the
  input that leads to it, and header blocks of Appendix C of RFC 7541 decode as they should.
- **Frames.** Any list of sendable frames, written one after another, is received as the same list. Every
  printed frame is given byte by byte, and each reader refuses exactly the frames that are stated.
- **Bodies, headers, hash, index, buffer.** Chunked bodies are transparent for any chunking, caller
  buffers and short reads; SETTINGS round trip, and HTTP/1.1 header blocks exactly when their names and
  values are UTF-8 that a parser can produce; numbers in text are exactly the numerals that fit; SipHash does not depend on
  how its input is cut; under the program's key the hashed index always agrees with a linear scan; the
  buffer's copying is amortised.

## Where the code falls short, exactly

- Padding: up to 29 one-bits are accepted where section 5.2 of RFC 7541 allows 7
  (`Huffman.LongPaddingDecodes`, witness `Huffman.PaddingByteAccepted`).
- `write_string` writes prefix width 1 where `parse_string` reads width 7
  (http/src/http2/hpack/literal.rs:73, 100 and 111). The width is a parameter of the model:
  `LiteralLaws.WrittenWidthMismatch` shows that at width 1 only the empty string round trips,
  `LiteralLaws.StringRoundTrip` that at width 7 every string does whose announced size is not wrapped.
- `get_size` sums in 32 bits: the prediction is right iff the code lengths add up within 32 bits
  (`Huffman.PredictionExact`). It is 0 for 2^29 ampersands (witness `Huffman.PredictionWraps`), which
  therefore do not round trip even at width 7 (witness `LiteralLaws.WrappedSizeMismatch`).
- `parse_integer` adds in 64 bits: the value is exact iff it fits (`Literal.IntegerExact`). 2^70 + 126
  parses as 126 (witness `Literal.IntegerWraps`).
- `http11_write_status` checks nothing it prints and displays bytes that are not UTF-8 lossily, while
  `http_add_header` takes any bytes. A printed block comes back iff everything in it is UTF-8, names are
  in lower case without colon or line feed, and values are without line feed or leading white space
  (`Http11Headers.HeadersRoundTrip`, for one field `Http11Headers.OneFieldRoundTrip`). A line feed as a
  value breaks the block (witness `Http11Headers.LineFeedBreaks`); the byte FF as a value is lost (witness
  `Http11Headers.DisplayLoses`).

Sums that overflow are modelled as wrapping, which is what a release build of the program does; a debug
build panics instead.

## Model

| member | source | states |
|---|---|---|
| HuffmanTables.WholeTree | http/src/http2/hpack/huffman.rs:5-582 | all 513 tree nodes are in preorder, and the path to each leaf is, in bits and length, the code word the encoder's tables give that leaf's symbol |
| HuffmanTables.SymbolPlaced | http/src/http2/hpack/huffman.rs:68-582 | each of the 257 symbols has a leaf |
| HuffmanTheory.TreeWellFormed | http/src/http2/hpack/huffman.rs:46-66 | a branch's left child is the next node, its right child is later and in bounds, and a leaf holds a symbol |
| HuffmanTheory.CodeWalk | http/src/http2/hpack/huffman.rs:653-685 | walking the tree along a symbol's code word meets no leaf before the end and ends in the leaf of that symbol |
| HuffmanTheory.LeafIsCode | http/src/http2/hpack/huffman.rs:653-685 | a walk that ends in a leaf has read exactly the code word of the leaf's symbol |
| HuffmanTheory.CodePrefixFree | http/src/http2/hpack/huffman.rs:5-44 | no code word is a prefix of another |
| HuffmanTheory.ParsePrefix | http/src/http2/hpack/huffman.rs:653-693 | a parse of the front of a bit string is a prefix of the parse that ends inside a code word |
| HuffmanTheory.ParseUnique | http/src/http2/hpack/huffman.rs:653-693 | a bit string has at most one parse into code words and an incomplete rest |
| Huffman.DecodeCharacterised | http/src/http2/hpack/huffman.rs:653-693 | the three outcomes of decoding, each as an if-and-only-if over code words, padding and EOS |
| Huffman.DecodeBytes | http/src/http2/hpack/huffman.rs:653-693 | the tree walk with its all-ones flag computes that outcome, and the buffer holds the decoded string |
| Huffman.EncodeBytes | http/src/http2/hpack/huffman.rs:584-611 | the buffer ends up holding the code words completed with one-bits, whatever it held before |
| Huffman.EncodeSymbol | http/src/http2/hpack/huffman.rs:591-603 | OR-ing one symbol's bits into the last byte appends its code word and nothing else |
| Huffman.EncodeBits | http/src/http2/hpack/huffman.rs:584-611 | the bits of an encoding are the code words and fewer than 8 one-bits, in as few bytes as that takes |
| Huffman.DecodeEncode | http/src/http2/hpack/huffman.rs:584-693 | decoding an encoding gives back the string, for every byte string |
| Huffman.EncodeDecode | http/src/http2/hpack/huffman.rs:584-693 | encoding a decoded string gives back the bytes iff their padding was shorter than 8 bits |
| Huffman.LongPaddingDecodes | http/src/http2/hpack/huffman.rs:688-692 | code words followed by k one-bits decode iff k is below 30, and are FoundEOS from 30 on |
| Huffman.PaddingByteAccepted | http/src/http2/hpack/huffman.rs:688-692 | a byte of ones decodes to the empty string |
| Huffman.GetSize | http/src/http2/hpack/huffman.rs:613-625 | the prediction is the code length, summed modulo 2^32, in bytes rounded up |
| Huffman.PredictionExact | http/src/http2/hpack/huffman.rs:584-625 | the prediction equals the encoding's length iff the code lengths add up below 2^32 |
| Huffman.PredictionWraps | http/src/http2/hpack/huffman.rs:613-625 | 2^29 ampersands are predicted to take no bytes and take 2^29 |
| Literal.IntegerWraps | http/src/http2/hpack/literal.rs:22-37 | eleven bytes that say 2^70 + 126 parse as 126 |
| Literal.AnnouncedTruly | http/src/http2/hpack/literal.rs:95-115 | while code lengths add up within 32 bits the announced length is the payload's, and the payload is never longer than the string nor than its encoding |
| Literal.ParseInteger | http/src/http2/hpack/literal.rs:10-40 | the loop computes the integer of section 5.1 of RFC 7541 modulo 2^64 and its length, Overflow after ten continued groups, TooSmall when bytes run out |
| Literal.IntegerExact | http/src/http2/hpack/literal.rs:15-37 | a terminated integer parses to its value modulo 2^64, hence exactly iff it fits, canonical or not |
| Literal.WriteInteger | http/src/http2/hpack/literal.rs:42-70 | writes the prefix bits joined with the integer and its groups, and returns the number of bytes written |
| Literal.IntegerRoundTrip | http/src/http2/hpack/literal.rs:10-70 | at every width from 1 to 7 every 64-bit integer parses back with its printed length, at most 11 bytes, whatever follows |
| Literal.PrefixBits | http/src/http2/hpack/literal.rs:48-56 | the flag bits above a printed integer are those of the prefix |
| Rfc7541.IntegerExamples | http/src/http2/hpack/literal.rs:42-70 | 10 and 1337 print as in Appendix C.1 of RFC 7541 |
| Rfc7541.PrintedShortest | http/src/http2/hpack/literal.rs:42-70 | no encoding of an integer is shorter than the printed one |
| HeaderErrors.IntegerErrors | http/src/http2/hpack/literal.rs:10-40 | Overflow iff the prefix is all ones and ten bytes ask for more, TooSmall iff all the bytes there are, fewer than that, ask for more, and no other error |
| Literal.ParseString | http/src/http2/hpack/literal.rs:72-93 | fills the buffer with the string literal at the front and returns the bytes it takes, or its error; an end that wraps around is TooSmall |
| Literal.WriteString | http/src/http2/hpack/literal.rs:95-116 | writes the shorter form as predicted; the length returned is the length written iff the string goes out plain or the prediction did not wrap |
| LiteralLaws.FramedRoundTrip | http/src/http2/hpack/literal.rs:72-93 | either form of a literal parses to the string and the exact length |
| LiteralLaws.StringRoundTrip | http/src/http2/hpack/literal.rs:72-116 | with writer and parser both at width 7 a string round trips iff it goes out plain or its code length stays below 2^32 |
| LiteralLaws.WrappedSizeMismatch | http/src/http2/hpack/literal.rs:72-116 | 2^29 ampersands do not round trip at width 7 |
| LiteralLaws.WrittenWidthMismatch | http/src/http2/hpack/literal.rs:95-116 | as called, with width 1, a string round trips iff it is empty |
| LiteralLaws.IntegerStable | http/src/http2/hpack/literal.rs:10-40 | any verdict on an integer but TooSmall survives more input |
| LiteralLaws.StringStable | http/src/http2/hpack/literal.rs:72-93 | any verdict on a string but TooSmall survives more input |
| LiteralLaws.StringPrefix | http/src/http2/hpack/literal.rs:72-93 | every proper prefix of a string literal is TooSmall |
| HeaderErrors.StringErrors | http/src/http2/hpack/literal.rs:72-93 | a string literal overflows iff its length does, and waits while its length is cut short |
| HeaderErrors.StringTooShort | http/src/http2/hpack/literal.rs:72-93 | a literal that announces more bytes than there are is TooSmall |
| Tables.DynamicTable.constructor | http/src/http2/hpack/tables.rs:88-95 | a new table is empty and limited to what is permitted |
| Tables.DynamicTable.Evict | http/src/http2/hpack/tables.rs:97-114 | drains exactly the oldest entry |
| Tables.DynamicTable.Insert | http/src/http2/hpack/tables.rs:140-159 | the deque goes from encoding the old fields to encoding the fields after an insertion; the loop ends |
| Tables.DynamicTable.Resize | http/src/http2/hpack/tables.rs:129-138 | the same for a resize, which does nothing above the permitted size |
| Tables.DynamicTable.ResetPermissibleSize | http/src/http2/hpack/tables.rs:116-127 | refuses on a table with entries and otherwise sets both limits |
| Tables.DynamicTable.Get | http/src/http2/hpack/tables.rs:161-184 | the backward walk yields the name and value of exactly the i-th newest field, or None past the oldest |
| Tables.WalkBack | http/src/http2/hpack/tables.rs:166-172 | at the end of an entry its trailing size leads exactly to its start, never below the deque's |
| Tables.EntryParts | http/src/http2/hpack/tables.rs:174-183 | from an entry's start the lengths, name and value are read back |
| Tables.NewestMinimal | http/src/http2/hpack/tables.rs:129-138 | what a resize keeps is the longest run of newest fields that fits |
| Tables.InsertMinimal | http/src/http2/hpack/tables.rs:140-149 | an insertion keeps the longest run of newest fields that fits beside the new one, and a field larger than the table empties it |
| Tables.InsertionRun | http/src/http2/hpack/tables.rs:140-159 | fields that each fit, inserted one after another, leave the newest of all that fit together, under unchanged limits |
| Tables.IndexAfterInsertion | http/src/http2/hpack/tables.rs:161-223 | index 62 is the field just inserted, every other index moves up by one, and what was evicted has none |
| Tables.IndexAfterRun | http/src/http2/hpack/tables.rs:161-223 | after a run of insertions index 62 + i is the field inserted i before the last |
| Tables.ResizedSmallest | http/src/http2/hpack/tables.rs:129-138 | of any number of permitted resizes in a row the smallest decides which fields stay and the last is the limit, so those two alone do the same |
| Tables.RunBounded | http/src/http2/hpack/tables.rs:116-159 | after any run of inserts, resizes and resets the size is within the limit and the limit within the permitted size |
| Tables.HeaderTable.Get | http/src/http2/hpack/tables.rs:194-223 | appends the name, and the value if asked for, of the field at a combined index; fails exactly for 0 and past the end |
| Rfc7541.StaticFields | http/src/http2/hpack/tables.rs:16-78 | the request entries, the statuses and accept-encoding have the names and values of Appendix A of RFC 7541 at their indices |
| HeaderDecoder.ReadLiteralField | http/src/http2/frame/header.rs:139-150 | the name by index or literal and then the value, with the total length and every error |
| HeaderDecoder.ReadHeader | http/src/http2/frame/header.rs:116-180 | the four branches read a representation into the buffers and leave the table it describes; errors leave the table alone |
| HeaderDecoder.DecodeBlock | http/src/http2/frame/header.rs:361-386 | the decode loop yields the fields, table, unread bytes and verdict of decoding from the front |
| HeaderLaws.HeaderRoundTrip | http/src/http2/frame/header.rs:116-180 | any printed representation, followed by anything, decodes to its meaning over the table as a sequence, and its length |
| HeaderLaws.BlockRoundTrip | http/src/http2/frame/header.rs:361-386 | any list of meaningful representations, printed, decodes completely to the fields and table of its meaning |
| HeaderErrors.HeaderVerdict | http/src/http2/frame/header.rs:116-180 | a printed representation, followed by anything, decodes iff its index is known and its size permitted; else IndexNotFound or TableTooSmall |
| HeaderErrors.NameIndexVerdict | http/src/http2/frame/header.rs:139-180 | in all three modes an unknown name index is IndexNotFound whatever follows, and a known one leaves the verdict to the value |
| HeaderErrors.NewNameVerdict | http/src/http2/frame/header.rs:139-180 | a new name and then the value decide, each with its own error |
| HeaderErrors.ZeroNameIndex | http/src/http2/frame/header.rs:142-148 | name index 0 makes the literal after it the name |
| HeaderErrors.HeaderOverflow | http/src/http2/frame/header.rs:116-180 | an integer with ten continued groups is an Overflow at the width its tag bits give it |
| HeaderErrors.BlockStops | http/src/http2/frame/header.rs:361-386 | a block that goes wrong yields what stands before the failing bytes, the error, and those bytes unread |
| Rfc7541.TagBytes | http/src/http2/frame/header.rs:125-180 | the first byte of each representation of section 6 of RFC 7541 |
| Rfc7541.FirstRequest | http/src/http2/frame/header.rs:361-386 | the block of Appendix C.3.1 of RFC 7541 and the 57 bytes of table it leaves |
| Rfc7541.SecondRequest | http/src/http2/frame/header.rs:361-386 | the block of Appendix C.3.2, which refers to index 62 |
| Rfc7541.ThirdRequest | http/src/http2/frame/header.rs:361-386 | the block of Appendix C.3.3, where the same field is at index 63 |
| Rfc7541.FirstResponse | http/src/http2/frame/header.rs:361-386 | the fields of Appendix C.5.1 in plain literals fill 222 of 256 bytes |
| Rfc7541.SecondResponse | http/src/http2/frame/header.rs:361-386 | the block of Appendix C.5.2 evicts the oldest field and refers to the other three |
| HeaderLaws.HeaderStable | http/src/http2/frame/header.rs:116-180 | any verdict on a representation but TooSmall survives more input |
| HeaderLaws.HeaderPrefix | http/src/http2/frame/header.rs:116-180 | every proper prefix of a representation that decodes is TooSmall |
| HeaderLaws.FragmentationInvariant | http/src/http2/frame/continuation.rs:23-29 | for all bytes and all ways of cutting them, decoding piece by piece ends with the fields, table, unread bytes and verdict of decoding the whole |
| HeaderLaws.FragmentedBlock | http/src/http2/frame/continuation.rs:23-29 | a meaningful block cut anywhere decodes to its meaning |
| HeaderBlocks.DecodeFragments | http/src/http2/frame/continuation.rs:23-29 | decoding each fragment behind the bytes left over from the last is the piecewise decoding of the theorems |
| HeaderBlocks.BlockOverFrames | http/src/http2/frame/continuation.rs:36-64 | a meaningful block sent in HEADERS and CONTINUATION frames, cut anywhere, is received and decoded to its meaning |
| Frames.HeaderRoundTrip | http/src/http2/frame/mod.rs:88-123 | a printed frame header reads back, or is a size error iff its length exceeds the maximum |
| FrameLaws.HeaderRefused | http/src/http2/frame/mod.rs:88-111 | Io iff fewer than nine bytes, FrameSizeError iff the first three say more than the maximum, and else the fields by their bytes |
| FrameLaws.FrameWire | http/src/http2/frame/mod.rs:113-123 | a printed frame starts with the low 24 bits of its length, type, flags and 31 bits of its stream |
| Frames.ReadHeader | http/src/http2/frame/mod.rs:88-111 | reads nine bytes as length, type, flags and a 31-bit stream |
| Frames.WriteHeader | http/src/http2/frame/mod.rs:113-123 | writes those nine bytes |
| FrameBodies.ReadDataFrame | http/src/http2/frame/data.rs:32-79 | data without its padding, end flag, and each error in the order of the checks |
| FrameBodies.WriteDataFrame | http/src/http2/frame/data.rs:135-180 | the frame with its padding; returns nine plus the body's length |
| FrameBodies.ReadHeadersFrame | http/src/http2/frame/header.rs:43-110 | data, dependency, weight and end flags, and each error in the order of the checks |
| FrameBodies.WriteHeadersFrame | http/src/http2/frame/header.rs:232-286 | the frame with padding and priority; returns nine plus the body's length |
| FrameBodies.ReadContinuationFrame | http/src/http2/frame/continuation.rs:36-64 | appends the payload to what the buffer holds |
| FrameBodies.WriteContinuationFrame | http/src/http2/frame/continuation.rs:121-141 | the frame; returns nine plus the payload's length |
| FrameBodies.HeadersFlagsRead | http/src/http2/frame/header.rs:240-252 | the padding, priority and end flags a writer sets are the ones a reader sees |
| FrameLaws.DataWire | http/src/http2/frame/data.rs:135-180 | every byte of a printed DATA frame: type 0, flags 1 and 8 |
| FrameLaws.HeadersWire | http/src/http2/frame/header.rs:232-286 | every byte of a printed HEADERS frame: type 1, flags 1, 4, 8 and 32, and the five bytes of a priority |
| FrameLaws.ContinuationWire | http/src/http2/frame/continuation.rs:121-141 | every byte of a printed CONTINUATION frame: type 9, flag 4 |
| FrameLaws.SettingsWire | http/src/http2/frame/settings.rs:94-140 | every byte of an acknowledgement, of unchanged settings and of one changed setting: type 4, flag 1 |
| FrameLaws.DataVerdict | http/src/http2/frame/data.rs:32-79 | ProtocolError iff stream 0 or no room for the padding, Io iff cut short, and else which bytes are the data |
| FrameLaws.HeadersVerdict | http/src/http2/frame/header.rs:43-110 | ProtocolError iff stream 0, no room for padding or priority, or a dependency on itself, Io iff cut short, and else data, priority and flags by their bytes |
| FrameLaws.ContinuationVerdict | http/src/http2/frame/continuation.rs:36-64 | ProtocolError iff stream 0, Io iff cut short |
| SettingsFrames.ReadSettingsFrame | http/src/http2/frame/settings.rs:26-92 | the loop is a left fold of the wire's pairs over the defaults, then validated |
| SettingsFrames.LastValueCounts | http/src/http2/frame/settings.rs:55-65 | after the fold each setting has the last value given to it, or its start value |
| FrameLaws.SettingsVerdict | http/src/http2/frame/settings.rs:26-92 | every refusal in order, the last ones by the final values on the wire: above 1 for 2, from 2^31 on for 4, outside 2^14 to 2^24 - 1 for 5 |
| FrameLaws.FinalValue | http/src/http2/context.rs:179-254 | each setting ends with its number, its last value or default, and exists unless it is an optional one not mentioned |
| SettingsFrames.FoldReachable | http/src/http2/context.rs:211-214 | no wire leads to settings outside those that `set_value` can make |
| SettingsFrames.WriteSettingsFrame | http/src/http2/frame/settings.rs:94-140 | writes a header and the pairs that differ from the defaults, and returns their length |
| SettingsFrames.SettingsRoundTrip | http/src/http2/frame/settings.rs:26-140 | every valid settings value reachable through `set_value`, optional ones set to 0 included, and every acknowledgement, reads back as written |
| FrameStream.BodyLength | http/src/http2/frame/header.rs:86-107 | every reader that succeeds takes exactly the announced length |
| FrameStream.Receive | http/src/http2/frame/mod.rs:88-111 | looping the header reader and the matching body reader receives the frames of the stream |
| FrameStream.FrameRoundTrip | http/src/http2/frame/header.rs:232-286 | one printed frame, followed by anything, is received as sent and leaves what follows |
| FrameStream.StreamRoundTrip | http/src/http2/frame/mod.rs:88-123 | any list of sendable DATA, HEADERS, CONTINUATION and SETTINGS frames is received as the same list |
| SipHash.Hasher.Init | http/src/http2/context.rs:19-34 | the key schedule, with nothing hashed yet and a zero buffer |
| SipHash.Hasher.Add | http/src/http2/context.rs:54-92 | the state is that of the longer message: whole words absorbed, the tail buffered, zeros behind it |
| SipHash.Hasher.Sipround | http/src/http2/context.rs:37-52 | the in-place round is the round function |
| SipHash.Hasher.Digest | http/src/http2/context.rs:94-112 | the hash of the whole message so far |
| SipHash.HashPieces | http/src/http2/context.rs:54-112 | for any split into pieces the digest is the one-shot hash of the concatenation |
| SipHash.AbsorbConcat | http/src/http2/context.rs:77-88 | absorbing whole words and then more is absorbing the concatenation |
| StaticIndex.Probe | http/src/http2/context.rs:331-361 | what is found has the name, and a name in its place in the probe run is found |
| StaticIndex.Lookup | http/src/http2/context.rs:363-387 | never a wrong index, and for a well-placed name the one a linear scan finds; the value scan stays in bounds and ends |
| StaticIndex.GetStaticHeaderIndex | http/src/http2/context.rs:322-388 | for every name and value the index a linear scan finds, with the program's key and round counts; never a wrong index with any round counts |
| StaticIndex.IndexMeans | http/src/http2/context.rs:363-387 | the index stands for the whole field if any non-request entry does, else for the first with its name, and is None iff there is none |
| StaticIndex.AllPlaced | http/src/http2/context.rs:328-361 | every name of the map is where the probes from its own hash find it |
| HeaderHashes.Landings | http/src/http2/context.rs:328-341 | the SipHash-2-4 of each of the 48 names lands on its place in the map or one or two places before |
| StaticIndex.NameKey | http/src/http2/hpack/tables.rs:24-77 | names from `:status` on are 1 to 27 bytes long, and length, first and last byte tell the first entry with a name |
| StaticIndex.SameName | http/src/http2/hpack/tables.rs:24-77 | they repeat only within the `:status` run |
| StaticIndex.InMap | http/src/http2/context.rs:116-165 | the map has each of those names with the first entry that carries it |
| StaticIndex.MapName | http/src/http2/context.rs:116-165 | and nothing else |
| Buffers.Buffer.constructor | http/src/buffer.rs:315-334 | an empty buffer of the given capacity, without memory for capacity 0 |
| Buffers.Buffer.ReserveLen | http/src/buffer.rs:182-208 | room for the length, contents kept, no reallocation when it fits, and otherwise one, to at least double and below twice the length |
| Buffers.Buffer.Push | http/src/buffer.rs:224-231 | appends the byte |
| Buffers.Buffer.PushSlice | http/src/buffer.rs:210-222 | appends the bytes |
| Buffers.Buffer.CopySlice | http/src/buffer.rs:233-236 | replaces the contents |
| Buffers.Buffer.Extend | http/src/buffer.rs:243-257 | appends what the iterator yields for any size hints, growing at most once if they are exact |
| Buffers.Buffer.Release | http/src/buffer.rs:427-446 | everything allocated has been given back and the buffer is empty |
| Buffers.Run | http/src/buffer.rs:178-446 | over any run of operations on a new buffer of any capacity: contents of a byte sequence, capacity below twice the longest length asked for, bytes copied at most the capacity, allocated minus freed equal to the capacity |
| Http11Body.Body.Read | http/src/http11.rs:21-55 | one read: line handling at chunk ends, errors, a non-empty piece unless at the end, and delivered plus remaining equal to what was left |
| Http11Body.GetBodyReader | http/src/http11.rs:57-115 | which framing the headers ask for, the first chunk size or declared length, and when that fails |
| Http11Body.SizeLine | http/src/http11.rs:66-80 | a size line with any hexadecimal numeral, leading zeros and either case allowed, is read whole and is that number |
| Http11Body.SizeLineErrors | http/src/http11.rs:26-44 | between chunks InvalidData iff a line is not UTF-8, and InvalidLength iff the size line, trimmed, says no number within 64 bits |
| Numerals.ParseMeans | http/src/http11.rs:33-80 | the parser reads exactly the decimal or hexadecimal numerals, with or without a plus sign, that fit into 64 bits |
| Numerals.WrittenIsNumeral | http/src/http11.rs:33-80 | numbers written by repeated division, in either case and behind any zeros, are numerals |
| Utf8.TrimMeans | http/src/http11.rs:33-80 | trimming text takes away the Unicode white space at its end and nothing else |
| Utf8.Utf8Means | http/src/http11.rs:26-70 | a line passes as UTF-8 iff it encodes a sequence of scalar values |
| Http11Body.DeclaredMeans | http/src/http11.rs:95-108 | the first content-length in decimal, refused iff it is text that says no number; 0 without one |
| Http11Body.ReadPiece | http/src/http11.rs:21-55 | within a chunked body a read delivers a front piece of the payload and nothing only at the end |
| Http11Body.ReadToEnd | http/src/http11.rs:21-95 | for any non-empty chunks, buffer sizes and short reads the reads up to the first empty one concatenate to the payload |
| Http11Body.ReadDeclared | http/src/http11.rs:21-115 | with a decimal content-length n the reads up to the first empty one concatenate to the first n bytes of the source, or all there are, and leave the rest |
| Http11Headers.ParseHeaders | http/src/http11.rs:199-232 | the line loop computes the header block at the front of the source, or fails on a line without a colon |
| Http11Headers.WriteHeaders | http/src/http11.rs:303-315 | prints every name's values in order, the names in some order that lists each once, and the empty line |
| Http11Headers.LineRoundTrip | http/src/http11.rs:205-231 | parsing a printed line adds its field |
| Http11Headers.FieldLine | http/src/http11.rs:205-231 | any field line, with capitals in the name, white space before the value and either end of line, adds its field |
| Http11Headers.NoColonFails | http/src/http11.rs:219-221 | a line without a colon that is not empty makes the block fail |
| Http11Headers.BlockEnds | http/src/http11.rs:212-217 | a block ends at an empty line with either end of line, and at the end of the source |
| Http11Headers.PrintedLine | http/src/http11.rs:303-309 | a printed line byte for byte |
| Http11Headers.ParsedClean | http/src/http11.rs:199-232 | from any bytes, parsed names are lower case without colon or line feed, parsed values without line feed or leading white space |
| Http11Headers.ParsedText | http/src/http11.rs:199-232 | names and values parsed from a block that is UTF-8 are UTF-8, whatever bytes come behind the block |
| Http11Headers.HeadersRoundTrip | http/src/http11.rs:199-315 | whatever the order of the map and whatever bytes are in it, printing and parsing rebuilds it and leaves the source at the body iff all that is printed is UTF-8 and clean as parsed names and values are |
| Http11Headers.OneFieldRoundTrip | http/src/http11.rs:199-315 | one printed field comes back iff its name and value are clean UTF-8 |
| Http11Headers.LineFeedBreaks | http/src/http11.rs:303-309 | a value that is a line feed does not come back |
| Http11Headers.DisplayLoses | http/src/http11.rs:303-309 | a value that is the byte FF, though clean, does not come back |

## Left out

- TLS, sockets, plugins, the foreign-function entry points, `HttpResult` and error texts: input and output around the modelled functions. A source or sink here is a byte sequence with a position, and a sink never fails.
- PING, PRIORITY, RST_STREAM, WINDOW_UPDATE and GOAWAY frames, request getters, status codes and reason phrases: fixed layouts that would only add easy members.
- Running out of address space: buffer capacities and lengths are unbounded numbers where the program's are 64-bit and limited by its allocator, and `name.len() + value.len() + 32` does not overflow.
- Debug builds: overflowing sums wrap here, where a debug build panics.
- The rest of `Context`: the header decoder takes the header table alone, and the static index the hash alone. The line `read_header` prints for indexed fields is dropped.
- Http11Body.Body.Read: repeated reads after the final chunk, trailers and chunk extensions have no meaning in the program either; the model reproduces what it does with them but nothing is proved about it.
- Http11Headers.WriteHeaders: the text shown for bytes that are not UTF-8 is a parameter, any that is UTF-8 itself and shows UTF-8 as it is; the status line is not modelled.
- SipHash.Hasher.Digest: nothing is claimed about the strength of the hash.
- Streams.Reader.ReadExact: what a failed read leaves in a caller's buffer, which the program documents as undefined.
