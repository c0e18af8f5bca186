# Codecs and transport of the AChat server

AChat is an instant-messaging server. It carries a copy of zlib (DEFLATE, CRC-32, Adler-32) and of the Joyent
HTTP parser, and has its own byte transport: a compacting buffer, length framing, typed binary streams, a
non-blocking send path and connection pools. This project models the parts of these that are hard to get right
and proves what they are for. Each fast form is tied to a plain definition: table-driven decoding to canonical
prefix codes, windowed copies to LZ77 expansion, hash chains to the input they index, table and matrix CRCs to
the bit-by-bit shift register, a buffer-at-a-time parser to a byte-at-a-time one, moving indices to a queue.

The modules, in the order in which they build on one another:

- **Decoding.** `Common` (optional values, pieces put together), `Bits` (shifts, masks, bit reversal), `Huffman`
  (the canonical codes of section 3.2.2 of RFC 1951), `CodeLengths`, `DecodeTable`, `TableFill`, `TableSize` and
  `InflateTable` (the table builder); `Lz77`, `BitReader`, `BlockData`, `MatchCopy` and `InflateFast` (the fast
  decoder); `DeflateFormat` (the deflate format as relations on a bit stream), `DeflateUnique` (it is unambiguous),
  `DeflateRefusal` (when a header may be refused), `DeflateReading` (how far a decoder reads a stream, whatever it makes
  of the distances), `DeflateStray` (where that and the format part), `BitSource`, `OutWindow`, `InflateHeader` and
  `InflateBack` (the call-back decoder, for whole streams), `StrayExample` (an input that it should refuse and does not);
  `BitStrings` and `DeflateEncoder` (RFC 1951 from the writing side, sections 3.2.4 to 3.2.7), `InflateEncoded` (what is
  written so is read back by the decoder).
- **Match finding.** `HashChain`, `TokenRules` (which matches must not be missed, on data and tokens alone),
  `DeflateState`, `FillWindow`, `LongestMatch`, `TokenBuffer`, `DeflateBlock`,
  `DeflateFast`, `DeflateSlow`, `DeflateRuns` and `Deflate` (whole runs of calls).
- **Checksums.** `Crc32`, `CrcTables`, `CrcCombine`, `Adler32`.
- **HTTP.** `HttpParser` (one byte), `HttpRun` (whole inputs), `HttpSafety` (what every byte keeps),
  `HttpExecute` (one buffer), `HttpFraming` (bodies), `HttpHeaders` (the headers that announce them), `HttpChunks`
  (every chunked body is made of chunks), `HttpLines` (request and status lines), `HttpKeepAlive` (when another message
  may follow), `HttpTexts` (the names, words and numbers in these, letter by letter).
- **Transport and pools.** `NetBuffer`, `Framing`, `SendPath`, `ProtocolStream`, `ConnPool`.

Conventions. A bit stream is one natural number whose lowest bit comes first; machine words are naturals or bit
vectors with their width made explicit where it matters (`u32`, `ushort`, `Sub32`, `Accumulate`). Code that updates
state in place is a class or a method on arrays. What the surroundings decide is an input: what the socket answers,
whether a connection can be made, for how many blocks the output has space. `in` and `out` of the call-back decoder
may do anything their interface allows. Bit streams, histories and token lists that only the proofs need are ghost.

`dafny verify dfyconfig.toml` checks the whole project.

## Findings

What the code does and a reader may not expect, kept as it is in the model:

- `inflateBack` calls `inflate_fast` from the first byte of output on, with `whave` set to the output so far
  (AChat/zlib1.2.11/infback.c:482-490). `inflate_fast` adds `whave` to the output in the window, and so counts that
  output twice: until the window is full a match may reach beyond all output, by as much as there was output when
  `inflate_fast` was called, and further still if `sane` is not set, which `inflateBackInit_` leaves as it is. The bytes
  it then copies were never produced, and the stream is taken for a deflate stream. `StrayExample.Accepts` has an input
  of 24 bytes. `InflateBack.InflateBack` says for which streams this can happen (`DeflateStray.TooFar`) and when it is
  certain to happen (`DeflateReading.Admits`); none of these streams is a deflate stream
  (`DeflateStray.TooFarFails`), and no deflate stream is decoded wrongly for it.
- With a window below 32K the same code takes a match that reaches beyond the window but not beyond the output, and
  copies other bytes than the format says; `inflateBack` may then end with Z_STREAM_END and a wrong output
  (`DeflateStray.HardStream` has these streams). With 32K there are none (`DeflateStray.OnlyBig`).
- `match_start` of the lazy matcher can wrap below zero when the window slides; the distance computed from it is
  still right modulo 2^32 (`DeflateSlow.Earlier`, `FillWindow.SubSlide`).
- The `unhex` table of the HTTP parser is initialised for 128 bytes only, so bytes from 128 on count as the digit 0
  in a chunk size (`HttpParser.Unhex`).
- Spaces between the digits of a Content-Length do not matter to the HTTP parser (`HttpFraming.Decimal`), and its test
  for overflow of a chunk size lets some sizes beyond 2^64 through (`HttpFraming.Size`, `HttpFraming.SizeIs`).
- A version with a zero in either place counts as 1.0 or earlier, so that a connection with version 2.0 does not stay
  unless keep-alive is said (`HttpKeepAlive.Persists`). The header limit goes on counting from a chunked message's
  trailer into the next message, since `nread` is reset at the end of the headers only
  (`HttpKeepAlive.RequestThenNext`).
- The compressor never finds a match with the first string of the data, nor with the first one after a full flush:
  their index in the window is zero, the mark for no string. `TokenRules.Head` leaves out strings at positions where
  the history was forgotten, and counts the beginning among these.
- A response parser reports the beginning of a message for every line end before the status line
  (`HttpParser.ResponseLine`).
- `FileSession::onRead` goes on with the next package after `process` has failed and the connection was closed.
- A length of five bytes that are all marked as "more follow" makes `ReadLengthWithoutOffset` decode beyond its
  five-byte buffer; the model lets the value be anything (`ProtocolStream.Reader.ReadLength`).

## Model

| member | source | states |
|---|---|---|
| CodeLengths.CountLengths | AChat/zlib1.2.11/inftrees.c:106-110 | each entry counts the symbols of that length |
| CodeLengths.CheckLengths | AChat/zlib1.2.11/inftrees.c:130-136 | the sign of what is left tells over-subscribed, complete and incomplete apart, by the Kraft sum |
| CodeLengths.SortSymbols | AChat/zlib1.2.11/inftrees.c:140-147 | the work array lists exactly the used symbols in canonical code order |
| Huffman.PrefixFree | AChat/zlib1.2.11/inftrees.c:75-90 | no bit stream begins with the canonical codes of two symbols, if the lengths are not over-subscribed |
| Huffman.Complete | AChat/zlib1.2.11/inftrees.c:130-138 | if the Kraft sum is one, every bit stream begins with some symbol's code |
| Huffman.Incomplete | AChat/zlib1.2.11/inftrees.c:130-138 | if the Kraft sum is less than one, some bit stream begins with no code |
| TableFill.BackIncCode | AChat/zlib1.2.11/inftrees.c:239-248 | the backwards increment of a reversed code is the reversed next code, or zero after the last |
| InflateTable.BackIncNext | AChat/zlib1.2.11/inftrees.c:239-255 | along the sorted symbols it yields each next symbol's reversed canonical code, also when the length grows |
| TableFill.SubtableBits | AChat/zlib1.2.11/inftrees.c:266-274 | the look-ahead over the counts gives a sub-table large enough for every code with the same first bits; for the first of them in a complete code, no larger than the longest needs |
| TableFill.RoomNeeded | AChat/zlib1.2.11/inftrees.c:268-274 | as long as space is left in the cell of a complete code, a longer code lies there, so no sub-table is made too large |
| TableFill.FirstOfCell | AChat/zlib1.2.11/inftrees.c:258-263 | the code at which a sub-table is begun is the first of its cell |
| TableSize.UsedMore | AChat/zlib1.2.11/inftrees.c:276-280 | beginning a sub-table adds its size to the entries in use |
| TableSize.UsedAll | AChat/zlib1.2.11/inftrees.c:206-280 | at the end the entries in use are the root table and, for each value of the root bits that longer codes begin with, a sub-table for the longest of them |
| InflateTable.FillSymbol | AChat/zlib1.2.11/inftrees.c:215-237 | replication settles a symbol and disturbs no settled one |
| InflateTable.NextTable | AChat/zlib1.2.11/inftrees.c:257-287 | a new sub-table and its link leave every settled symbol settled; it fails only if the whole table takes too many entries |
| InflateTable.FillTables | AChat/zlib1.2.11/inftrees.c:213-288 | the loop ends with every symbol settled and nothing written beyond the entries used |
| InflateTable.LastOfComplete | AChat/zlib1.2.11/inftrees.c:290-298 | after the last symbol of a complete code the register is zero |
| InflateTable.CompleteDecodes | AChat/zlib1.2.11/inftrees.c:213-298 | with all symbols settled, every stream looks up to the one symbol it begins with, dropping exactly its length |
| InflateTable.SingleDecodes | AChat/zlib1.2.11/inftrees.c:290-298 | the one-bit code allowed to be incomplete decodes, its missing half to the invalid-code marker |
| InflateTable.Build | AChat/zlib1.2.11/inftrees.c:106-303 | returns -1 exactly for refused lengths and 1 exactly if the table takes more entries than its kind allows; on 0 the table decodes the canonical code, takes exactly the entries counted, and nothing else is written |
| BlockData.ItemUnique | AChat/zlib1.2.11/inffast.c:103-290 | a stream begins with at most one literal, match, end of block or invalid code, of one length in bits |
| BlockData.TokensUnique | AChat/zlib1.2.11/inffast.c:103-290 | the bits determine the tokens and where they end |
| BitReader.PullByte | AChat/zlib1.2.11/inffast.c:104-109 | adding a byte above the held bits keeps the accumulator a piece of the stream |
| BitReader.GiveBack | AChat/zlib1.2.11/inffast.c:292-296 | giving whole bytes back keeps it so, with fetched bits equal to consumed plus held |
| MatchCopy.CopyMatch | AChat/zlib1.2.11/inffast.c:169-264 | in every window layout, also where output and window are one array, each byte written equals the byte dist back, in the output or in the window before it; and even where a match reaches too far, no other byte changes |
| MatchCopy.CopyMeaning | AChat/zlib1.2.11/inffast.c:169-264 | such a copy is the byte-by-byte LZ77 copy on history followed by output |
| InflateFast.NextItem | AChat/zlib1.2.11/inffast.c:103-168 | one code with its extra bits and distance, by table, is the item the stream begins with, from at most six input bytes |
| InflateFast.Inflate | AChat/zlib1.2.11/inffast.c:50-306 | reads no byte beyond those available and stays within the output; with window and output in two arrays or in one, full or not, and with the check on distances or without: history and output are the expansion of the tokens read, unless a match went too far; ends with fewer than 8 bits held, fetched bits equal to decoded plus held; and why it stopped |
| BitSource.Source.NeedBits | AChat/zlib1.2.11/infback.c:180-187 | fails only when the input has run out, and pulls no byte more than it needs |
| BitSource.Source.ByteBits | AChat/zlib1.2.11/infback.c:200-205 | drops to the next byte boundary of the stream |
| BitSource.Stable | AChat/zlib1.2.11/infback.c:493-505 | a lookup that needs no more bits than are held gives what the whole stream would give |
| BitSource.Undecided | AChat/zlib1.2.11/infback.c:493-505 | a lookup that needs more bits than are held needs more on any longer stream, so each byte pulled was needed |
| BitSource.Source.GetCode | AChat/zlib1.2.11/infback.c:492-508 | the slow lookup, pulling a byte at a time, finds the same entry as a lookup in the whole stream, fails only if the code is not all there, and leaves fewer than 8 bits held |
| OutWindow.Window.Back | AChat/zlib1.2.11/infback.c:577-582 | every offset that passes the test refers to a byte already produced, at the place the copy reads |
| OutWindow.Window.Room | AChat/zlib1.2.11/infback.c:207-221 | handing the full window out changes neither the output nor what is within reach |
| OutWindow.Window.Match | AChat/zlib1.2.11/infback.c:585-603 | the copy through the circular window appends the LZ77 copy, across any number of wraps |
| InflateBack.FastPass | AChat/zlib1.2.11/infback.c:482-490 | inflate_fast, called on the window itself whether it is full or not, produces the expansion of the tokens it reads unless a match goes too far, leaves bit source and window as the slow path expects them, and refuses nothing that is sure to be taken |
| InflateBack.SlowRefuses | AChat/zlib1.2.11/infback.c:570-575 | the slow path refuses no distance that is sure to be taken: none within output and window, and where all input is at hand, only where inflate_fast was not called |
| InflateBack.Coded | AChat/zlib1.2.11/infback.c:481-604 | over any mixture of fast and slow rounds, early and late: at the end of block the data is coded data of the format, or a match in it goes too far; in either case it is read token by token as the format says, with the right length of output; a refusal means that there is no sure reading of such data in the bits there are |
| InflateBack.Stored | AChat/zlib1.2.11/infback.c:326-356 | a stored block appends exactly the bytes that the format says; a refusal means that there is none in the bits there are |
| InflateHeader.ReadLengths | AChat/zlib1.2.11/infback.c:397-444 | the lengths read, with repeats, are those the format assigns to the bits; a refusal means that no lengths can be read |
| DeflateFormat.FixedComplete | AChat/zlib1.2.11/infback.c:95-108 | the fixed codes are complete |
| InflateHeader.FixedTables | AChat/zlib1.2.11/infback.c:83-124 | the tables built for the fixed codes decode them (DeflateEncoder.FixedLiteralCodes and FixedDistanceCodes say what these are); the builder cannot run out of space there |
| InflateHeader.Header | AChat/zlib1.2.11/infback.c:358-478 | a dynamic header is accepted only if it is one of the format, and the tables decode its two codes; it is refused only if it is none within the bits there are or a table does not fit |
| DeflateFormat.HeaderCode | AChat/zlib1.2.11/infback.c:386-395 | the code-length code of an accepted header is complete |
| InflateBack.Block | AChat/zlib1.2.11/infback.c:292-324 | one block takes the output from what it was to what the format says, unless a match in it goes too far, and tells whether it is the last; a refusal means that no sure reading has a block there |
| InflateBack.InflateBack | AChat/zlib1.2.11/infback.c:245-628 | unless out() fails: every deflate stream that is not a hard one ends with Z_STREAM_END and the output that the format assigns to it, and so does in length every other stream with a sure reading; Z_STREAM_END means that the bytes handed out are what the format assigns to the input, or that a match goes too far; outside these two kinds of streams it is returned if and only if the input begins with a deflate stream; Z_DATA_ERROR on a stream that is not a hard one means that the bits are no deflate stream of any length |
| DeflateUnique.HeaderUnique | AChat/zlib1.2.11/infback.c:358-478 | the bits of a dynamic header determine both codes and its end |
| DeflateUnique.InflatesUnique | AChat/zlib1.2.11/infback.c:245-628 | a bit stream is a complete deflate stream for at most one output, ending at one place |
| DeflateReading.CodedNext | AChat/zlib1.2.11/infback.c:481-604 | a reading of coded data goes on after any tokens that the stream begins with, and its distances are allowed there |
| DeflateReading.RefusedCoded | AChat/zlib1.2.11/infback.c:509-575 | after an invalid code or a distance that is not allowed there is no reading |
| DeflateReading.BlocksEnd | AChat/zlib1.2.11/infback.c:289-324 | the bits fix block by block where a reading ends and how long its output is, whatever the distances |
| DeflateRefusal.Stuck | AChat/zlib1.2.11/infback.c:397-444 | if no code-length symbol leads on, the header cannot be completed |
| DeflateReading.StreamFails | AChat/zlib1.2.11/infback.c:245-628 | if no block can follow the blocks read, there is no reading of the stream |
| DeflateStray.InflatesReading | AChat/zlib1.2.11/infback.c:245-628 | a deflate stream is read to its end under every policy for distances, unless it is a hard one |
| DeflateStray.TooFarFails | AChat/zlib1.2.11/inffast.c:169-172 | a stream with a match beyond its output is no deflate stream |
| DeflateStray.OnlyBig | AChat/zlib1.2.11/infback.c:570-575 | with a window of 32K no match is beyond the window only, and a table that does not fit is all that makes a stream hard |
| StrayExample.GoesTooFar | AChat/zlib1.2.11/inffast.c:169-172 | ten stored bytes and a match with distance 15: it reaches beyond the output |
| StrayExample.SureReading | AChat/zlib1.2.11/infback.c:482-490 | yet there is a sure reading of this input for a window of 32K |
| StrayExample.Accepts | AChat/zlib1.2.11/infback.c:482-490 | inflateBack returns Z_STREAM_END for it, whether distances are checked or not |
| BitStrings.StartsCode | AChat/zlib1.2.11/inffast.c:29-48 | a stream begins with a Huffman code, written from its first bit on, exactly if its lowest bits are the code reversed |
| BitStrings.InputStarts | AChat/zlib1.2.11/infback.c:180-187 | the stream of some bytes begins with a string of bits that is written in them lowest bit first |
| DeflateEncoder.FixedLiteralCodes | AChat/zlib1.2.11/infback.c:95-98 | the fixed literal/length code is the table of section 3.2.6 of RFC 1951: 48 + s in 8 bits, 256 + s in 9, s - 256 in 7 and s - 88 in 8 bits, over the four ranges of s |
| DeflateEncoder.FixedDistanceCodes | AChat/zlib1.2.11/infback.c:104-108 | the fixed distance codes are the numbers themselves in 5 bits |
| DeflateEncoder.LengthPartsAre | AChat/zlib1.2.11/inftrees.c:60-65 | every length is the base of the symbol computed for it plus extra bits that fit, and 258 has a symbol of its own |
| DeflateEncoder.DistPartsAre | AChat/zlib1.2.11/inftrees.c:66-73 | the same for every distance |
| DeflateEncoder.TokenStarts | AChat/zlib1.2.11/inffast.c:110-168 | a stream that begins with the bits written for a token has this token there, and no other length in bits |
| DeflateEncoder.HeaderStarts | AChat/zlib1.2.11/infback.c:358-444 | what is written as a dynamic header (three counts, code-length lengths in the stated order, lengths and repeats by symbols 16, 17 and 18) is read as that header |
| DeflateEncoder.StoredStarts | AChat/zlib1.2.11/infback.c:326-356 | a stored block is written with padding, its length, the complement and its bytes |
| DeflateEncoder.BlockStarts | AChat/zlib1.2.11/infback.c:289-324 | a written block of any of the three kinds is a block of the format there, with its output and its end |
| DeflateEncoder.EncodedInflates | AChat/zlib1.2.11/infback.c:245-628 | every sequence of blocks, written out, is a deflate stream for the output that the blocks stand for |
| DeflateEncoder.LiteralsInflate | AChat/zlib1.2.11/infback.c:245-628 | every sequence of bytes, written as one fixed block of literals (48 + b in 8 bits or 256 + b in 9, seven zero bits at the end), is a deflate stream for these bytes |
| InflateEncoded.EncodedFits | AChat/zlib1.2.11/infback.c:245-628 | a written stream with distances that fit in the window, and with tables that fit, is not a hard one |
| InflateEncoded.InflateStream | AChat/zlib1.2.11/infback.c:245-628 | inflateBack, given what is written for any such blocks, with distances that fit in the window, hands out exactly their output and returns Z_STREAM_END, unless out() fails; so its format is that of RFC 1951 |
| InflateEncoded.InflateLiterals | AChat/zlib1.2.11/infback.c:245-628 | the same for any bytes as literals of the fixed code, with any window |
| InflateEncoded.AbcStream | AChat/zlib1.2.11/infback.c:95-98 | 4B 4C 4A 06 00 is what is written for "abc" |
| HashChain.RollUse | AChat/zlib1.2.11/deflate.c:157-163 | a rolling key updated with a third byte is the key of those three bytes alone |
| HashChain.RollNext | AChat/zlib1.2.11/deflate.c:157-163 | the key of one string is ready for the next: the oldest byte leaves it |
| HashChain.ThirdByte | AChat/zlib1.2.11/deflate.c:1335-1342 | equal keys and equal first two bytes force the third, as the key has at least 8 bits |
| HashChain.InsertKeeps | AChat/zlib1.2.11/deflate.c:182-185 | inserting a string keeps every live chain link leading to the last earlier string with the same key, and heads to the last one, nothing passed over, despite indices modulo the window size |
| HashChain.SlideKeeps | AChat/zlib1.2.11/deflate.c:201-225 | so does sliding the window |
| HashChain.Follow | AChat/zlib1.2.11/deflate.c:1372-1373 | a live link leads to NIL or to an earlier string with the same key, and there is none between |
| DeflateState.State.InsertString | AChat/zlib1.2.11/deflate.c:182-185 | index and data stay in agreement; the head returned is an earlier string with this key |
| DeflateState.SlideArray | AChat/zlib1.2.11/deflate.c:207-224 | every entry moves down by the window size or becomes NIL |
| DeflateState.State.Slide | AChat/zlib1.2.11/deflate.c:1507-1518 | absolute positions do not change, and the key stays ready |
| FillWindow.ReadBuf | AChat/zlib1.2.11/deflate.c:1164-1189 | takes as much input as there is room for, in order |
| FillWindow.InitHash | AChat/zlib1.2.11/deflate.c:1537-1556 | the key is restarted and left-over strings are inserted, each exactly once |
| FillWindow.Fill | AChat/zlib1.2.11/deflate.c:1482-1598 | the invariant holds; position, input as a whole, block start and distance of the last match are unchanged; enough lookahead unless input has run out |
| LongestMatch.Scan | AChat/zlib1.2.11/deflate.c:1341-1357 | the unrolled scan stops exactly at the first difference or at 258 |
| LongestMatch.ThreeBytes | AChat/zlib1.2.11/deflate.c:1330-1342 | a candidate with two equal bytes has three |
| LongestMatch.NextCandidate | AChat/zlib1.2.11/deflate.c:1372-1373 | a chain position within reach is an earlier string with the current key |
| LongestMatch.FollowedHas | AChat/zlib1.2.11/deflate.c:1372-1373 | the chain leaves nothing out: every string with the current key within reach, and with none of the limits met, is on it |
| LongestMatch.Longest | AChat/zlib1.2.11/deflate.c:1236-1377 | a result above prev_length is a true match at match_start within MAX_DIST and lookahead; it is the longest that any position on the chain offers, as far as the chain is followed (max_chain_length of them, a quarter if prev_length is good), and the nearest of these, unless the search ended early because the result reached nice_match or the lookahead |
| TokenBuffer.Buffer.TallyLit | AChat/zlib1.2.11/deflate.h:326-332 | records the literal as the next token, keeps the frequencies those of the tokens, and reports when the block must be flushed |
| TokenBuffer.Buffer.TallyDist | AChat/zlib1.2.11/deflate.h:333-342 | the narrowed entries stand for the match given, and the frequencies of its two codes go up by one |
| TokenBuffer.CodesReach | AChat/zlib1.2.11/deflate.h:333-342 | the codes counted for a match are those whose bases and extra bits give it back to a decoder |
| TokenBuffer.CoversMatch | AChat/zlib1.2.11/deflate.c:1867-1868 | recording a true match extends what the tokens expand to by its length |
| DeflateBlock.FlushBlock | AChat/zlib1.2.11/deflate.c:1605-1614 | the raw bytes offered for a stored block are exactly what the block's tokens stand for, and the frequencies handed on are those of its tokens |
| DeflateFast.InsertWithin | AChat/zlib1.2.11/deflate.c:1876-1886 | the strings inside a short match are inserted and the state moves past it |
| DeflateFast.FindMatch | AChat/zlib1.2.11/deflate.c:1843-1861 | the head of the chain offers no longer match than the one found |
| DeflateFast.Fast | AChat/zlib1.2.11/deflate.c:1824-1917 | the recorded tokens expand to exactly the input consumed and obey the rule of greedy matching; when more is needed, and what the result is, as for DeflateSlow.Slow |
| DeflateSlow.EarlierKept | AChat/zlib1.2.11/deflate.c:1510-1518 | the held-back match survives filling and sliding, though its start index may wrap |
| DeflateSlow.FindBetter | AChat/zlib1.2.11/deflate.c:1948-1982 | a match longer than the previous one is a true match; if the previous one is below max_lazy, it is at least as long as whatever the head of the chain offers beyond the previous one, but for matches that are too far or filtered |
| DeflateSlow.SearchFrom | AChat/zlib1.2.11/deflate.c:1954-1981 | the search from the head of the chain, with the two tests that put a match off |
| TokenRules.ReleasedRule | AChat/zlib1.2.11/deflate.c:2013-2027 | a byte that becomes a literal had no match worth taking at its head, or a longer one starts at the next byte |
| TokenRules.AdoptedRule | AChat/zlib1.2.11/deflate.c:1984-2009 | a match that is taken is the best its head offers, and the next byte offers no longer one if it was asked |
| TokenRules.RuledKept | AChat/zlib1.2.11/deflate.c:1926-2050 | tokens that obey their rules go on doing so as data come in and strings are indexed |
| DeflateSlow.PassPrevious | AChat/zlib1.2.11/deflate.c:1987-2009 | every string of the match with all its bytes is inserted, and the key is ready afterwards |
| DeflateSlow.Slow | AChat/zlib1.2.11/deflate.c:1926-2050 | the tokens expand to the input consumed minus the one byte held back, and obey the rule of lazy matching; more is needed only if the output is full, or without a flush if the input has run out with less than 262 bytes left; otherwise all input is in finished blocks, and the result is the one for the flush |
| DeflateRuns.RunLength | AChat/zlib1.2.11/deflate.c:2078-2094 | the length found is a run of the byte before |
| DeflateRuns.FindRun | AChat/zlib1.2.11/deflate.c:2072-2094 | the run found is as long as the byte before repeats, up to 258 |
| DeflateRuns.Runs | AChat/zlib1.2.11/deflate.c:2057-2163 | the same for deflate_rle, by the rule of run-length matching, and deflate_huff, which records literals only |
| Deflate.FullFlush | AChat/zlib1.2.11/deflate.c:1029-1036 | forgetting the history keeps every method's state sound |
| Deflate.DeflateCall | AChat/zlib1.2.11/deflate.c:994-1043 | one call: with pending output that fills the space nothing is taken; with enough space all input is, and FINISH finishes |
| Deflate.Run | AChat/zlib1.2.11/deflate.c:994-1043 | over any sequence of calls, cuts, flush modes and amounts of output space: the tokens expand to the consumed prefix of all input minus the held-back byte, and to all of it once finished; every match has 3 to 258 bytes and reaches back no further than the window size less 262; every token obeys the rule of its method, so that no match that the head of the chain offers is passed over without reason; a call with enough space takes all input, with a flush has tokens for all of it, and with FINISH finishes the stream |
| Crc32.StepsXor | AChat/zlib1.2.11/crc32.c:66-81 | the shift register is linear |
| Crc32.ByteByTable | AChat/zlib1.2.11/crc32.c:198-198 | eight steps are a table entry for the low byte plus a shift of the rest |
| Crc32.FourBytes | AChat/zlib1.2.11/crc32.c:260-262 | feeding four bytes is 32 steps on the register plus the little-endian word |
| Crc32.FourTables | AChat/zlib1.2.11/crc32.c:260-262 | 32 steps are the sum of one entry from each of four tables |
| Crc32.CheckValue | AChat/zlib1.2.11/crc32.c:66-106 | the CRC of the nine digits 1 to 9 is CBF43926 in base 16 |
| CrcTables.MakeTable | AChat/zlib1.2.11/crc32.c:108-127 | row k holds the register for each byte followed by k zero bytes; rows 4 to 7 are byte-swapped |
| CrcTables.Polynomial | AChat/zlib1.2.11/crc32.c:103-106 | the exponents make up the polynomial of the CRC |
| CrcTables.CrcBytes | AChat/zlib1.2.11/crc32.c:202-234 | the byte-table loop computes the shift-register CRC |
| CrcTables.CrcLittle | AChat/zlib1.2.11/crc32.c:266-297 | so does the four-byte loop, for any length and alignment |
| CrcTables.WordSwapped | AChat/zlib1.2.11/crc32.c:300-302 | the byte-swapped tables mirror the plain ones |
| CrcTables.CrcBig | AChat/zlib1.2.11/crc32.c:306-337 | so does the big-endian loop |
| CrcCombine.Times | AChat/zlib1.2.11/crc32.c:344-358 | the product with an operator matrix is so many steps of the register |
| CrcCombine.Square | AChat/zlib1.2.11/crc32.c:361-369 | the square is the operator for twice as many steps |
| CrcCombine.AppendZeros | AChat/zlib1.2.11/crc32.c:386-420 | the alternating squarings apply exactly 8 steps for every byte of len2 |
| CrcCombine.RegisterXor | AChat/zlib1.2.11/crc32.c:400-423 | the start value's effect on the register is independent of the bytes |
| CrcCombine.CrcAppend | AChat/zlib1.2.11/crc32.c:237-243 | continuing a CRC is the CRC of the whole |
| CrcCombine.Combine | AChat/zlib1.2.11/crc32.c:372-424 | the CRC of two sequences from their CRCs and the second's length, for all sequences |
| Adler32.NmaxIsLargest | AChat/zlib1.2.11/adler32.c:12-14 | NMAX is exactly the largest number of bytes for which the sums fit in 32 bits |
| Adler32.BaseIsLargestPrime | AChat/zlib1.2.11/adler32.c:11-11 | BASE is prime, and no number from there to 65535 is |
| Adler32.KnownSum | AChat/zlib1.2.11/adler32.c:63-131 | the sum of "Wikipedia" is 11E60398 in base 16 |
| Adler32.SumUp | AChat/zlib1.2.11/adler32.c:16-20 | no intermediate sum overflows within a block, and the sums stand for the reduced ones |
| Adler32.AdlerZ | AChat/zlib1.2.11/adler32.c:63-131 | equals the per-byte definition modulo 65521 for every buffer, by each of its three paths |
| Adler32.AdlerFrom | AChat/zlib1.2.11/adler32.c:153-168 | start values enter the sums linearly |
| Adler32.Combine | AChat/zlib1.2.11/adler32.c:143-169 | the checksum of two sequences from theirs; the conditional subtractions suffice; an all-ones value for a negative length |
| HttpRun.RunAppend | AChat/login_dispatch_server/http_parser.cpp:612-1855 | a run over two pieces is the run over the first continued over the second: fields, events, errors and where they occur |
| HttpRun.SameTrace | AChat/login_dispatch_server/http_parser.cpp:84-117 | two callback traces have the same events exactly if they are equal once adjacent data callbacks of a kind are joined and empty ones dropped |
| HttpSafety.StepGood | AChat/login_dispatch_server/http_parser.cpp:632-1830 | every byte keeps the invariant, trips no assertion, and asks for marks and callbacks in one of six shapes |
| HttpExecute.ShapeKept | AChat/login_dispatch_server/http_parser.cpp:76-117 | marks and data callbacks account for exactly the bytes that are data |
| HttpExecute.OneMark | AChat/login_dispatch_server/http_parser.cpp:1845-1848 | at most one mark is set |
| HttpExecute.BodyRun | AChat/login_dispatch_server/http_parser.cpp:1662-1680 | taking a stretch of body at once is taking it byte by byte |
| HttpExecute.Connection.AtEnd | AChat/login_dispatch_server/http_parser.cpp:590-611 | the end of the stream completes a body that runs to it, is fine between messages, and is an error elsewhere |
| HttpExecute.Connection.Execute | AChat/login_dispatch_server/http_parser.cpp:572-1862 | fields, bytes taken, error and the events of the callbacks are those of the byte-by-byte run |
| HttpExecute.Feed | AChat/login_dispatch_server/http_parser.cpp:572-1862 | a stream that parses, cut anywhere, gives the fields and callbacks of the uncut stream, up to joining and dropping empty data callbacks |
| HttpExecute.FeedBoth | AChat/login_dispatch_server/http_parser.cpp:572-1862 | two connections fed one stream in two ways end with the same fields and the same callbacks, joined and without empty ones |
| HttpFraming.RunInv | AChat/login_dispatch_server/http_parser.cpp:1710-1714 | over every run no assertion fails; in particular nread is 1 at every chunk-size start |
| HttpFraming.IdentityBody | AChat/login_dispatch_server/http_parser.cpp:1662-1708 | exactly as many bytes as the length says are body, then the message is complete, not before |
| HttpFraming.LengthValue | AChat/login_dispatch_server/http_parser.cpp:1410-1487 | the digits of a Content-Length below 2^64 - 1, with any spaces after the first, set the length to their value |
| HttpHeaders.NameRead | AChat/login_dispatch_server/http_parser.cpp:1191-1369 | reading a header name in any letter case brings the parser to where it knows the header |
| HttpHeaders.Recognised | AChat/login_dispatch_server/http_parser.cpp:1191-1380 | "Content-Length:" and "Transfer-Encoding:", in any letter case and with any blanks after them, lead to the state of their values |
| HttpHeaders.ChunkedLine | AChat/login_dispatch_server/http_parser.cpp:1371-1568 | the line "Transfer-Encoding: chunked", in any letter case, marks the message as chunked |
| HttpHeaders.ContentLengthMessage | AChat/login_dispatch_server/http_parser.cpp:1191-1487 | a message with a Content-Length of N, from its name on: whatever other headers follow, headers complete, exactly N body bytes, message complete |
| HttpHeaders.TransferEncodingMessage | AChat/login_dispatch_server/http_parser.cpp:1191-1826 | a message with "Transfer-Encoding: chunked", from the name on: whatever other headers follow, headers complete, exactly the payloads as body, the trailer, message complete |
| HttpFraming.OtherHeadersKeep | AChat/login_dispatch_server/http_parser.cpp:1464-1487 | no other header changes the length |
| HttpFraming.SizeIs | AChat/login_dispatch_server/http_parser.cpp:1731-1761 | the digits of a chunk size below 2^64 - 1 set the length to their value |
| HttpFraming.OneChunk | AChat/login_dispatch_server/http_parser.cpp:1710-1826 | a chunk, with any digits that are accepted and with or without parameters, delivers its payload |
| HttpFraming.TrailerMessage | AChat/login_dispatch_server/http_parser.cpp:1570-1580 | a trailer delivers header fields and values only, no body and no notification, and then the end of the message |
| HttpFraming.LastChunk | AChat/login_dispatch_server/http_parser.cpp:1774-1787 | a chunk of size zero, however written, leads to the trailer |
| HttpFraming.ChunkedMessage | AChat/login_dispatch_server/http_parser.cpp:1710-1826 | any chunks, a last chunk with any zero size and parameters, and any trailer: exactly the concatenated payloads as body, then the trailer, then the message is complete |
| HttpFraming.ChunkedBody | AChat/login_dispatch_server/http_parser.cpp:1619-1660 | the same from the end of the headers on |
| HttpChunks.AcceptedIs | AChat/login_dispatch_server/http_parser.cpp:1710-1826 | conversely, every input that the parser takes from the first chunk size to the end of the message consists of chunks, a last chunk and a trailer |
| HttpChunks.AcceptedDelivers | AChat/login_dispatch_server/http_parser.cpp:1710-1826 | so every accepted chunked body delivers its payloads, its trailer and the end of the message, and nothing else |
| HttpLines.GuessRight | AChat/login_dispatch_server/http_parser.cpp:872-1000 | the guesses made from a method name, letter by letter, end at the method |
| HttpLines.RequestLineRead | AChat/login_dispatch_server/http_parser.cpp:872-1190 | a request line with any method, path and version sets the method and both version numbers to what is written, and reports the path |
| HttpLines.StatusLineRead | AChat/login_dispatch_server/http_parser.cpp:694-871 | a status line sets both version numbers and the status to what is written |
| HttpLines.EitherReads | AChat/login_dispatch_server/http_parser.cpp:657-693 | a parser for either kind of message reads what begins with HT as a response, and all else as a request |
| HttpKeepAlive.AnyName | AChat/login_dispatch_server/http_parser.cpp:1191-1369 | any header name is read, and the parser knows the header exactly if it is one of those it looks for |
| HttpKeepAlive.HeadersKnown | AChat/login_dispatch_server/http_parser.cpp:1277-1369 | it takes a header for one about the connection, the coding or an upgrade exactly if its name is connection or proxy-connection, transfer-encoding or upgrade |
| HttpKeepAlive.ConnectionValue | AChat/login_dispatch_server/http_parser.cpp:1371-1555 | the value of such a header is taken for close or keep-alive exactly if it says so, with any spaces after it |
| HttpKeepAlive.CodingValue | AChat/login_dispatch_server/http_parser.cpp:1395-1555 | that of Transfer-Encoding is taken for chunked exactly if it says so |
| HttpKeepAlive.LineRead | AChat/login_dispatch_server/http_parser.cpp:1191-1568 | a header line sets the close flag if and only if it says close, and likewise for keep-alive, the chunked coding and an upgrade; method, version and status stay |
| HttpKeepAlive.Completes | AChat/login_dispatch_server/http_parser.cpp:1865-1906 | whenever a byte completes a message, version, flags and, for a response, status and length decide where the parser goes |
| HttpKeepAlive.HeadersThenBody | AChat/login_dispatch_server/http_parser.cpp:1570-1660 | after any header lines, the connection is handed over exactly if a line said upgrade or the method is CONNECT; otherwise chunks follow exactly if a line said so; otherwise a body of the length, one up to the end, or none |
| HttpKeepAlive.NoBody | AChat/login_dispatch_server/http_parser.cpp:1619-1660 | without a length and chunked coding a request ends with its headers, and so does a response whose status has no body |
| HttpKeepAlive.EndlessResponse | AChat/login_dispatch_server/http_parser.cpp:1640-1660 | any other such response never ends: all that follows is body |
| HttpKeepAlive.RequestThenNext | AChat/login_dispatch_server/http_parser.cpp:1891-1906 | after a complete request, a following one is begun if and only if both version numbers are above zero and no line said close, or one is zero and a line said keep-alive; otherwise its first byte is refused |
| HttpKeepAlive.ResponseThenNext | AChat/login_dispatch_server/http_parser.cpp:1865-1906 | the same for a response, which in addition needs a status without a body, chunked coding or a length |
| HttpKeepAlive.BareRequests | AChat/login_dispatch_server/http_parser.cpp:572-1862 | a request line and the empty line are one message, and the connection stays by the version alone |
| HttpTexts.AnyCase | AChat/login_dispatch_server/http_parser.cpp:138-177 | a header name is one the parser looks for exactly if it spells it in some mixture of small letters and capitals |
| HttpTexts.AnyCaseWord | AChat/login_dispatch_server/http_parser.cpp:1371-1555 | so is a word in a value, up to spaces after it |
| HttpTexts.DecimalWritten | AChat/login_dispatch_server/http_parser.cpp:1464-1487 | the value of a Content-Length is the number its decimal digits write |
| HttpTexts.ValueWritten | AChat/login_dispatch_server/http_parser.cpp:720-840 | so are version numbers and a status |
| HttpTexts.HexWritten | AChat/login_dispatch_server/http_parser.cpp:180-190 | the size of a chunk is the number its digits write in base 16, in small or capital letters |
| HttpTexts.TwoRequests | AChat/login_dispatch_server/http_parser.cpp:1891-1906 | two requests for / with version 1.1 on one connection are two complete messages |
| NetBuffer.Buffer.MakeSpace | AChat/net/Buffer.h:443-466 | there is room and the content is unchanged, whether it grows or moves; the early return is never taken |
| NetBuffer.Buffer.Append | AChat/net/Buffer.h:204-215 | the content grows by the data |
| NetBuffer.Buffer.Retrieve | AChat/net/Buffer.h:123-138 | takes from the front, all or nothing |
| NetBuffer.Buffer.RetrieveAsString | AChat/net/Buffer.h:184-192 | returns what it takes |
| NetBuffer.Buffer.Prepend | AChat/net/Buffer.h:400-409 | puts data before the content if the space in front is enough |
| NetBuffer.Buffer.Unwrite | AChat/net/Buffer.h:250-257 | takes back from the end, all or nothing |
| NetBuffer.Buffer.Shrink | AChat/net/Buffer.h:411-418 | keeps the content |
| Framing.HeaderRoundTrip | AChat/fileserver/TcpSession.cpp:32-37 | the eight length bytes, lowest first, read back as the length |
| Framing.EightBytes | AChat/fileserver/TcpSession.cpp:32-37 | byte by byte, without the coding function: byte k of the header is the k-th from the low end of the length |
| Framing.ExtractAppend | AChat/fileserver/FileSession.cpp:30-63 | extracting as bytes arrive equals extracting from all of them at once |
| Framing.ExtractPrefix | AChat/fileserver/FileSession.cpp:30-63 | any prefix of a stream of frames yields the bodies complete in it and part of one frame |
| Framing.Session.OnRead | AChat/fileserver/FileSession.cpp:30-63 | processes exactly the complete bodies, leaves the rest, and closes on an illegal header |
| Framing.Receive | AChat/fileserver/FileSession.cpp:30-63 | framed bodies of 1 byte to 50 MiB, received in any fragments, are processed as exactly those bodies in order; an incomplete frame stays |
| SendPath.Connection.SendInLoop | AChat/net/TcpConnection.cpp:129-176 | for every answer of the socket: it is asked exactly if nothing waits; what it takes is at its end and the rest waits, with the channel waiting for the socket; a fault is reported exactly if the socket gave one, and drops the message whole |
| SendPath.Connection.HandleWrite | AChat/net/TcpConnection.cpp:317-349 | what the socket takes leaves from the front; the connection is closed exactly if the socket was asked and took nothing; the channel stops waiting when no bytes are left |
| SendPath.Connection.Write | AChat/net/TcpConnection.cpp:141-160 | the socket takes a prefix or the result is negative, as the answer says |
| SendPath.Run | AChat/net/TcpConnection.cpp:129-349 | over every interleaving up to a fault that the socket gives: socket bytes followed by waiting bytes are all messages in order, and an open connection waits for the socket exactly while bytes wait |
| ProtocolStream.Decode7Encode7 | AChat/net/ProtocolStream.cpp:35-78 | the seven-bit code is self-delimiting and decodes to the number |
| ProtocolStream.Encode7Size | AChat/net/ProtocolStream.cpp:34-46 | a number takes at most n bytes exactly if it is below 128^n |
| ProtocolStream.SizeLimits | AChat/net/ProtocolStream.cpp:34-60 | 1 to 5 bytes for 32-bit numbers and 1 to 10 for 64-bit ones, both attained |
| ProtocolStream.Write7 | AChat/net/ProtocolStream.cpp:35-60 | appends the code of the number |
| ProtocolStream.Read7 | AChat/net/ProtocolStream.cpp:63-78 | the shifted sum is the number modulo 2^32 |
| ProtocolStream.ParseEncoding | AChat/net/ProtocolStream.cpp:137-288 | a field's encoding is parsed back whatever follows it |
| ProtocolStream.Reader.ReadLength | AChat/net/ProtocolStream.cpp:254-283 | finds the length and its size when a group within five bytes ends it, and fails when the data end first |
| ProtocolStream.Reader.ReadString | AChat/net/ProtocolStream.cpp:137-162 | returns the text or fails as the length and the data say |
| ProtocolStream.RoundTrip | AChat/net/ProtocolStream.cpp:190-391 | fields written, flushed and read with the same types come back the same, and the reader is at its end; each byte written is given by Writer.WriteInt32, WriteShort and Flush |
| ProtocolStream.Writer.WriteInt32 | AChat/net/ProtocolStream.cpp:333-340 | appends four bytes, the j-th of them the number modulo 2^32 divided by 256^(3 - j), modulo 256 |
| ProtocolStream.Writer.WriteShort | AChat/net/ProtocolStream.cpp:357-364 | appends two bytes, the higher first |
| ProtocolStream.Writer.Flush | AChat/net/ProtocolStream.cpp:386-391 | the first four bytes become the size of the whole, the highest byte first |
| ProtocolStream.Reader.ReadInt32 | AChat/net/ProtocolStream.cpp:190-203 | any four bytes at the cursor give the two's complement of b0 * 2^24 + b1 * 2^16 + b2 * 2^8 + b3; fewer fail |
| ProtocolStream.Reader.ReadShort | AChat/net/ProtocolStream.cpp:215-228 | likewise two bytes |
| ProtocolStream.Encode7Digit | AChat/net/ProtocolStream.cpp:34-46 | digit k of the seven-bit code is the number divided by 128^k, modulo 128, marked unless it is the last |
| ConnPool.Pool.Init | AChat/dbproxyserver/CachePool.cpp:592-607 | returns 1 exactly if making a connection failed; otherwise gives a sound pool of two free connections; after a failure the count is more than there are |
| ConnPool.Pool.Get | AChat/dbproxyserver/CachePool.cpp:609-640 | a free connection is handed out if there is one; otherwise the caller waits exactly at the limit, fails exactly if making one below the limit fails, and gets the new one otherwise; a connection handed out was with nobody, and free plus held equals the count |
| ConnPool.Pool.Release | AChat/dbproxyserver/CachePool.cpp:642-660 | the connection is free again, once |
| ConnPool.TakeOwned | AChat/dbproxyserver/DBPool.cpp:343-374 | taking a connection nobody holds leaves every connection with at most one caller |
| ConnPool.StillAwake | AChat/dbproxyserver/DBPool.cpp:345-350 | a stay in the monitor loses no wake-up |
| ConnPool.Run | AChat/dbproxyserver/DBPool.cpp:326-396 | the pool is ready exactly if making the first connections did not fail; then over every interleaving of any number of callers, with any of the further connections failing: no connection is with two of them, the free list is duplicate-free and disjoint from held ones, the count is right and bounded, and no wake-up is lost |

## Left out

- InflateTable.Build: that no code needs more than ENOUGH_LENS or ENOUGH_DISTS entries is not shown (it was found by exhaustive search); the return value 1 is characterised instead.
- InflateBack.InflateBack: unless in() delivers all bytes in one piece, how many of them are at hand when inflate_fast might be called is arbitrary; what a stream that goes too far is decoded to is not said beyond its length. The tables of a block are separate arrays rather than parts of one.
- InflateFast.Inflate: outside inflateBack distances are taken to be checked (sane set); where a source would lie before the window, which takes a window below 32K and no check, the bytes copied are arbitrary; INFLATE_STRICT and the variant that allows invalid distances are not modelled.
- TokenRules.Ruled: the rules speak of the head of a chain, the last earlier string with the same key; what the rest of the chain offers is LongestMatch.Longest. They ask for no match that a flush cut when it was looked for.
- Deflate.Run: the space in the output is counted in blocks, as the size of a block is made by trees.c; deflate_stored, deflateParams, deflateTune, preset dictionaries, and the FASTEST and UNALIGNED_OK variants are not part of this model; the level and strategy are fixed for a run.
- Block output (trees.c, except that init_block resets the frequencies), gzip and zlib headers and trailers, inflate.c and the gz* file layer.
- HttpExecute.Connection.Execute: callbacks return 0, so pausing, callback errors and F_SKIPBODY do not occur; the lenient mode is not modelled; after an error the parser's fields are not described.
- HttpKeepAlive.RequestThenNext: after the headers of a request with an upgrade, or with the method CONNECT, the connection is handed over, and no other request is said to follow; the text of a message between its lines is any that the parser takes (HttpFraming and HttpHeaders say which bodies these are).
- HttpLines.RequestLineRead: malformed lines, and more than one space between their parts, are left to the general run.
- HttpHeaders.ContentLengthMessage: a value folded over several lines is left to the general run.
- HttpHeaders.TransferEncodingMessage: the value is chunked alone, with no space after it.
- http_parser_parse_url and http_parse_host, method and error names.
- Buffer::readFd, the find functions and the integer append and peek functions of Buffer; indices are unbounded.
- Framing.Session.OnRead: what process does with a body; its answer may be anything. The header is little-endian.
- SendPath.Run: high-water-mark and write-complete callbacks, shutdown, and sending from other threads through the event loop.
- ProtocolStream.RoundTrip: WriteInt64, ReadInt64, WriteDouble, isNULL and the checksum function; strings of 2^32 bytes or more, whose length the reader does not understand.
- ProtocolStream.Reader.ReadLength: the value after five marked bytes is arbitrary, as the code reads beyond its buffer there.
- ConnPool.Run: that a waiting caller is served eventually is not stated, as it needs fairness.
- TimerQueue, EpollPoller, Acceptor, Connector, threads, logging and configuration; message, group and login handlers; redis and MySQL calls, AES, MD5 and base64.
