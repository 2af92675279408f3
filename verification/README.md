# A verified model of the compression and serialisation code of the server

The server carries three pieces of code on whose exactness everything stored or sent depends: the bzip2 library
(`dep/bzip2`), the checksums and the fast decoding loop of zlib (`dep/zlib`), and Eluna's Lua serialiser
(`lmarshal.cpp`). This project models them in Dafny, together with Eluna's queue of timed events
(`ElunaEventMgr.cpp`), and proves what they are for.

- **bzip2 is lossless.** The compressor is modelled as written: the state machine of `BZ2_bzCompress`, run
  collection, both block sorters (radix sort, three-way quicksort with its work budget, pointer scans, quadrants;
  and the exponential fallback sort that works inside the block's own memory), move-to-front, Huffman code lengths
  built on a heap, and the bit stream. `Lossless.CompressLossless` says that after every run that ends, whatever the
  buffer sizes, flushes, level and work factor, decompressing the output gives the input. What "decompressing" means
  is a parser of the format; `BZ2_bzDecompress` is modelled too, as the state machine it is (every place where it can
  stop for input, the resumable symbol reader, the segmented move-to-front list, both memory layouts of the inverse
  Burrows-Wheeler transform, runs put out into buffers of any size), and proved to compute just that, on every input.
  `RoundTrip.Restore` joins the two: given the compressor's output in any portions, it puts out the input and nothing
  else, and reaches the end with exactly enough room. `RoundTrip.ThereAndBack` does both, with a bound on the stream's
  length, so that enough room is known beforehand.
- **What the compressor writes.** Its blocks are a function of the bytes and the flushes alone, runs as long as can be
  and blocks as full as can be, but for one corner (`BlockCutting`); its Huffman code lengths are the best there are for
  the frequencies (`HuffmanOptimal`); its checksums are described without its own steps (`CrcMeaning`); and a whole
  small stream is written out (`KnownStream`), so that coder and decoder cannot agree on another format.
- **zlib**: CRC-32 by slicing, and CRC-32 and Adler-32 of a concatenation from those of its parts;
  `inflate_fast` decodes exactly what its tables say and needs no bounds checks, and text written in the tables' code
  words comes out again, up to the end code (`InflateWritten`).
- **lmarshal**: encoding and decoding gives an isomorphic copy of every graph of tables, sharing and cycles included,
  with constants shared; and it is known exactly which graphs can be encoded.
- **Timed events**: what an update calls, and that the operations asked for while it runs have, afterwards, exactly the
  effect they would have had one after the other, due times included; an event that repeats comes back.

Objects whose methods change fields are classes here, and code that works in place on arrays does so here. Each method
is proved against a function or a predicate on sequences; the lemmas about those carry the theory: rotations of a block
that may be periodic, stable orders, induced sorting, Kraft's sum, linear operators over bits.

## Reading order

| part | modules |
|---|---|
| bits, rotations, orders | Bits, BitStrings, Rotations, Counting, InverseBwt, OrderPointer, MoveToFront, RunLength, Crc, CrcMeaning |
| fallback sort | ByteView, BucketHeaders, FallbackRadix, FallbackQSort, BucketRefinement, FallbackSort |
| main sort | Overlay, MainCompare, MainSimpleSort, MainPartition, MainQSort, MainRadix, RunningOrder, InducedSort, PointerScan, BucketScan, MainMarks, MainQuadrants, MainSort, BlockSort |
| Huffman coding | HuffmanHeap, HuffmanForest, HuffmanDepths, HuffmanOptimal, HuffmanLengths, HuffmanCodes, HuffmanTables |
| a block in bits | BlockParts, BlockData, BlockFormat, SelectorCoding, MtfEncode, BitWriter, SendParts, SendBlock, SendStream, BlockSize, BlockCoder |
| compressing a stream | BlockCutting, RunCollector, StreamFormat, CompressedStream, BzCompress, Lossless, KnownStream |
| decompressing a block | BitReader, SymbolReader, MtfPool, UnpackBlock, DataReader, FastDecode, SmallDecode, RandomTable, Randomisation, BlockStart, BlockOutput, BlockResult |
| decompressing a stream | HeaderSteps, HeaderParse, HeaderRefinement, StreamStart, HeaderReader, DataStart, StreamReading, BzDecompress, OutputSize, RoundTrip |
| zlib | ZlibCrc, CrcCombine, CrcSlicing, CrcBigEndian, Adler, InflateBits, InflateCodes, InflateCopy, InflateFast, InflateWritten |
| lmarshal | MarshalData, MarshalRoundTrip, Marshal, MarshalSize, MarshalReads |
| timed events | TimedEvents, EventProcessor |
| small answers written out | KnownAnswers |

## Model

| member | source | states |
|---|---|---|
| Lossless.CompressLossless | dep/bzip2/bzlib.c:407-464 | Once a run of the compressor has ended, in however many calls, with whatever buffers, flushes, level and work factor, its output decompresses to just its input. |
| RoundTrip.Restore | dep/bzip2/bzlib.c:808-858 | The compressor's output, given to the decompressor in any portions, with any room, in fast mode or small: what comes out is a prefix of what was compressed, all of it at the end, and the end is reached once all input has been given and with it exactly enough room. |
| RoundTrip.ThereAndBack | dep/bzip2/bzlib.c:407-464 | A whole run of both: compressed in calls to finish and decompressed again, nothing but the input comes out; and with buffers that hold the largest stream so many bytes can come to, and room for just the input behind, both ends are reached. |
| OutputSize.Finish | dep/bzip2/bzlib.c:431-461 | Calls to finish are never refused, each fills its buffer until the stream is complete, and it is complete once the buffers hold the bound on the stream. Its blocks are those of the input with one end, whatever the buffers were. |
| OutputSize.EmittedBound | dep/bzip2/compress.c:602-667 | At any time, in any mode, less has been handed over than 15 bytes, 7613 for each block and 4 for each byte taken; and no block without a byte. |
| BzDecompress.Decompressor.Decompress | dep/bzip2/bzlib.c:808-858 | On every input, cut anyhow, randomised blocks included: Ok only with the buffer full and more of the block to come, or when the input so far is incomplete; StreamEnd only at the end of a stream; an error only if no stream that begins with this input decompresses to anything; and of the two errors DataErrorMagic exactly if the first four bytes, or as many as there are, do not begin BZh and a digit from 1 to 9. |
| BzDecompress.Decompressor.PutOutIsPrefix | dep/bzip2/bzlib.c:817-840 | What has been put out so far is a prefix of what any stream that begins with the input decompresses to. |
| BzDecompress.Decompressor.MoreToCome | dep/bzip2/bzlib.c:830-843 | While a block is not out in full, the stream decompresses to more bytes than have been put out: a full buffer is no reason to say Ok once nothing is left. |
| BzDecompress.Decompressor.EndIsAll | dep/bzip2/bzlib.c:843-850 | At the end, just what the stream decompresses to has been put out, whatever bytes follow it. |
| BzDecompress.Decompressor.RunData | dep/bzip2/decompress.c:349-492 | A block's data, from wherever an earlier call stopped: waiting, corrupt for every continuation, or decoded with the rest of the stream still to parse. |
| BzDecompress.Decompressor.PutOut | dep/bzip2/bzlib.c:819-840 | A call's output joins what is out; a block counts only when it is out in full with the right checksum, and then the combined checksum, which CrcMeaning.CombinedIs describes, takes it in. |
| HeaderReader.Scanner.Run | dep/bzip2/decompress.c:195-347 | Bit by bit through headers and trailer, it stops for input at any place and goes on there; where it leads, the rest of the stream is still to parse; what it rejects no stream begins with. |
| HeaderRefinement.EveryStep | dep/bzip2/decompress.c:195-347 | At each of its places, the bits asked for lead to where parsing what is left leads: one step of the machine is one step of the parse. |
| HeaderSteps.AfterGood | dep/bzip2/decompress.c:195-329 | No bits lead the machine out of its places: counts, selectors, lengths and the table indices that follow from them stay in range. |
| DataStart.StartData | dep/bzip2/decompress.c:302-370 | Maps, selectors and decoding tables are those the header says, and the decoder stands in front of the data. |
| StreamReading.ReadsStep | dep/bzip2/decompress.c:195-347 | Whatever follows, parsing the whole stream comes to the blocks read so far and what parsing from the next place comes to. |
| StreamStart.StartStep | dep/bzip2/decompress.c:199-213 | Reading a byte of the mark, the machine goes on exactly as long as the input begins with BZh and a digit. |
| Lossless.StreamDecompressed | dep/bzip2/bzlib.c:808-858 | Decompressing a stream of the compressor's blocks checks every block CRC and the combined CRC, finds them right, and gives the bytes the blocks cover, whatever follows the stream. |
| KnownStream.SmallStream | dep/bzip2/decompress.c:195-347 | A stream written out number by number, with its marks, maps, tables, codes and checksums, decompresses to aaaaaaba: it settles the constants, the order of bits, and the meaning of run symbols, selectors and length steps, on which coder and decoder could otherwise agree in another way. |
| BzCompress.Compressor.BzCompress | dep/bzip2/bzlib.c:407-464 | Input taken and output handed over are conserved; the blocks, run by run, are a function of the bytes taken and the places of the flushes, and of whether the byte in front of a flush came with it, and of nothing else; StreamEnd means all input is in a complete stream; FlushOk and FinishOk mean that the output buffer is full; what was not taken stays ahead; and sequence and parameter errors come exactly in the cases that the caller can see beforehand. |
| BzCompress.Compressor.HandleCompress | dep/bzip2/bzlib.c:361-403 | The loop ends; it stops only when output waits and there is no room, when input is used up, or when flush or finish is complete; it reports progress exactly if input was taken or output handed over; and it ends a block early only for a flush or the finish, once all input announced with it has been taken. |
| BzCompress.Compressor.CopyInput | dep/bzip2/bzlib.c:289-329 | The bytes taken are a prefix of the input and join the pending block in order; it stops for a full block, no input, or the end of what a flush or finish announced; never more than four bytes past the block's limit. |
| BzCompress.Compressor.CopyOutput | dep/bzip2/bzlib.c:334-356 | Hands over the next bytes of the block in order until the buffer is full or the block is out; output bytes are neither lost nor repeated. |
| BzCompress.Compressor.CloseStream | dep/bzip2/compress.c:656-666 | With the trailer and the last bits all output together is one complete stream, padded with fewer than eight zero bits. |
| BzCompress.CompressInit | dep/bzip2/bzlib.c:148-211 | Refuses exactly the levels and work factors out of range; otherwise the new compressor has taken and handed over nothing. |
| BlockCutting.BlocksAreFull | dep/bzip2/bzlib.c:361-403 | Without flushes each block that has ended takes at least 100000 * level - 19 bytes, and at most four more. |
| BlockCutting.RunsAreLongest | dep/bzip2/bzlib.c:260-284 | The runs of all blocks, one after the other, stand for the input and are as long as they can be up to 255, also across the ends of blocks. |
| BlockCutting.LongestUnique | dep/bzip2/bzlib.c:260-284 | There is just one way to divide an input into such runs. |
| BlockCutting.OnlyIfFull | dep/bzip2/bzlib.c:384-397 | Whether the byte in front of a flush was given with it or before it makes a difference to the blocks exactly if that byte has filled the block and begins a new run. |
| BlockCutting.CallsDoNotMatter | dep/bzip2/bzlib.c:384-397 | The same input with flushes at the same places has the same blocks, however it is divided among the calls, unless a block was full at one of the flushes. |
| BlockCutting.CallsMatter | dep/bzip2/bzlib.c:384-397 | For an input of two bytes in turn, one byte more than fills a block, it does matter: given with the flush it is one block, given before it two. |
| BlockCutting.StartsAnew | dep/bzip2/bzlib.c:361-403 | Behind a flush, the blocks are those of the rest of the input on its own. |
| CompressedStream.CompleteStream | dep/bzip2/compress.c:602-667 | Header, the blocks written one by one in different calls, and trailer, read as one, are the stream format. |
| BlockCoder.Coder.WriteBlock | dep/bzip2/compress.c:602-653 | Sorted, coded and written: what is appended to the bit stream is a block of the format for just the collected bytes, with their CRC. |
| BlockSize.PieceLength | dep/bzip2/compress.c:616-619 | A coded block, whatever tables were chosen, takes well below three bytes for each byte of the largest block: the writer never leaves its buffer. |
| BlockSize.PieceBound | dep/bzip2/compress.c:602-653 | A coded block, whatever tables were chosen, takes at most 60900 bits and 21 for each of its own bytes. |
| BlockFormat.BlockRoundTrip | dep/bzip2/compress.c:637-653 | Parsing the bits written for a block, with whatever tables and selectors the encoder chose, gives the column, the pointer and the CRC back, and the inverse transform gives the block. |
| BlockFormat.CodedRoundTrip | dep/bzip2/decompress.c:286-375 | Selectors, tables and symbols written for a block are read back, and unpack to the column. |
| StreamFormat.StreamBack | dep/bzip2/decompress.c:197-235 | Parsing a stream finds all its blocks in order, and the combined CRC, whatever bits follow. |
| BlockParts.MappingRoundTrip | dep/bzip2/compress.c:494-511 | The two-level map of bytes in use is read back. |
| BlockParts.SelectorsRoundTrip | dep/bzip2/decompress.c:286-300 | Selector indices in unary are read back, however many there are. |
| BlockParts.SelectorsRestored | dep/bzip2/decompress.c:302-314 | Undoing the move-to-front coding of the selectors gives the selectors. |
| BlockParts.TablesRoundTrip | dep/bzip2/decompress.c:316-329 | Code lengths, coded as steps up and down, are read back. |
| BlockData.DataUnpacks | dep/bzip2/decompress.c:349-486 | Decoding the Huffman-coded symbols group by group, with the table selected for each group, amounts to unpacking the symbols. |
| BlockData.StreamUnpacks | dep/bzip2/decompress.c:375-486 | Runs in bijective base two and move-to-front indices unpack to the column they came from; no size check fails. |
| SendBlock.SendMTFValues | dep/bzip2/compress.c:461-597 | Mapping, selectors, tables and symbols are written exactly as the format has them. |
| SendBlock.RecomputeTable | dep/bzip2/compress.c:449-451 | A table recomputed from any frequencies with a small enough total gives every symbol a code of 1 to 17 bits, and no other lengths give a shorter text with these frequencies, halved if that had to be. |
| SendParts.SendTable | dep/bzip2/compress.c:531-539 | Writes one table of code lengths as the format has it. |
| SelectorCoding.EncodeSelectors | dep/bzip2/compress.c:461-478 | The indices written are the move-to-front indices of the selectors; the search never leaves the list. |
| SelectorCoding.DecodeSelectors | dep/bzip2/decompress.c:302-314 | The selectors are the symbols that the indices stand for. |
| BitWriter.Writer.W | dep/bzip2/compress.c:71-78 | Appends just the n low bits to all bits written so far; the 32-bit buffer never overflows. |
| BitWriter.Writer.FinishWrite | dep/bzip2/compress.c:45-54 | The bytes written are the bits written, filled up with fewer than eight zeros. |
| BitReader.Reader.GetBits | dep/bzip2/decompress.c:43-65 | Reads the next n bits of the input, wherever its portions were cut; when the input runs out nothing is lost. |
| RunCollector.Collector.AddPair | dep/bzip2/bzlib.c:216-247 | The pending run becomes the block's last; block, bytes in use and CRC stay in step with the runs. |
| RunCollector.Collector.AddChar | dep/bzip2/bzlib.c:260-284 | Both paths append one byte to what the block stands for, and write at most five bytes; the run in hand grows exactly if the byte is its own and it has fewer than 255, and otherwise joins the block. |
| RunCollector.Collector.FlushRL | dep/bzip2/bzlib.c:252-256 | After it the runs in the block are those before and the one in hand, if there is one, and stand for all bytes taken. |
| RunLength.EncodeLength | dep/bzip2/bzlib.c:216-247 | The bytes written for runs of at most 255 are longer than what they stand for by a quarter at most. |
| RunLength.ExpandEncoded | dep/bzip2/bzlib.c:759-801 | Expanding the bytes written for the runs gives the bytes the runs stand for, although the decoder reads one byte behind the block. |
| InverseBwt.WalkRestoresBlock | dep/bzip2/decompress.c:559-566 | For every block, periodic or not, and every sorted order of its rotations, the walk along the links from the stored pointer gives the block. |
| InverseBwt.OrdersAgree | dep/bzip2/blocksort.c:1059-1061 | All sorted orders of a block give the same last column, so which sorter ran does not show in it. |
| OrderPointer.OnePointerExactly | dep/bzip2/blocksort.c:1059-1061 | The stored pointer too is the same for all sorted orders exactly if no turn but the whole one maps the block to itself: for just these blocks the comment holds in full. |
| OrderPointer.TwoOrders | dep/bzip2/blocksort.c:1083-1086 | A block of twice the same byte has two sorted orders with different pointers. |
| InverseBwt.StepReads | dep/bzip2/bzlib_private.h:444-449 | One step from a position that holds rotation i reads byte i and comes to one that holds rotation i + 1. |
| Counting.SlotOrder | dep/bzip2/decompress.c:559-564 | Slots from running totals put the positions of a column in stable order: smaller symbols first, equal ones by position. |
| Counting.CountingOrderIsStable | dep/bzip2/decompress.c:500-503 | The order that counting gives is a permutation, and the stable order of the column. |
| BlockSort.BlockSort | dep/bzip2/blocksort.c:1031-1089 | Whichever sorter runs, and also if the budget runs out on the way, the rotations end up sorted, the block is as it was, and the place of rotation 0 is found. |
| FallbackSort.FallbackSort | dep/bzip2/blocksort.c:212-329 | Sorts the rotations of every block, and restores the block, whose bytes its ranks overwrite. |
| FallbackSort.FirstRound | dep/bzip2/blocksort.c:225-245 | The bucket sort on one byte leaves classes on one byte, marked in the header bits. |
| FallbackSort.ComputeRanks | dep/bzip2/blocksort.c:266-271 | The numbers it stores rank all rotations by the bytes H to 2H - 1 further on. |
| FallbackSort.FindClass | dep/bzip2/blocksort.c:277-292 | Finds the next class of more than one rotation; the bits set behind the block end both scans. |
| FallbackSort.RefineRound | dep/bzip2/blocksort.c:273-306 | After a round the header bits delimit exactly the classes of rotations equal on twice as many bytes; if none was left to refine, the rotations are sorted. |
| FallbackSort.Restore | dep/bzip2/blocksort.c:315-328 | Rebuilds the block from the sorted order and the byte counts; the search for the next byte never runs out. |
| BucketRefinement.RefineClass | dep/bzip2/blocksort.c:294-305 | Sorting one class by rank and marking where the rank changes extends the refined part over it. |
| BucketRefinement.DeepEnough | dep/bzip2/blocksort.c:311-312 | Sorted on a whole turn or more, the rotations are sorted. |
| BucketHeaders.NextClear | dep/bzip2/blocksort.c:278-283 | Looking at whole words where it can, it finds the first clear bit. |
| FallbackQSort.FallbackQSort3 | dep/bzip2/blocksort.c:93-180 | Sorts the range by rank and only rearranges it; the stack of 100 slots never holds more than 29, so check 1004 cannot fail. |
| FallbackQSort.FallbackSimpleSort | dep/bzip2/blocksort.c:32-59 | Sorts the range by rank and only rearranges it. |
| FallbackQSort.VSwap | dep/bzip2/blocksort.c:66-75 | Swaps two blocks of the range, and only rearranges it. |
| MainSort.MainSort | dep/bzip2/blocksort.c:751-1011 | Unless the budget runs out the rotations end up sorted; in any case the block is as it was. |
| MainSort.SortBig | dep/bzip2/blocksort.c:868-1006 | One big bucket: afterwards all marked small buckets are sorted, this big bucket with them, and the quadrants agree with the order. |
| MainSort.ScanBig | dep/bzip2/blocksort.c:911-944 | The two scans put every small bucket [t, ss] of a big bucket t not done in sorted order, and leave the rest alone. |
| MainSort.SortSmall | dep/bzip2/blocksort.c:887-906 | Step 1 for one small bucket: sorted unless it was, and marked. |
| BucketScan.ScansMeet | dep/bzip2/blocksort.c:937-944 | Where the scans end: side by side in [ss, ss], or, just for a block of one single byte value, at the far ends. Check 1007 cannot fail. |
| PointerScan.ScanBucket | dep/bzip2/blocksort.c:923-934 | A scan in either direction, which reads entries it has itself just written, visits all of the bucket and writes just the rotations in front of those visited. |
| InducedSort.InducedChain | dep/bzip2/blocksort.c:911-917 | The rotations one byte in front of a sorted list, taken by that byte, are sorted. |
| InducedSort.ScanStep | dep/bzip2/blocksort.c:923-928 | A step keeps it so that what has been scanned is sorted and the next entry is there before it is read. |
| MainCompare.MainGtU | dep/bzip2/blocksort.c:347-469 | Answers as the rotations compare, although it compares bytes first and cached ranks later, and stops after one turn; reads nothing behind the overshoot. |
| MainSimpleSort.MainSimpleSort | dep/bzip2/blocksort.c:485-555 | Puts rotations alike on d bytes in order unless the budget runs out, and only rearranges them. |
| MainPartition.SplitRange | dep/bzip2/blocksort.c:656-700 | Splits the range in three by byte d around the median, or finds them all alike. |
| MainQSort.MainQSort3 | dep/bzip2/blocksort.c:621-717 | Puts rotations alike on d bytes in order unless the budget runs out; the stack of 100 slots never holds more than 34, so check 1001 cannot fail. |
| MainRadix.RadixSort | dep/bzip2/blocksort.c:769-830 | Each rotation ends in the bucket of its first two bytes, ftab has the start of every bucket, and the overshoot repeats the block. |
| RunningOrder.SortBuckets | dep/bzip2/blocksort.c:837-860 | A permutation of the 256 buckets, the fuller ones later. |
| MainQuadrants.UpdateQuadrants | dep/bzip2/blocksort.c:989-1004 | The new ranks, scaled down to 16 bits, keep it so that different ranks of like bytes tell the order, in the overshoot too. |
| HuffmanLengths.MakeCodeLengths | dep/bzip2/huffman.c:63-148 | The loop ends; all lengths are from 1 to maxLen and Kraft's sum is exactly 1. No lengths with a code make a text with these frequencies shorter, a frequency of zero taken as one; if the weights had to be halved, that holds for the weights halved so often, and for none of the weights before were the best lengths short enough. With a total below the Fibonacci number of maxLen + 1 nothing is halved. |
| HuffmanOptimal.TreeIsBest | dep/bzip2/huffman.c:98-113 | The depths of the leaves of every tree made by joining the two lightest again and again give the shortest text: no lengths whose Kraft sum fits do better. |
| HuffmanOptimal.LowerBound | dep/bzip2/huffman.c:100-113 | At any stage, lengths for the trees there are cost at least what the nodes still to be made will weigh. |
| HuffmanOptimal.HeavierShorter | dep/bzip2/huffman.c:63-148 | With best lengths a heavier symbol never has a longer code. |
| HuffmanLengths.TryLengths | dep/bzip2/huffman.c:84-121 | A tree that is too deep shows that the total weight is at least a Fibonacci number; otherwise the lengths are complete. |
| HuffmanLengths.Rescale | dep/bzip2/huffman.c:142-146 | Halving the weights makes their total smaller while it is more than twice their number: so the loop ends. |
| HuffmanHeap.UpHeap | dep/bzip2/huffman.c:33-42 | Restores the heap's order and keeps its contents; the sentinel stops it. |
| HuffmanHeap.DownHeap | dep/bzip2/huffman.c:44-59 | Restores the heap's order and keeps its contents. |
| HuffmanHeap.RemoveLeast | dep/bzip2/huffman.c:101-102 | Takes out a node of least weight and no other. |
| HuffmanDepths.KraftOfTree | dep/bzip2/huffman.c:115-121 | The depths of the leaves of any tree so joined have Kraft sum 1. |
| HuffmanDepths.DeepIsHeavy | dep/bzip2/huffman.c:29-31 | A tree with a node at depth n weighs at least the n-th Fibonacci number. |
| HuffmanDepths.CodeIsPlace | dep/bzip2/huffman.c:152-166 | The code of a symbol, read as a fraction, is the sum of the parts of the code space that the symbols in front of it, by length and number, take up. |
| HuffmanCodes.AssignCodes | dep/bzip2/huffman.c:152-166 | Each symbol gets its canonical code: shorter codes first, equal lengths by symbol. |
| HuffmanCodes.CreateDecodeTables | dep/bzip2/huffman.c:170-200 | limit, base and perm are the tables of these code lengths; no write leaves an array. |
| HuffmanCodes.DecodesExactly | dep/bzip2/decompress.c:88-101 | The decoder returns symbol i and leaves rest exactly if the bits are the code of i followed by rest. |
| HuffmanTables.PrefixFree | dep/bzip2/huffman.c:152-166 | No code is the beginning of another's, for all lengths that leave room. |
| MtfEncode.GenerateMTFValues | dep/bzip2/compress.c:120-231 | The symbols, at most one more than the block has bytes, replace the pointers in the same memory without one being overwritten before it is read; the frequencies count them. |
| MtfEncode.MakeMapsE | dep/bzip2/compress.c:106-115 | Bytes in use are numbered by rank. |
| MoveToFront.SymbolsOfIndices | dep/bzip2/decompress.c:423-475 | Moving to the front by the indices recorded gives the symbols back. |
| MtfPool.Pool.Take | dep/bzip2/decompress.c:423-474 | On 16 segments in a pool, which now and then are packed anew, it does what moving to the front does on one list. |
| MtfPool.Pool.Repack | dep/bzip2/decompress.c:463-472 | Packing the segments at the top of the pool changes nothing of the list. |
| SymbolReader.Getter.GetMtfVal | dep/bzip2/decompress.c:74-102 | If the input runs out inside a symbol, the next call goes on there: symbol, error and rest are as if all bits had been there at once. |
| UnpackBlock.Unpacker.Feed | dep/bzip2/decompress.c:375-486 | One symbol: the arrays, run counters and list follow the specification of unpacking, and it fails when that does. |
| DataReader.Decoder.Run | dep/bzip2/decompress.c:349-486 | Reading a block's data in portions comes to what decoding all of it at once comes to: finished, corrupt, or waiting with nothing lost. |
| FastDecode.LinkTt | dep/bzip2/decompress.c:559-564 | Threads the links of the stable order through the words that hold the symbols. |
| FastDecode.GetFast | dep/bzip2/bzlib_private.h:444-449 | Symbol and link of the position; its check never fails on a block that decoded. |
| SmallDecode.TurnRound | dep/bzip2/decompress.c:536-545 | Pointer reversal ends, and turns round the links of the whole cycle of the pointer. |
| SmallDecode.IndexIntoF | dep/bzip2/bzlib.c:687-698 | Binary search finds the bucket the position lies in. |
| SmallDecode.GetSmall | dep/bzip2/bzlib_private.h:475-479 | From 20-bit links in two arrays, the same symbol and next position as in fast mode. |
| BlockStart.CheckedTable | dep/bzip2/decompress.c:494-516 | cftab has the running totals of the counts; none of the range checks on it can fail for a block that decoded. |
| BlockStart.StartFast | dep/bzip2/decompress.c:488-574 | Refuses exactly a pointer outside the block; otherwise what lies ahead is the walk along the stable order. |
| BlockStart.StartSmall | dep/bzip2/decompress.c:488-556 | The same for the small layout: it reaches the same walk. |
| BlockOutput.Output.Move | dep/bzip2/bzlib.c:560-590 | The next byte of the block, with its lowest bit turned over where the mask is on; the rest is still ahead. |
| BlockOutput.Output.UpdateMask | dep/bzip2/bzlib_private.h:143-149 | Counts down the current distance and takes the next from the table, going round it. |
| Randomisation.TurnedExactly | dep/bzip2/bzlib_private.h:133-149 | In a randomised block, of any length, just the bytes two short of a running total of the distances have their lowest bit turned over, the table being gone through again and again. |
| Randomisation.MaskedTwice | dep/bzip2/bzlib_private.h:137-149 | The pass that the decoder makes over a randomised block undoes itself. |
| BlockOutput.Output.UnRLE | dep/bzip2/bzlib.c:536-682 | What is handed out, and what is still to come, are together what was to come; it stops only for a full buffer, the end, or a run that lacks its count; the CRC follows the output. For a randomised block it goes byte by byte, with the mask. |
| BlockOutput.Output.UnRLESmall | dep/bzip2/bzlib.c:706-804 | The same for the small layout, except that with the buffer full it does not look for corruption. |
| BlockResult.RestoreFast | dep/bzip2/bzlib.c:817-840 | From the decoded column to all portions of output: what comes out is a prefix of the expanded walk, all of it when the block ends with the right CRC, and an error exactly for a bad block. |
| BlockResult.RestoreSmall | dep/bzip2/bzlib.c:817-840 | The same in small mode. |
| BlockResult.MadeComesOut | dep/bzip2/bzlib.c:808-858 | For a block the compressor made, the portions handed out in either mode are the bytes it was made from, with no error. |
| Crc.CrcAppend | dep/bzip2/bzlib_private.h:167-172 | The CRC of input that comes in parts is that of the whole. |
| CrcMeaning.CombinedIs | dep/bzip2/compress.c:607-608 | Bit j of the combined checksum of any number of blocks is set exactly if an odd number of the blocks' checksums have it set, each turned left once for each block behind its own. |
| CrcMeaning.ExchangeShows | dep/bzip2/bzlib.c:832-833 | Exchanging two blocks that follow each other changes the combined checksum exactly if their checksums, each added to itself turned, differ. |
| CrcMeaning.OneAndZero | dep/bzip2/compress.c:607-608 | The checksums 1 and 0 combine to 2. |
| CrcMeaning.BlockCrcIs | dep/bzip2/bzlib_private.h:155-172 | For all bytes, the checksum of a block is the CRC-32 of zlib of the bytes with their bits the other way round, with its bits the other way round: the two shift registers, which are written and proved apart, are one. |
| CrcCombine.Crc32Combine | dep/zlib/crc32.c:372-425 | From the checksums of two messages and the second's length, the checksum of both together, for every length. |
| CrcCombine.MatrixTimes | dep/zlib/crc32.c:344-358 | The sum of the rows that the bits of the vector pick. |
| CrcCombine.SquareDoubles | dep/zlib/crc32.c:361-369 | The square of the operator for n zero bits is the one for 2n. |
| ZlibCrc.CrcOfConcat | dep/zlib/crc32.c:400-401 | Zero bits fed to the first checksum, and the second added: that is the checksum of the concatenation. |
| CrcSlicing.MakeTables | dep/zlib/crc32.c:88-127 | Entry n of table k is byte n followed by k zero bytes, and that of table k + 4 the same with its bytes the other way round. |
| CrcSlicing.FourFed | dep/zlib/crc32.c:260-262 | Four bytes fed one by one equal one word fed at once. |
| CrcSlicing.Crc32Little | dep/zlib/crc32.c:266-297 | For every buffer at every alignment, the checksum that feeding the bytes one by one gives. |
| CrcBigEndian.Crc32Big | dep/zlib/crc32.c:307-338 | With the register and the tables turned round, on a machine that reads words from the high byte on, the same checksum for every buffer at every alignment. |
| CrcBigEndian.Crc32Z | dep/zlib/crc32.c:203-225 | On either kind of machine, going on from the checksum of what came before gives that of all. |
| KnownAnswers.ZlibLetter | dep/zlib/crc32.c:88-127 | zlib's checksum of the letter a is e8b7be43. |
| Adler.Adler32 | dep/zlib/adler32.c:63-131 | With one reduction for 5552 bytes, with or without division, the sums are those of reducing at each byte, and going on from a checksum gives that of the longer message; nothing overflows 32 bits. |
| Adler.Adler32Combine | dep/zlib/adler32.c:143-169 | The checksum of two messages together; four conditional subtractions reduce fully. |
| Adler.JoinedIs | dep/zlib/adler32.c:156-163 | The formula for the two sums, left as an exercise in the source, proved for all messages. |
| KnownAnswers.AdlerLetter | dep/zlib/adler32.c:63-131 | Its Adler sums are 98 and 98. |
| InflateCopy.CopyMatch | dep/zlib/inffast.c:169-264 | Through all paths of the window the output goes on with the bytes dist back in the whole history, also where the match overlaps itself; a distance beyond the history is refused and nothing written. |
| InflateCopy.MatchIs | dep/zlib/inffast.c:251-264 | That each byte equals the one dist before it determines the output. |
| InflateFast.DecodeItem | dep/zlib/inffast.c:103-168 | With six bytes of input left, one pass decodes what the tables say, which InflateWritten says without them, and uses just those bits; a bit buffer of at most 30 bits stays so. |
| InflateFast.InflateFast | dep/zlib/inffast.c:50-307 | The output and the bits used are those of so many passes over the whole bit string; no pass lacks input or room; at most three whole bytes not used are handed back; while the block goes on it stops only within six bytes of the end of the input as read, or with room for less than one match certain. |
| InflateWritten.PieceDecoded | dep/zlib/inffast.c:103-168 | For tables in which each code word leads to its entry, whatever its length and with links or without: the bits of a literal, of a length and a distance with their extra bits, of the end, or of an invalid code are decoded as just that, whatever follows. |
| InflateWritten.BlockPassed | dep/zlib/inffast.c:103-290 | Passes over the bits of a text and what ends it come to a part of the text, or, behind all of it, to the end: TYPE exactly for the end code. |
| InflateWritten.BlockComesOut | dep/zlib/inffast.c:50-307 | With the results of InflateFast: what it puts out of a text in code is a beginning of the text; it comes to the end given input and room enough; and there it has put out the whole text and used its bits, and sets TYPE for the end code and BAD for anything else that ends it. |
| InflateWritten.SomePiece | dep/zlib/inftrees.h:24-42 | If every number begins with a word of the tables, every input begins with a piece. |
| InflateWritten.BadExactly | dep/zlib/inffast.c:169-290 | A pass sets BAD exactly if the input goes on with an invalid code or a distance beyond the history. |
| InflateWritten.TwoLetters | dep/zlib/inffast.c:112-117 | With the smallest tables the bits 001 are two letters and the end. |
| MarshalRoundTrip.MarshalRoundTrip | Dev/Eluna-tc-retail/lmarshal.cpp:482-568 | Every graph of tables that can be encoded comes back as an isomorphic copy: entry by entry, shared tables shared, cycles closed, constants in place of constants; the copies are new tables, as many as were met, and those there before are as they were; bytes behind the code are left. |
| MarshalSize.EncodesExactly | Dev/Eluna-tc-retail/lmarshal.cpp:114-153 | Encoding succeeds exactly if no constant is a NaN, a string alone is short enough, and the tables that can be reached without going through a constant take less than 2 to the 32nd bytes together; the code then has each of them once, which gives its exact length. |
| MarshalSize.ValueLength | Dev/Eluna-tc-retail/lmarshal.cpp:114-153 | The code of a value, wherever it is met, is as long as its own part and the contents of the tables met for the first time. |
| MarshalReads.DecodesTheSame | Dev/Eluna-tc-retail/lmarshal.cpp:324-369 | In the order of the source, which looks at type bytes, booleans, numbers, strings and the contents of tables before it compares with the length, the same strings are decoded, with the same result, as with all checks first. |
| MarshalReads.OwnCodeInside | Dev/Eluna-tc-retail/lmarshal.cpp:336-369 | On what the encoder wrote, whatever follows it, the decoder never looks behind the string and its closing zero. |
| MarshalReads.CutNumber | Dev/Eluna-tc-retail/lmarshal.cpp:347-350 | On a number cut short it does. |
| Marshal.Buffer.Write | Dev/Eluna-tc-retail/lmarshal.cpp:80-99 | Appends the bytes, doubling the buffer until they fit; refuses just lengths from 2 to the 32nd. |
| Marshal.Encoder.EncodeTable | Dev/Eluna-tc-retail/lmarshal.cpp:313-322 | Encodes all entries in turn, with the numbers given to tables on the way, as specified. |
| Marshal.Decoder.DecodeTable | Dev/Eluna-tc-retail/lmarshal.cpp:470-480 | Fills the table as specified, or fails where the specification does. |
| Marshal.NumberConstants | Dev/Eluna-tc-retail/lmarshal.cpp:499-509 | Tables among the constants get their places as numbers, the last place if there are several; it fails exactly if a constant cannot be a key. |
| Marshal.MarEncode | Dev/Eluna-tc-retail/lmarshal.cpp:482-526 | Succeeds exactly if the specification does, with its code, whatever the constants. |
| Marshal.MarDecode | Dev/Eluna-tc-retail/lmarshal.cpp:528-560 | Succeeds exactly if the specification does, with its value, on any bytes and constants. |
| Marshal.MarClone | Dev/Eluna-tc-retail/lmarshal.cpp:562-568 | Whenever encoding succeeds, the result is a copy of the whole graph, in new tables, up to the constants, which original and copy share; no table there before is changed. |
| KnownAnswers.TableInCode | Dev/Eluna-tc-retail/lmarshal.cpp:482-526 | The code of the table with a for key and true for value, byte by byte. |
| KnownAnswers.CycleInCode | Dev/Eluna-tc-retail/lmarshal.cpp:132-153 | The code of a table that holds itself: inside, only its number. |
| KnownAnswers.ValuesInCode | Dev/Eluna-tc-retail/lmarshal.cpp:114-131 | The codes of the number one, of false and of nil. |
| EventProcessor.Processor.Update | Dev/Eluna-tc-retail/ElunaEventMgr.cpp:26-61 | Takes off exactly the events that are due, and calls, in order and each once, those that were to run and for whose turn the object is in the world, or that have none; for just these one run fewer is left. Whether the object is there is an input, asked once for each event due. The list is then exactly what the operations queued meanwhile make of the rest of it: the calls' own ones, and for each event that is to run again its return, due a delay from min to max later; what is neither due nor cleared keeps its time. Calls can add new events only. |
| EventProcessor.ComesBack | Dev/Eluna-tc-retail/ElunaEventMgr.cpp:37-49 | An event that was due and to run, and not for the last time, is on the list again afterwards, due a delay from min to max from now, unless a call had everything cleared. |
| EventProcessor.Processor.ProcessDeferredOps | Dev/Eluna-tc-retail/ElunaEventMgr.cpp:149-170 | The list is exactly what the queued operations make of it one after the other, and each has on each event just the effect specified for it; events added are due a delay from min to max from now; nothing stays queued. |
| TimedEvents.EntryStays | Dev/Eluna-tc-retail/ElunaEventMgr.cpp:63-126 | An entry keeps its due time through any operations that do not clear everything. |
| TimedEvents.AddedIsDue | Dev/Eluna-tc-retail/ElunaEventMgr.cpp:110-121 | An event added is on the list, due its delay later than now, unless everything is cleared behind it. |
| TimedEvents.EntryFrom | Dev/Eluna-tc-retail/ElunaEventMgr.cpp:63-121 | Whatever is on the list afterwards was there before at the same time, or was added, and is due its delay later. |
| EventProcessor.Processor.RegisterEvent | Dev/Eluna-tc-retail/ElunaEventMgr.cpp:110-126 | A new event enters list and map with a delay from min to max, or is queued during an update. |
| EventProcessor.Processor.SetState | Dev/Eluna-tc-retail/ElunaEventMgr.cpp:94-108 | Sets the state of just the listed event with this reference, unless it is erased; list and map stay in step. |
| EventProcessor.Processor.SetStates | Dev/Eluna-tc-retail/ElunaEventMgr.cpp:63-76 | Sets the states of all listed events that are not erased. |
| EventProcessor.Processor.ClearAllEvents | Dev/Eluna-tc-retail/ElunaEventMgr.cpp:78-92 | Outside an update nothing is left; inside, it is queued. |
| EventProcessor.CalledOnce | Dev/Eluna-tc-retail/ElunaEventMgr.cpp:31-57 | An update calls no event twice. |
| EventProcessor.CalledIs | Dev/Eluna-tc-retail/ElunaEventMgr.cpp:44-51 | An event that is due is called exactly if it was to run and its object, if it has one, was there at its turn. |
| EventProcessor.CancelsItself | Dev/Eluna-tc-retail/ElunaEventMgr.cpp:44-51 | A call that cancels its own event, with nothing setting it to run after that, is its last, however many runs were left. |
| TimedEvents.CancelledStays | Dev/Eluna-tc-retail/ElunaEventMgr.cpp:44-49 | An event cancelled by a queued operation, and not set to run by a later one, will not run, whatever else is queued. |
| TimedEvents.ErasedStays | Dev/Eluna-tc-retail/ElunaEventMgr.h:56-60 | An erased event that is not added again is never revived by any operations. |

## Left out

Weaker than the source, or with conditions of its own:

- Lossless.Decompressed: as a function on the whole stream it looks at CRCs only when all is parsed, so a truncated stream whose first block fails its CRC is Incomplete here, where BZ2_bzDecompress returns BZ_DATA_ERROR at that block, as Decompressor.Decompress does; no input that either of them rejects decompresses to anything.
- BlockFormat.ParseCoded: accepts up to 32767 selectors, as many as the field can say; the source stores them without a bound in an array of BZ_MAX_SELECTORS (18002) entries (decompress.c:299, bzlib_private.h:403), and what happens beyond that is not modelled.
- InverseBwt.OrdersAgree: the comment in blocksort.c:1059-1061 says the stream does not depend on the sorter; that holds for the column, while for a block that some turn maps to itself the stored pointer may be another of the equal rotations (OrderPointer says exactly when).
- BlockCutting.CallsDoNotMatter: that the stream depends on the bytes and the flushes alone does not hold of the code: a byte that fills the block and begins a new run, given together with a flush, still joins the block that the flush ends, while given in a call of its own before the flush it goes to a block of its own (bzlib.c:384-397). BlockCutting.OnlyIfFull says exactly when, and CallsMatter shows it.
- HuffmanLengths.MakeCodeLengths: asks for frequencies whose total is below 2 to the 23rd, so that a weight with its depth fits in an Int32, and 2 * alphaSize below the Fibonacci number of maxLen + 1, since otherwise the source's loop need not end; 258 symbols and maxLen 17 are well within.
- BlockCoder.Coder.Choose: the number of tables, the initial tables, the cost of each group and the four rounds of improvement only steer the size; any choice of tables and selectors is allowed, and the last step, RecomputeTable, is modelled.
- FallbackSort.FindClass: the two tests for a class that ends behind the block are left out of the scan; the sentinel bits make sure they could not fire.
- BzDecompress.Decompressor.Decompress: after an error nothing is said of further calls; bytes not yet read stay with the reader instead of going back to the caller as avail_in; the variables saved at each place are the arguments of that place; the arrays of tables are new for each block.
- OutputSize.EmittedBound: any tables may have been chosen, so the bound is far above the streams that the source's own choice leads to; what it is for is that there is an amount of room that is always enough.
- BzCompress.Compressor.BzCompress: actions other than run, flush and finish, and null pointers, cannot be expressed.
- CrcSlicing.Crc32Little: the words are made of the buffer's bytes, in the machine's order; an alignment is a number.
- Adler.Adler32: buf == Z_NULL, which returns 1.
- InflateFast.InflateFast: takes tables as inflate_table makes them, and a window as inflate keeps it, for granted (GoodTables, IsWindow), and InflateWritten that each code word stands in them (Stands); INFLATE_STRICT and distances beyond the window (sane == 0) are not modelled.
- MarshalRoundTrip.MarshalRoundTrip: values are nil, booleans, numbers, strings and tables; functions, userdata and tables with a __persist hook fail to encode. Numbers are eight opaque bytes, so two zeros are different keys here.
- MarshalRoundTrip.Marshal: constants that are not tables take their numbers and stand for nothing, as only tables, functions and userdata are looked up among them; the round trip is stated for decoder's constants that are different tables where the encoder's are, and for less than 2 to the 30th of them.
- Marshal.MarDecode: compares lengths first where the source looks at the type byte, a boolean, a number, the contents of a string or of a table first (lmarshal.cpp:340-369); MarshalReads models that order, proves that the results are the same, and shows an input on which the source looks outside. What it would find there is not modelled.
- EventProcessor.Processor.Update: whether the object is in the world at the i-th turn is a function given to it; a callback asks for operations of any kind and number, but does not call Update again; time and counters are unbounded numbers.

Not modelled at all, as it would add easy members or belongs to the platform:

- the stdio layer of bzip2 (bzopen, bzread and so on), verbosity, allocation failures, the 64-bit totals
- the literal CRC table of crctable.c; the CRC table is what eight shifts give
- zbits lies in the rest of arr2 in the source; here it is an array of its own
- inflate, inflate_table, deflate and trees of zlib
- EventMgr's registry of processors, and releasing references in the Lua registry
- the other libraries and the game server itself
