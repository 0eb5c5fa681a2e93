# DEFLATE, checksums, a coroutine protocol and the voxel algorithms, in Dafny

The viewer keeps its terrain in zlib streams and run-length coded chunks, draws a selection of octree
cells, and hands values between coroutines. This project models the parts of that code with the most
state and arithmetic and proves what they are there for.

**The encoder** (`zlib/trees.c`, `zlib/deflate.c`). `TreeBuilder` is build_tree with its heap in an array:
the code it makes is complete, and unless the length limit was hit it is optimal, and of all optimal codes it has
the least greatest length (`Shallow`); frequencies below a Fibonacci number rule the limit out beforehand
(`TreeDepth`). `BlockFlush` is a whole block from
its tokens to bits, with opt_len and static_len exact, and for blocks of up to 2582 tokens no other prefix
codes make the body smaller (`BlockBest`). `Deflater` has the sliding window, the hash chains
kept modulo the window size, lazy and greedy matching; whatever it has written so far stands for the
input it has read. It also keeps a record of why each token was sent (`Choices`): which strings were compared with
the one at its place and what came of it, from which `Reasons` shows when a match can be passed over.

**The format** (`Rfc1951`). What the tables, codes and orders that both halves share come to in numbers, section by
section of RFC 1951.

**The decoder** (`zlib/inftrees.c`, `zlib/inflate.c`, `zlib/inffast.c`). `InflateSpec` is a small
deterministic machine that has the whole input as bits and the whole output in sight. `InflateTable` is
inflate_table, an exact decoder for every accepted code; `TableRoom` proves by a counting argument that
852 and 592 table entries are always enough. `Inflater` is inflate() with its bit accumulator, tables,
circular window and fast path; each call follows the small machine, and the contract of `Call` says exactly
which streams, call sizes and window sizes it can follow.

**Both together** (`Transfer`). Any data, given to deflate in any pieces and with either way of matching,
comes out of inflate, called with any portions of input and output, if inflate's window is at least as
large as deflate's.

**Beside them**: the crc32 and adler32 checksums with their combine laws, the producer/consumer hand-off of
`async_generator` over all interleavings, the chunk run-length code, the voxel line walk, the choice of
octree cells, and the Graham scan.

What the code turns out not to do:

- adler32_z on a single byte (zlib/adler32.c:75-83) subtracts BASE only once from the second sum. From a
  starting checksum that is not reduced the result can differ from the definition. `Adler32.OneByteExact`
  gives the exact condition, `Adler32.OneByteMisses` an instance; from a checksum of some data it never
  happens (`Adler32.OneByteReduced`).
- inflate with a window of less than 32K rejects some valid streams depending on how the output is cut up:
  a match may reach further back than the window and this call's output. `Inflater.Inflate.Call` has the
  exact condition; `WindowLimit.SmallWindow` makes a finished stream for every such size, and
  `WindowLimit.GivesUp` gives it to a decoder in two calls, after which the decoder is in the state BAD.
- _tr_flush_block does not always send the smallest form (zlib/trees.c:944-985): it compares whole bytes and
  leaves the padding of a stored block out of account. `BlockFlush.Block.FlushBlock` has the exact condition
  and the bounds on the measured sizes of the forms, `BlockFlush.ChoiceMisses` an instance of each kind.
- adler32_combine_ (zlib/adler32.c:143-169) leaves its sums unreduced for some checksums that are not reduced
  themselves. `Adler32.Combine` has the exact condition, `Adler32.CombineMisses` instances; the checksums of
  data always meet it.
- The comment at zlib/trees.c:814-817 takes for granted that the loop below it stops at 3. It does, since
  some length is always sent as itself (`BlockFlush.SomeLength`).

## Model

| member | source | states |
|---|---|---|
| TreeBuilder.TreeState.PqDownHeap | zlib/trees.c:451-474 | sifting down restores the heap order below a node and keeps what the heap holds |
| TreeBuilder.TreeState.MergeAll | zlib/trees.c:660-688 | the merges join the two lightest roots every time, end in one tree, and leave the nodes sorted by weight at the end of the array |
| TreeBuilder.TreeState.RepairCounts | zlib/trees.c:531-542 | the overflow loop ends, no count goes below zero, the number of leaves stays, and the Kraft sum becomes exactly one |
| TreeBuilder.TreeState.GenBitlen | zlib/trees.c:486-562 | the lengths form a complete code within max_length, rarer symbols never get shorter codes, bl_count counts them, and if the tree fits they are optimal and of least greatest length |
| TreeBuilder.TreeState.BuildLengths | zlib/trees.c:615-693 | the whole of build_tree before the codes: which symbols are forced, that the tree is a complete tree of least merges, lengths that are optimal and of least greatest length if it fits, a bound on the frequencies that makes it fit, exact changes of opt_len and static_len, and no node heavier than the total |
| TreeBuilder.TreeState.BuildTree | zlib/trees.c:615-697 | the same in terms of the frequencies before the call, with every symbol's canonical code in place |
| HuffmanTrees.HuffmanOptimal | zlib/trees.c:660-686 | the unclipped depths of a tree of least merges cost no more than any lengths that satisfy the Kraft inequality |
| Shallow.TreeShallow | zlib/trees.c:437-443 | breaking ties by depth makes the greatest length as small as that of any code that costs no more |
| Shallow.FitsShallow | zlib/trees.c:671-676 | the depth fields, which wrap at 256, are the true heights in every tree that fits |
| PrefixCodes.KraftInequality | zlib/trees.c:476-485 | the lengths of every prefix code satisfy the Kraft inequality |
| BitlenSteps.OptimalAmongPrefixCodes | zlib/trees.c:476-485 | optimal lengths cost no more than those of any prefix code |
| HuffmanTrees.FreqFits | zlib/trees.c:672 | no node of the tree is heavier than all leaves together |
| TreeDepth.LightFits | zlib/trees.c:505-526 | a tree of least merges with total weight below Fibonacci(max + 3) has no leaf deeper than max |
| CodeGen.BiReverse | zlib/trees.c:1158-1168 | reverses the low bits of a code |
| CodeGen.GenCodes | zlib/trees.c:572-605 | sets each symbol's field to its canonical code, reversed, and leaves the others alone |
| CodeGen.LeafStatistics | zlib/trees.c:544-561 | the counts kept while the lengths were made are those of the lengths, and the code space is used up exactly |
| BitWriter.Writer.SendBits | zlib/trees.c:186-208 | appends exactly the given bits to everything sent so far, across the 16-bit buffer |
| BitWriter.Writer.BiFlush | zlib/trees.c:1173-1185 | sends what it can and changes nothing that was sent |
| BitWriter.Writer.BiWindup | zlib/trees.c:1190-1203 | pads with zero bits to the byte boundary |
| BlockWriter.CompressBlock | zlib/trees.c:1064-1109 | writes exactly the bits of the tokens and of END_BLOCK |
| BlockWriter.ScanTree | zlib/trees.c:703-742 | counts exactly the symbols that send_tree will send, and sets the guard |
| BlockWriter.SendTree | zlib/trees.c:748-793 | writes exactly the items of the run-length coded lengths |
| BlockWriter.SendAllTrees | zlib/trees.c:834-858 | writes exactly a block header for the three trees |
| Rfc1951.HeaderIs | zlib/trees.c:71-72 | where in the header the counts stand, and that the lengths of the code length codes go out in the order 16, 17, 18, 0, then outwards from 8 and 7; those not sent are zero |
| Rfc1951.OrderRead | zlib/inflate.c:938-958 | the decoder takes three bits each in that order, and zero for those that are missing |
| Rfc1951.PackedBits | zlib/trees.c:186-208 | bytes are filled from the lowest bit up |
| Rfc1951.CodePacked | zlib/trees.c:599-600 | a code goes out from its highest bit down |
| Rfc1951.Consecutive | zlib/trees.c:596-604 | codes of one length are consecutive numbers in the order of their symbols |
| Rfc1951.ShorterFirst | zlib/trees.c:585-588 | a longer code begins with a number above every shorter code |
| Rfc1951.FirstIsZero | zlib/trees.c:585-588 | the first code of the shortest length is zero |
| Rfc1951.TypeIs | zlib/zutil.h:72-74 | the three bits of each kind of block |
| Rfc1951.StoredIs | zlib/trees.c:863-881 | where padding, length, its complement and the bytes of a stored block stand |
| Rfc1951.LengthTables | zlib/trees.c:62-63 | extra bits and base of every length code in closed form, in the tables of writer and reader |
| Rfc1951.DistTables | zlib/inftrees.c:66-73 | the same for distances |
| Rfc1951.FixedCode | zlib/trees.c:288-299 | the fixed codes as section 3.2.6 lists them |
| Rfc1951.FixedDist | zlib/trees.c:301-305 | and those of the distances |
| CodeLengths.ItemsMean | zlib/trees.c:748-793 | the items, read in order, reproduce the lengths they were made from |
| BlockFlush.MaxBlIndex | zlib/trees.c:818-820 | finds the last code length code to send |
| BlockFlush.SomeLength | zlib/trees.c:814-820 | at least four code length codes are always sent |
| BlockFlush.BuildTrees | zlib/trees.c:928-942 | makes trees that have a code for every token, with opt and stat the exact sizes of the block in both forms; for at most 2582 tokens no other prefix codes make the body smaller |
| BlockBest.BodyLeast | zlib/trees.c:928-936 | two trees of least cost, one for literals and lengths and one for distances, give the smallest body that any two prefix codes can give |
| BlockBest.MakeBest | zlib/trees.c:641-652 | the symbols forced into a tree of fewer than two do not make its code longer than any other |
| BlockFlush.StoredBlock | zlib/trees.c:863-881 | writes the block type, padding, both lengths and the bytes |
| BlockFlush.Block.Tally | zlib/trees.c:1014-1059 | appends one token and keeps the frequencies those of the tokens |
| BlockFlush.Block.FlushBlock | zlib/trees.c:911-1008 | any input that begins with the bits written decodes to the old output followed by what the tokens stand for; the bits are exactly the block type, and the bytes, or the tokens with the fixed codes, or the header and the tokens with the codes left in the trees; opt_len and static_len are the sizes of header and body with the codes left in the trees, and of the body with the fixed codes; no other prefix codes give a smaller body if there are at most 2582 tokens; a dynamic block has exactly 3 + opt_len bits, a static one 3 + static_len, and a stored one 35 bits, the padding and its bytes; it is the smallest of the three forms exactly under a condition on their sizes, and except under Z_FIXED never more than 17 bits larger (7 for a static block, 0 for a dynamic one) |
| BlockFlush.ChoiceSize | zlib/trees.c:944-985 | the same about the choice alone, for all sizes and positions |
| BlockFlush.ChoiceMisses | zlib/trees.c:944-985 | a stored block 17 bits too large, a static one 7 bits too large, and under Z_FIXED one that is too large by any amount |
| StaticTrees.StaticCodes | zlib/trees.c:288-308 | the fixed trees hold the canonical codes of the fixed lengths |
| Tokens.LengthCodeRange | zlib/trees.c:258-270 | every match length has a code whose base and extra bits make it up again |
| Tokens.DistCodeRange | zlib/deflate.h:308-309 | the same for distances, through the two halves of the distance table |
| Canonical.MatchUnique | zlib/inftrees.c:149-186 | at most one symbol's code begins any bit string, unless the lengths are over-subscribed |
| Canonical.MatchExists | zlib/inftrees.c:130-138 | in a complete code some symbol's code begins every bit string |
| InflateTable.BuildTable | zlib/inftrees.c:32-304 | -1 exactly for over-subscribed lengths and for incomplete ones other than a single code of one bit; on 0 the two-level lookup finds, for every bit string, the symbol and length of the canonical code or the invalid-code entry; 1 never for the sizes that inflate uses |
| TableRoom.Enough | zlib/inftrees.h:38-52 | with at most 286 symbols and an index of 9 bits the tables never pass 852 entries, and with 30 and 6 never 592 |
| TableRoom.RootCodes | zlib/inftrees.h:38-52 | how many codes the root table must hold if there are longer ones |
| InflateSpec.StepOk | zlib/inflate.c:849-1196 | every step of the machine keeps its invariant, reads on and only adds to the output |
| InflateRuns.StepMono | zlib/inflate.c:849-1196 | a step taken with less input is the step taken with more |
| BlockSpec.ReadBody | zlib/inflate.c:1044-1196 | the bits of compress_block, decoded, put out what the tokens stand for and stop right after END_BLOCK |
| HeaderSpec.ReadHeader | zlib/inflate.c:920-1043 | the bits of send_all_trees, decoded, give both length vectors exactly |
| StreamSpec.ConveysStored | zlib/inflate.c:887-919 | a stored block after any readable beginning is read back |
| StreamSpec.ConveysFixed | zlib/inflate.c:857-875 | so is a block with the fixed codes |
| StreamSpec.ConveysDynamic | zlib/inflate.c:876-880 | so is a block with its own codes |
| StreamSpec.DeliversPadded | zlib/inflate.c:851-856 | after the last block the decoder stops at the end of the padded byte with the whole output |
| InflateWindow.UpdateWindow | zlib/inflate.c:396-444 | the circular window holds the last min(total, wsize) bytes of output |
| Inflater.Inflate.MatchState | zlib/inflate.c:1146-1190 | a copy from the window or from this call's output is the copy from the whole history, or the bytes have left the window |
| Inflater.Inflate.FastTurn | zlib/inffast.c:103-290 | one turn does what the small machine does, reads at most 6 bytes and writes at most 258 |
| Inflater.Inflate.InflateFast | zlib/inffast.c:50-307 | the fast path puts out what the small machine puts out, and gives back exactly the bytes it did not need |
| Inflater.Inflate.Call | zlib/inflate.c:622-1275 | the output so far is always that of the small machine on the input so far; unless the space is used up it can go no further; it fails to follow if and only if the space lets it come to a match that reaches back beyond the window and this call's output |
| Inflater.Inflate.WithinExact | zlib/inflate.c:1146-1190 | nothing fails on input whose distances are at most the window size |
| InflateReach.WithinServed | zlib/inflate.c:1146-1190 | such input is served whatever the calls |
| InflateReach.AllWithin | zlib/inflate.c:1146-1190 | every input is such for a window of 32K |
| InflateReach.OneWriter | zlib/inflate.c:1146-1196 | at each length of the output only one state of a run adds to it |
| WindowLimit.SmallWindow | zlib/inflate.c:1149-1156 | for every smaller window makes a finished stream that delivers its data, and that two calls do not serve although one does |
| WindowLimit.TwoCalls | zlib/inflate.c:1149-1156 | a stream in two calls of a new decoder: the output begins the data, and the decoder gets through exactly if the second call is served, otherwise it ends in BAD |
| WindowLimit.GivesUp | zlib/inflate.c:1149-1156 | every decoder with a window of less than 32K ends in BAD on that stream, short of the data |
| Hashing.ThirdByte | zlib/deflate.c:1335-1342 | equal hashes and equal first bytes make the third bytes equal |
| Lz77.InsertOk | zlib/deflate.c:184-187 | inserting a string keeps the hash chains sound and complete: heads are the latest strings, and no chain passes over a string with its hash |
| Lz77.SlideOk | zlib/deflate.c:201-225 | so does sliding the window |
| Lz77.CopyIsInput | zlib/deflate.c:1448-1467 | copying from where a match was found reproduces the input |
| LongestMatch.Compare | zlib/deflate.c:1330-1357 | the length of agreement with one candidate; the quick tests reject only those that are no longer than the best |
| LongestMatch.FindLongest | zlib/deflate.c:1236-1377 | a result above prev_length is a match of that length within MAX_DIST, the nearest on the chain; unless it is long enough to be nice, none of the strings on the part of the chain that may be searched makes a longer one, and if that is all of the chain, no inserted string in reach does |
| LongestMatch.ChainHolds | zlib/deflate.c:1372-1373 | a chain that is not cut short holds every inserted string in reach with the same hash |
| LongestMatch.WindowSearched | zlib/deflate.c:1223-1231 | so that searching it is searching the window |
| ChainSearch.LatestChain | zlib/deflate.c:1372-1373 | the strings looked at are the latest in the dictionary with the hash of the string searched for, as many as may be, the first within MAX_DIST and the others nearer than that |
| ChainSearch.LookMade | zlib/deflate.c:1236-1377 | the search in terms of the input alone |
| Deflater.Deflate.Refill | zlib/deflate.c:1482-1561 | reading and sliding keep window, chains and pending match, and bring enough lookahead or all of the input |
| Deflater.Deflate.FlushOnly | zlib/deflate.c:1605-1614 | the tokens so far become a block that stands for the input since the last one |
| Deflater.Deflate.DeflateSlow | zlib/deflate.c:1926-2049 | the bits written stand for the input read, at the end for all of it; matches have 3 to 258 bytes and distances up to MAX_DIST; with Z_FINISH each call makes headway; the token buffers never run over; and every token sent is on record with its reason |
| Deflater.Deflate.DeflateFast | zlib/deflate.c:1824-1918 | the same without lazy matching |
| Reasons.LogExpands | zlib/deflate.c:1448-1467 | the tokens on record stand for the input |
| Reasons.LiteralReason | zlib/deflate.c:1961-2025 | deflate_slow sends a literal only if no string looked at agrees in three bytes, or the match found is discarded as filtered or too far, or the next position has a longer one that is not |
| Reasons.MatchReason | zlib/deflate.c:1961-2009 | it sends a match only if none looked at is longer, unless it is nice, none nearer is as long, and the next position has none longer that is kept, unless the match is max_lazy long |
| Reasons.FastReason | zlib/deflate.c:1856-1907 | deflate_fast sends a literal only if no string looked at agrees in three bytes, and otherwise the nearest of the longest matches |
| Reasons.SearchedAll | zlib/deflate.c:1223-1231 | a search that was not cut short says the same of every string in the dictionary and in reach |
| Reasons.NoMatchMissed | zlib/deflate.c:1926-2049 | in terms of the input alone: where such a search ends in a literal, no earlier string in reach agrees in three bytes, except one that was passed when fewer than three bytes of it had been read |
| Transfer.SplitIndependence | zlib/inflate.c:655-1275 | two decoders that got the same input in different pieces, with different spaces and windows, and have used up what they can, have put out the same |
| Transfer.SameCourse | zlib/inflate.c:655-1275 | at any time the output of one decoder begins that of another that has had more of the input |
| Transfer.RoundTrip | zlib/inflate.c:655-1275 | a finished stream decodes to its data, whatever follows it |
| Transfer.Compress | zlib/deflate.c:999-1003 | any pieces of data, and then Z_FINISH until it is done, give a stream that delivers the data, and tokens that stand for it, each with its reason |
| Transfer.Decompress | zlib/inflate.c:655-1275 | any portions of a stream, and then calls until one does not fill its space, give its data |
| Transfer.Transmit | zlib/deflate.c:1824-2049 | what goes into deflate comes out of inflate, for any cuts on both sides, if the window is large enough |
| Crc32.MakeTable | zlib/crc32.c:108-114 | each entry is eight steps of the bitwise register |
| Crc32.MakeNext | zlib/crc32.c:119-127 | the sliced tables are 16, 24 and 32 steps |
| Crc32.RegisterIsSerial | zlib/crc32.c:82-100 | feeding bytes is feeding their bits one by one |
| Crc32.LittleWord | zlib/crc32.c:260-263 | four table lookups are 32 bit steps |
| Crc32.BigWord | zlib/crc32.c:300-303 | the same with all bytes swapped |
| Crc32.CrcBytes | zlib/crc32.c:221-233 | a byte at a time computes the checksum |
| Crc32.CrcLittle | zlib/crc32.c:266-297 | so does a word at a time, wherever the words begin |
| Crc32.CrcBig | zlib/crc32.c:306-337 | so does the big-endian form |
| Crc32.Crc32Z | zlib/crc32.c:202-234 | the same checksum on every machine, with the tables it makes itself |
| Crc32.Residue | zlib/crc32.c:82-100 | data followed by its own checksum always has the checksum 0x2144DF1C |
| Crc32.MatrixTimes | zlib/crc32.c:344-358 | applies n steps to a register |
| Crc32.MatrixSquare | zlib/crc32.c:361-369 | doubles the number of steps |
| Crc32.Combine | zlib/crc32.c:372-425 | of the checksums of two pieces makes that of both together; crc1 for lengths that are not positive |
| Crc32.CombineLaw | zlib/crc32.c:372-425 | the formula behind it, for all byte strings |
| Adler32.NoOverflow | zlib/adler32.c:12-14 | no sum over at most NMAX bytes passes 32 bits, from any start |
| Adler32.ReduceLate | zlib/adler32.c:96-127 | reducing at the end of a block is reducing after every byte |
| Adler32.AdlerSums | zlib/adler32.c:63-131 | the checksum in closed form: one plus the bytes, and the bytes weighted from the end, modulo 65521 |
| Adler32.Adler32Z | zlib/adler32.c:63-131 | with NO_DIVIDE or without, the checksum for every length and start, except that for one byte it holds exactly under a condition on the start |
| Adler32.OneByteExact | zlib/adler32.c:75-83 | that condition |
| Adler32.OneByteMisses | zlib/adler32.c:75-83 | a start where it fails |
| Adler32.OneByteReduced | zlib/adler32.c:75-83 | it never fails from a checksum |
| Adler32.Chop28Is | zlib/adler32.c:34-38 | without division MOD28 is the remainder by 65521 exactly if one subtraction is enough, which it is below 2^28 |
| Adler32.Chop32Is | zlib/adler32.c:39-43 | MOD is the remainder for every 32-bit number |
| Adler32.Chop63Is | zlib/adler32.c:44-55 | MOD63 is the remainder for every number that z_off64_t holds |
| Adler32.Combine | zlib/adler32.c:143-169 | with NO_DIVIDE or without, of the checksums of two pieces makes that of both together; for any other arguments the sums are reduced exactly under a condition on them; 0xffffffff for negative lengths |
| Adler32.CombineLaw | zlib/adler32.c:143-169 | the checksums of data always meet the condition, and the formula gives the checksum of the whole |
| Adler32.CombineMisses | zlib/adler32.c:143-169 | arguments that do not meet it |
| AsyncGenerator.InvRun | core/cppcoro/async_generator.hpp:555-562 | who can be where under each value of m_state, in every reachable state |
| AsyncGenerator.Safe | core/cppcoro/async_generator.hpp:597-699 | over all interleavings no assertion fails, nothing is resumed or destroyed that is not suspended, the frame is destroyed at most once, and values arrive in order, each once |
| AsyncGenerator.NoLostWakeup | core/cppcoro/async_generator.hpp:712-789 | the two are never both suspended with nobody due to resume them |
| AsyncGenerator.Settles | core/cppcoro/async_generator.hpp:597-789 | at most 36 steps of the protocol pass between two steps of the coroutines' own code |
| AsyncGenerator.Resumed | core/cppcoro/async_generator.hpp:605-699 | a sleeping consumer with something to take is resumed within 13 steps |
| AsyncGenerator.ValueStays | core/cppcoro/async_generator.hpp:885-897 | the producer does not run while the consumer holds its value |
| AsyncGenerator.NoLeak | core/cppcoro/async_generator.hpp:1000-1009 | after the generator is dropped and all is at rest, the frame has been destroyed once |
| RunLength.RleEncode | core/OctTile.cpp:79-121 | the runs stand for the data, none is empty, counts have no more bytes than they need, and a run ends only where the value changes or at 0x7FFF |
| RunLength.CanonicalUnique | core/OctTile.cpp:79-121 | only one code does all that |
| RunLength.RleDecode | core/OctTile.cpp:123-150 | fills the buffer with what the runs stand for, and zeros |
| RunLength.RoundTrip | core/OctTile.cpp:79-150 | a chunk comes back as it was |
| VoxelLine.MovedNearest | core/OctTile.cpp:490-508 | a minor axis is never more than half a cell from the ideal line |
| VoxelLine.CellsInBox | core/OctTile.cpp:490-508 | the line runs from the first point to the second inside the box that they span |
| VoxelLine.CellsConnected | core/OctTile.cpp:490-508 | it has no gaps |
| VoxelLine.Walk | core/OctTile.cpp:490-550 | the loop visits exactly the cells of the line and stops at the first that is occupied |
| VoxelLine.ClampNearest | core/OctTile.cpp:458 | a point outside is brought to the nearest cell of the tile |
| VoxelLine.FindHit | core/OctTile.cpp:460-553 | the first occupied cell on the line between the points, brought into the tile, or (-1, -1, -1) exactly if there is none; the line is driven by the axis along which they are farthest apart |
| TileSelection.UpShifts | core/Loc.h:126-135 | d parents up is one shift by d bits |
| TileSelection.ChildrenAre | core/Loc.h:102-115 | the children of a cell are the cells with that parent |
| TileSelection.GetLocsInView | core/OctTileSelection.cpp:182-235 | appends, each once, exactly the cells in view at which the descent comes to the wanted level or to the finest, and those that fill gaps between them; returns true exactly if there is one of the first kind |
| TileSelection.SelectedExactly | core/OctTileSelection.cpp:182-235 | which cells those are, in terms of wanted levels and visibility along the way down |
| TileSelection.NothingSelected | core/OctTileSelection.cpp:193-202 | nothing is appended exactly if the descent comes to no cell that is wanted |
| TileSelection.SelectedApart | core/OctTileSelection.cpp:182-235 | no two appended cells overlap |
| TileSelection.SelectedCovers | core/OctTileSelection.cpp:182-235 | if anything is appended, every cell of the finest level whose chain below the start is in view is covered |
| TileSelection.CoveredOnce | core/OctTileSelection.cpp:182-235 | and only once |
| TileSelection.SelectedLevel | core/OctTileSelection.cpp:190-231 | an appended cell is the first on its way down that is fine enough, or fills a gap, and it is in view |
| ConvexHull.BeforeTrans | core/ConvexHull.cpp:62-73 | compare() is transitive on points not below the pivot, duplicates included |
| ConvexHull.Dedupe | core/ConvexHull.cpp:101-118 | keeps one point for each direction, with all others on the way to it |
| ConvexHull.PushConvex | core/ConvexHull.cpp:132-140 | a left turn at the top of the stack makes all triples turn left |
| ConvexHull.Merge | core/ConvexHull.cpp:132-140 | the triangles on both sides of a popped point lie in one |
| ConvexHull.Scan | core/ConvexHull.cpp:124-140 | the stack is strictly convex and its fan of triangles holds all points |
| ConvexHull.Hull | core/ConvexHull.cpp:76-149 | a strictly convex polygon of input points with every input point inside or on it; none exactly if all points are on one line |

## Left out

- Inflater.Inflate.Call: the return codes, total counts and messages, Z_BLOCK and Z_TREES, and the zlib and gzip headers and trailers are not modelled; the model starts at the state TYPE.
- Deflater.Deflate.DeflateSlow: deflate() around it, with its headers, the empty blocks of Z_SYNC_FLUSH and Z_FULL_FLUSH, and the limit of avail_out, is not modelled; wherever avail_out could end a call, the model may end it or not.
- LongestMatch.FindLongest: the form that compares two bytes at a time (UNALIGNED_OK) and the one for FASTEST are left out.
- ConvexHull.Hull: coordinates are integers; the float coordinates of the source are cut to int in places, which the model does not capture. The library's qsort is stood for by an insertion sort, of which only sortedness is used, and the array that is swapped and compacted in place is a sequence.
- VoxelLine.FindHit: the three loops for the three axes are one loop on turned coordinates.
- TileSelection.GetLocsInView: the level wanted for a cell and whether it can be seen are arbitrary functions; camera and frustum arithmetic is left out.
- Update in place: the heap, the decoding tables and the scratch space of inflate_table are arrays; the other tables of deflate_state and inflate_state (tree fields, depth, bl_count, window, head, prev, count, offs) are sequence-valued fields, so that aliasing between them is not captured.
- The scalar fields of inflate_state are one record field. The two decoding tables of a block have an array each, where the source puts one behind the other; each is proved to stay within its share.
- pending_buf and the token buffers are separate, so the assertion at zlib/trees.c:1102-1104 about their overlay is not claimed; flush_pending is left out.
- Freq fields are unbounded; BuildLengths bounds every node by the total, so that a total below 65536 is never cut.
- Unrolled loops (DO16, DO8, DOLIT32, the copies by three in inffast.c) are modelled a step at a time.
- deflate_stored, deflate_rle, deflate_huff, deflateParams, deflateTune, dictionaries, inflateSync, inflateBack and the gz file functions are left out: more configurations of the same parts.
- The static trees are computed as tr_static_init does rather than read from trees.h, and the data type detection has no effect on the output and is left out.
- Zeroing the window beyond the input (high_water) is left out: matches are cut at the lookahead, so its contents do not matter.
- Exceptions in async_generator, its symmetric-transfer variant, and calling for another value after the end are left out.
- Loc's tile index functions, OctTile's mesh building, the loader thread, storage and rendering are left out.
