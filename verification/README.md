# Verified models of the encoders, converters and checks of this repository

The project models code in six places of the repository and proves what each is for. Specifications that the
repository does not contain (an inflater, a PNG decoder, a JPEG entropy decoder, TGA and HDR readers, a serialiser
for GGML files, edit scripts, the matrix product a LoRA pair stands for) are written here from the published formats,
and every encoder is proved against the decoder rather than against itself.

Code that updates state is modelled with the state it updates: the bit buffers, hash chains, line buffers and the
64-byte write buffer are classes and arrays, loops carry invariants, and each method is tied to a specification
function about which the main results are proved. The LoRA operations and re-layouts build new values in the source
and are functions here.

## Modules

- `Bits`: bytes, bit strings in both orders, machine operators on non-negative integers.
- `FixedCode`, `BitWriter`, `Inflate`, `MatchFinder`, `Adler32`, `ZlibCompress`, `ZlibEncoder`: `stbi_zlib_compress`,
  layered as bytes, LZ77 tokens, symbols and extra bits, bits, bytes, trailer. Sections cited are those of RFC 1950
  and RFC 1951.
- `Crc32`, `PngFilter`, `PngWrite`: `stbi_write_png_to_mem` down to its chunks (RFC 2083).
- `JpegTables`, `JpegEntropy`, `JpegHeader`, `JpegWriter`: the entropy-coded part of the JPEG writer, with the segments a
  decoder needs for it (ITU-T T.81).
- `TgaWriter`, `HdrScanline`: the two run-length coders and the write buffer.
- `ComponentRegistry`: the cycle check and the topological sort of `validate-components.py`.
- `Similarity`: the two-row edit distance of `common.cpp`.
- `Tensors`, `LoraTensor`, `LoraIndexing`, `LoraGetItem`, `LoraEllipsis`, `LoraCat`, `LoraReturns`:
  `LoraTorchTensor` over dense row-major tensors of real numbers.
- `HeadLayout`, `QkvLayout`: `LlamaModel.permute` and the Falcon and GPT-NeoX re-layouts.
- `ExpertMerging`, `BpeMerge`: the expert buffers and the byte-pair merge loop.
- `GgmlFormat`, `GgmlRoundTrip`, `GgmlLoader`: the GGML/GGMF/GGJT loader.

## Where the code does not do what one might expect

Each of these is proved, with the exact condition under which the expected property holds and, mostly, an input on
which it does not.

- `stbi_zlib_compress` on empty input emits no block, and the result is not a zlib stream (`ZlibCompress.RoundTripIff`).
- `similarity` of two empty strings divides zero by zero (`Similarity.ScoreLaws`).
- A PNG without rows or columns does not decode (`PngWrite.PngRoundTrip`), and without columns the
  loop over the first pixel does not fit the line buffer (`PngWrite.ImageEncodableExactly`); a TGA side of 65536 or
  more does not fit its header (`TgaWriter.TgaRoundTrip`).
- An ellipsis before the end of a LoRA index tuple is expanded by the number of the other entries, not by the number
  of missing dimensions (`LoraEllipsis.EllipsisExactly`, `LoraEllipsis.EllipsisFails`).
- A leading slice in such a tuple is dropped for A, which is wrong unless A broadcasts the dimension or the slice
  keeps all of it (`LoraGetItem.GetItemsCommutes`, `LoraGetItem.GetItemsFails`); integers in
  the last two places never give the indexed product.
- A single slice or `cat` above two dimensions needs A and B to share the first size, up to the cases listed in
  `LoraGetItem.GetOneCommutes` and `LoraCat.CatExactly`; inputs that fail are in `LoraGetItem.GetOneFails`,
  `LoraCat.CatFails` and `LoraCat.CatMisplaces`.
- At rank 0 a LoRA pair can be reshaped, and laid out by heads, where its product cannot
  (`LoraTensor.ReshapeCommutes`, `LoraTensor.ReshapeGrows`, `HeadLayout.PermuteHeadsPairCommutes`).
- The GGML loader computes byte counts in wrapping 64-bit arithmetic, so a tensor can be described that the loop never
  gets past (`GgmlRoundTrip.StepAdvances`, `GgmlRoundTrip.RunsForeverIff`, `GgmlRoundTrip.StuckForever`).

## Model

| member | source | states |
|---|---|---|
| FixedCode.CanonicalCodeRanges | ggml/examples/stb_image_write.h:883-889 | the four constant ranges of the Huffman macros are the canonical code that section 3.2.2 of RFC 1951 builds from the fixed code lengths of section 3.2.6 |
| FixedCode.DecodeSymbolOfBits | ggml/examples/stb_image_write.h:883-889 | no code word is a prefix of another: whatever follows, the leading symbol of all 288 is recovered |
| FixedCode.DecodeSymbolReadsCodeWord | ggml/examples/stb_image_write.h:883-889 | the converse: whatever the decoder accepts is the code word of the symbol it returns |
| BitWriter.BitRev | ggml/examples/stb_image_write.h:849-857 | the reversed code, sent least significant bit first, is the code most significant bit first |
| BitWriter.Writer.Flush | ggml/examples/stb_image_write.h:839-847 | leaves fewer than 8 pending bits and loses none: bytes written and pending bits together are unchanged |
| BitWriter.Writer.Add | ggml/examples/stb_image_write.h:880-881 | appends exactly the bits of the code, in a 32-bit buffer that never overflows |
| BitWriter.Writer.Huff | ggml/examples/stb_image_write.h:884-888 | appends the code word of the symbol, for all 288 symbols |
| BitWriter.Writer.HuffB | ggml/examples/stb_image_write.h:889 | appends the code word of a literal byte |
| BitWriter.Writer.Pad | ggml/examples/stb_image_write.h:976-978 | adds zero bits up to the next byte boundary and leaves nothing pending |
| Inflate.ExtraBitsFit | ggml/examples/stb_image_write.h:960-965 | for every valid length and distance, what is left over after the base of its symbol fits the extra bits of that symbol |
| Inflate.DecodeItemOfToken | ggml/examples/stb_image_write.h:957-970 | a literal or a length/distance pair with its extra bits decodes to itself, whatever follows |
| Inflate.InflateFixedOfTokens | ggml/examples/stb_image_write.h:915-975 | a fixed-Huffman block of any tokens inflates to their byte-by-byte expansion |
| ZlibEncoder.LengthTables | ggml/examples/stb_image_write.h:901-902 | lengthc and lengtheb are the bases and extra-bit counts of section 3.2.5 of RFC 1951 |
| ZlibEncoder.DistanceTables | ggml/examples/stb_image_write.h:903-904 | so are distc and disteb for distances |
| ZlibEncoder.LengthIndex | ggml/examples/stb_image_write.h:960 | the table search stops at the one length symbol whose range holds the match length |
| ZlibEncoder.DistanceIndex | ggml/examples/stb_image_write.h:963 | the same for distances up to 32767 |
| ZlibEncoder.EmitMatch | ggml/examples/stb_image_write.h:957-966 | writes the bits of the length/distance token and nothing else |
| MatchFinder.MatchFromIsMaximal | ggml/examples/stb_image_write.h:859-865 | the bytes agree over the counted length, and disagree right after it unless 258 or the end of the data was reached |
| ZlibEncoder.CountMatch | ggml/examples/stb_image_write.h:859-865 | the counting loop finds that length |
| MatchFinder.SearchIsLongest | ggml/examples/stb_image_write.h:924-933 | the search result is the longest match among the chain entries in the window, the nearest one of that length, and none only if no entry agrees on three bytes |
| ZlibEncoder.FindMatch | ggml/examples/stb_image_write.h:924-933 | the loop computes that search |
| ZlibEncoder.LookAhead | ggml/examples/stb_image_write.h:941-955 | says whether some entry in the window matches more bytes one position further on |
| MatchFinder.RecordKeepsTable | ggml/examples/stb_image_write.h:934-939 | after eviction and insertion every chain still holds increasing earlier positions of its own bucket, at most 2 * quality of them |
| MatchFinder.NewestStay | ggml/examples/stb_image_write.h:934-939 | a chain that is not full keeps every position, a full one its newer half |
| MatchFinder.ChooseExpands | ggml/examples/stb_image_write.h:922-970 | in every reachable state the token emitted at position i has 3 <= length <= 258 and 1 <= distance <= min(i, 32767), stays inside the data, and expands the processed prefix correctly |
| MatchFinder.ChooseIsLazy | ggml/examples/stb_image_write.h:918-972 | a match is taken exactly if the chain can start one and the next position has no longer one; it is the longest, and the nearest of that length |
| MatchFinder.CopyBackRebuilds | ggml/examples/stb_image_write.h:859-865 | copying byte by byte rebuilds the data even when the copy overlaps what it produces |
| MatchFinder.TokensExpand | ggml/examples/stb_image_write.h:918-974 | expanding all tokens rebuilds the data despite evictions and lazy matching |
| ZlibEncoder.EmitTokens | ggml/examples/stb_image_write.h:918-974 | the main loop, with its array of hash chains, writes exactly the bits of those tokens |
| ZlibEncoder.WriteFixed | ggml/examples/stb_image_write.h:913-978 | header, block bits and padding: the bytes are the header and the packed fixed block |
| ZlibEncoder.WriteStored | ggml/examples/stb_image_write.h:984-999 | the fallback loop writes the stored blocks, LEN and complemented LEN cut to bytes |
| ZlibCompress.StoredBlocksInflate | ggml/examples/stb_image_write.h:984-999 | stored blocks of at most 32767 bytes inflate to the data, in front of any tail |
| ZlibCompress.RoundTrip | ggml/examples/stb_image_write.h:895-1022 | every non-empty input at every quality decompresses to itself (RFC 1950 and RFC 1951), on both paths, checksum included |
| ZlibCompress.EmptyInputFails | ggml/examples/stb_image_write.h:984-999 | the empty input is replaced by no block at all: six bytes that do not decompress |
| ZlibCompress.RoundTripIff | ggml/examples/stb_image_write.h:895-1022 | the round trip holds for exactly the non-empty inputs |
| ZlibCompress.CompressedLength | ggml/examples/stb_image_write.h:984-999 | the fallback bounds the output for every input |
| ZlibCompress.ShorterForm | ggml/examples/stb_image_write.h:984-999 | the output is as long as the shorter of the fixed block and the stored blocks, and is the fixed block unless that is longer |
| ZlibEncoder.Compress | ggml/examples/stb_image_write.h:895-1022 | the whole function returns the specified stream, which decompresses to the input exactly when it is not empty |
| Adler32.BoundedStep | ggml/examples/stb_image_write.h:1006-1011 | within a block of 5552 bytes neither sum leaves 32 bits |
| Adler32.DeferredStep | ggml/examples/stb_image_write.h:1006-1008 | one byte on unreduced sums is one byte on the reduced sums of section 8.2 of RFC 1950 |
| Adler32.Checksum | ggml/examples/stb_image_write.h:1001-1016 | reducing once per block, the first one possibly empty, gives the sums reduced after every byte |
| Adler32.AdlerIsReduced | ggml/examples/stb_image_write.h:1001-1016 | the sums are those of RFC 1950, unreduced from 1 and 0, modulo 65521 |
| Adler32.SecondSum | ggml/examples/stb_image_write.h:1001-1016 | each byte adds one more than the sum of all bytes so far to the second sum |
| Adler32.TrailerBytes | ggml/examples/stb_image_write.h:1012-1015 | the four bytes pushed are s2 * 65536 + s1, most significant byte first |
| Crc32.ShiftBitsLinear | ggml/examples/stb_image_write.h:1065-1069 | the eight-step update is linear over exclusive or |
| Crc32.TableIsShift | ggml/examples/stb_image_write.h:1028-1063 | all 256 table entries are what eight single-bit steps with polynomial 0xEDB88320 compute |
| Crc32.TableStep | ggml/examples/stb_image_write.h:1067-1068 | one table step is eight single-bit steps |
| Crc32.Compute | ggml/examples/stb_image_write.h:1024-1071 | the table-driven loop computes the bit-at-a-time CRC of every byte string |
| Crc32.CrcOfNothing | ggml/examples/stb_image_write.h:1026 | the register starts so that no bytes have the check value 0 |
| Crc32.Residue | ggml/examples/stb_image_write.h:1024-1071 | any bytes followed by their check value, low byte first, have the check value 0x2144DF1C, the residue of CRC-32 with this polynomial, start and complement |
| PngFilter.PaethNearest | ggml/examples/stb_image_write.h:1083-1089 | the predictor is the neighbour nearest to left + above - upper left, and of equally near ones left comes before above and above before upper left; no other byte is (section 6.6 of RFC 2083) |
| PngFilter.Predictions | ggml/examples/stb_image_write.h:1107-1126 | the five predictions: nothing, left, above, their average rounded down, the nearest of three |
| PngFilter.FirstRowType | ggml/examples/stb_image_write.h:1094-1098 | the first-row mapping filters as if the row above were all zero |
| PngFilter.RowAbove | ggml/examples/stb_image_write.h:1099-1100 | the signed stride reaches the row above, flipped or not, for positive and negative strides, and that row lies inside the pixel data |
| PngFilter.EncodableExactly | ggml/examples/stb_image_write.h:1107-1116 | the loop over the first pixel stays inside the line buffer exactly when the image has columns or the line type is 0 |
| PngFilter.EncodeLine | ggml/examples/stb_image_write.h:1091-1126 | the line buffer holds the filtered line of section 6 of RFC 2083, for every filter, row, stride, pixel size and flip flag |
| PngFilter.UnfilterRestores | ggml/examples/stb_image_write.h:1091-1126 | unfiltering any filtered line restores it, whatever the row above |
| PngWrite.ChoiceMinimises | ggml/examples/stb_image_write.h:1151-1165 | the automatic choice is the first of the five filters with the least sum of absolute signed bytes, sums counting up to the largest int, from which the comparison starts |
| PngWrite.ChosenExactly | ggml/examples/stb_image_write.h:1136-1170 | filter types 0 to 4 are forced, any other value means the automatic choice |
| PngWrite.EstimateNext | ggml/examples/stb_image_write.h:1156-1159 | a filtered byte counts by its distance to the nearest multiple of 256 |
| PngWrite.Names | ggml/examples/stb_image_write.h:1130-1210 | signature and chunk types spell what RFC 2083 says |
| PngWrite.FilterLine | ggml/examples/stb_image_write.h:1147-1170 | filter type and line buffer after the choice agree, with a forced filter or an automatic one |
| PngWrite.FilterImage | ggml/examples/stb_image_write.h:1144-1175 | the buffer holds every row behind its filter type |
| PngWrite.ImageEncodableExactly | ggml/examples/stb_image_write.h:1144-1170 | every image with columns can be filtered; one without only if a forced filter copies every row |
| PngWrite.UnfilterRowsRestores | ggml/examples/stb_image_write.h:1146-1174 | unfiltering the buffer row by row restores every pixel byte |
| PngWrite.ReadChunkOfChunk | ggml/examples/stb_image_write.h:1077-1081 | a chunk reads back with its CRC checked, whatever follows |
| PngWrite.PngRoundTrip | ggml/examples/stb_image_write.h:1128-1212 | decoding the file (signature, header, CRCs, inflate, unfilter) gives back width, height, pixel size and every pixel byte, exactly when the image has rows and columns |
| PngWrite.WritePng | ggml/examples/stb_image_write.h:1128-1212 | the function writes that file from any position in the pixel data and for any stride, negative ones included, 0 meaning rows without gaps |
| ComponentRegistry.OrderMeansAcyclic | scripts/validate-components.py:117-145 | a duplicate-free list of all components with dependencies first can exist only if no component requires itself, however indirectly |
| ComponentRegistry.CycleCheck.HasCycle | scripts/validate-components.py:90-106 | terminates on every graph; a cycle is reported only if there is one, otherwise the name is finished after everything it requires |
| ComponentRegistry.CheckCircularDependencies | scripts/validate-components.py:83-115 | returns true exactly when the requires relation has no cycle, unregistered names included |
| ComponentRegistry.TopologicalSort.Visit | scripts/validate-components.py:123-139 | raises only for a component on a cycle; otherwise appends it after all registered components it requires |
| ComponentRegistry.GetDependencyOrder | scripts/validate-components.py:117-145 | returns normally exactly when there is no cycle, and then lists every registered component once, each after every registered component it requires; so both searches agree |
| Similarity.DistanceIsLeastCost | ggml/examples/common.cpp:648-670 | the recurrence is the least cost of all insert/delete/substitute scripts, and some script attains it |
| Similarity.Symmetric | ggml/examples/common.cpp:648-670 | the distance does not depend on the order of the strings |
| Similarity.Compose | ggml/examples/common.cpp:648-670 | two scripts one after the other make one script that costs no more |
| Similarity.Triangle | ggml/examples/common.cpp:648-670 | the triangle inequality |
| Similarity.ZeroIffEqual | ggml/examples/common.cpp:648-670 | the distance is 0 exactly for equal strings |
| Similarity.AtMostLonger | ggml/examples/common.cpp:648-670 | the distance is at most the longer length |
| Similarity.FillRow | ggml/examples/common.cpp:659-664 | one pass fills the row of the recurrence, the redundant pass for i = 0 included |
| Similarity.Similar | ggml/examples/common.cpp:648-670 | whenever d is the least cost of a script and n the longer length, the score misses d / n to 1; for two empty strings the quotient is 0 / 0 |
| Similarity.ZeroScore | ggml/examples/common.cpp:667-669 | the score is 0 exactly if no script costs less than the longer length |
| Similarity.ScoreLaws | ggml/examples/common.cpp:667-669 | the score is between 0 and 1, 1 exactly for equal strings, symmetric, and not a number exactly for two empty strings |
| JpegTables.FirstIsMinCode | ggml/examples/stb_image_write.h:1400-1423 | the closed form for the smallest code of each length is the recurrence of section C.2 of ITU-T T.81 over the counts sent in the file |
| JpegTables.AcAssigned | ggml/examples/stb_image_write.h:1424-1465 | every AC symbol the encoder can need has, in the encoder's tables, the code word that the counts and values sent in the file assign to it |
| JpegTables.DcAssigned | ggml/examples/stb_image_write.h:1425-1426 | the same for the DC tables |
| JpegEntropy.DecodeSymbolOfCode | ggml/examples/stb_image_write.h:1400-1465 | what the writer sends is decoded from counts and values alone, by the procedure of section F.2.2.3 of ITU-T T.81 |
| JpegEntropy.ExtendMagnitude | ggml/examples/stb_image_write.h:1318-1326 | the magnitude bits of any value fit its category and extend back to it |
| JpegEntropy.AcRoundTrip | ggml/examples/stb_image_write.h:1365-1394 | zero runs, markers for sixteen zeros, end of block and magnitudes decode to the coefficients from any position on |
| JpegEntropy.BlockRoundTrip | ggml/examples/stb_image_write.h:1355-1395 | any 64 coefficients in the baseline range and any previous DC value come back, decoded with the counts and values sent for the component |
| JpegEntropy.ScanRoundTrip | ggml/examples/stb_image_write.h:1522-1597 | so do the units of all three components in any interleaving, each predicted from its own component and decoded with the tables that the headers select for it |
| JpegWriter.DestuffRestores | ggml/examples/stb_image_write.h:1258-1262 | dropping the zero after every 0xFF gives back the unstuffed bytes (section F.1.2.3 of ITU-T T.81) |
| JpegWriter.StuffedHasNoMarker | ggml/examples/stb_image_write.h:1258-1262 | in stuffed data every 0xFF is followed by a zero, so no marker can appear |
| JpegWriter.CalcBits | ggml/examples/stb_image_write.h:1318-1326 | computes category and magnitude of every value but 0 |
| JpegWriter.EntropyWriter.WriteBits | ggml/examples/stb_image_write.h:1253-1268 | appends exactly the bits of the code to the stream; fewer than 8 stay pending, and the bytes sent are the stuffed bytes of the stream |
| JpegWriter.EntropyWriter.ProcessUnit | ggml/examples/stb_image_write.h:1355-1396 | writes exactly the bits of the block and returns its DC value |
| JpegWriter.EntropyWriter.WriteCoefficient | ggml/examples/stb_image_write.h:1374-1391 | each round of the AC loop keeps what was written plus what is left equal to the whole |
| JpegWriter.FilledWithOnes | ggml/examples/stb_image_write.h:1524-1597 | the fill code completes the last byte with ones and leaves only fill bits behind |
| JpegHeader.HeadersRead | ggml/examples/stb_image_write.h:1500-1519 | a reader of the DHT and SOS segments finds, by class, destination and selector bytes, the tables each component is coded with |
| JpegWriter.WriteHeaders | ggml/examples/stb_image_write.h:1500-1519 | the bytes of the four Huffman tables and of the scan header |
| JpegWriter.WriteData | ggml/examples/stb_image_write.h:1522-1597 | the bytes of a scan, destuffed, are its bits and fewer than eight ones |
| JpegWriter.WriteScan | ggml/examples/stb_image_write.h:1500-1597 | a reader that knows only the bytes of tables, scan header and data, and how units are interleaved, gets back the units written |
| TgaWriter.PacketsCover | ggml/examples/stb_image_write.h:563-604 | the packets are runs of 2 to 128 and raw packets of 1 to 128 pixels and cover the row exactly, although the raw scan compares a pixel with the one two before it |
| TgaWriter.PacketsRoundTrip | ggml/examples/stb_image_write.h:593-604 | a reader of packets gets their pixels back, in image order, in front of any bytes |
| TgaWriter.RestoredStored | ggml/examples/stb_image_write.h:418-455 | the stored pixel has one byte per channel and the channel order can be undone |
| TgaWriter.TgaRoundTrip | ggml/examples/stb_image_write.h:532-609 | for every image of 1 to 4 channels, compressed or not, flipped or not, a reader that takes kind, colours, alpha and origin from the header gets back every pixel and the rows from the top, exactly when both sides are below 65536, the range of the header |
| TgaWriter.RowsOrder | ggml/examples/stb_image_write.h:550-559 | rows are written bottom up, or top down when flipping |
| TgaWriter.ScanPacket | ggml/examples/stb_image_write.h:564-592 | the two scans compute length and kind of the packet |
| TgaWriter.WriteContext.Flush | ggml/examples/stb_image_write.h:386-392 | delivers what is buffered, and changes nothing about what has been written |
| TgaWriter.WriteContext.Write1 | ggml/examples/stb_image_write.h:399-404 | appends one byte to the unbuffered output; the 64-byte buffer cannot overflow |
| TgaWriter.WriteContext.Write3 | ggml/examples/stb_image_write.h:406-416 | appends three bytes, with the same guarantee |
| TgaWriter.WriteContext.WritePixel | ggml/examples/stb_image_write.h:418-455 | writes alpha, channels and expansion of the pixel for every combination of its flags |
| TgaWriter.CompositeBounds | ggml/examples/stb_image_write.h:435-441 | a channel drawn over the background stays between the two, so the cast to a byte keeps it |
| TgaWriter.WriteContext.WritePackets | ggml/examples/stb_image_write.h:563-604 | a row is written as its packets |
| TgaWriter.WriteContext.WriteRawRows | ggml/examples/stb_image_write.h:457-482 | uncompressed rows, flushed one by one, deliver the same bytes as unbuffered output |
| TgaWriter.WriteContext.WriteTga | ggml/examples/stb_image_write.h:532-609 | negative sizes write nothing and fail; otherwise the bytes delivered are the file |
| HdrScanline.PacketsData | ggml/examples/stb_image_write.h:726-756 | the packets hold the component; literals are 1 to 128 bytes, runs 1 to 127 |
| HdrScanline.StretchCost | ggml/examples/stb_image_write.h:735-755 | a run of three or more pays for the length byte of the literals before it |
| HdrScanline.ComponentRoundTrip | ggml/examples/stb_image_write.h:656-670 | every component reads back exactly, from at most W + W / 128 + 1 bytes |
| HdrScanline.ScanlineRoundTrip | ggml/examples/stb_image_write.h:672-759 | every scanline of any width reads back exactly, with runs or without |
| HdrScanline.FindRun | ggml/examples/stb_image_write.h:727-734 | finds the first three equal bytes, or the end |
| HdrScanline.FindEnd | ggml/examples/stb_image_write.h:745-747 | finds the end of the run |
| HdrScanline.HdrWriter.WriteComponent | ggml/examples/stb_image_write.h:725-756 | the loop always advances, terminates, and writes the packets |
| HdrScanline.HdrWriter.WriteScanline | ggml/examples/stb_image_write.h:672-759 | writes the scanline from its RGBE bytes |
| LoraTensor.PermuteCommutes | llama.cpp/convert_lora_to_gguf.py:161-172 | whenever permute returns, the result stands for the permuted product |
| LoraTensor.ReshapeCommutes | llama.cpp/convert_lora_to_gguf.py:129-153 | whenever reshape returns, with or without -1, the result has the shape asked for and stands for the reshaped product exactly if that has as many elements, which only at rank 0 it may not |
| LoraTensor.ReshapeGrows | llama.cpp/convert_lora_to_gguf.py:129-153 | an input of rank 0 for which it has not: 1 by 1 becomes 2 by 1 |
| LoraTensor.SameDataProduct | llama.cpp/convert_lora_to_gguf.py:129-153 | with A's leading dimensions all 1 the product depends only on the data and the row size |
| LoraIndexing.SourceOfInRange | llama.cpp/convert_lora_to_gguf.py:57-75 | Python's index and slice rules never select outside the tensor |
| LoraIndexing.IndexedProduct | llama.cpp/convert_lora_to_gguf.py:97-111 | indexing the parts consistently indexes the product |
| LoraGetItem.GetItemsCommutes | llama.cpp/convert_lora_to_gguf.py:97-111 | a tuple of one item per dimension is right exactly when rows and columns are sliced and every leading slice keeps all entries of a dimension that A does not broadcast |
| LoraGetItem.GetItemsFails | llama.cpp/convert_lora_to_gguf.py:97-111 | an input for which it is wrong: p[0:1, :, :] on parts that share a first size of 2 returns a pair without a product |
| LoraGetItem.BroadcastsMeansKept | llama.cpp/convert_lora_to_gguf.py:97-111 | if the indexed parts still have a product, every leading slice kept what it had to |
| LoraGetItem.GetOneCommutes | llama.cpp/convert_lora_to_gguf.py:66-73 | above two dimensions an integer always selects the matching matrix; a slice is right exactly when A and B share the dimension or A keeps one entry or both keep the same number |
| LoraGetItem.GetOneFails | llama.cpp/convert_lora_to_gguf.py:70-73 | an input for which a slice is wrong: p[1:] with first sizes 1 in A and 3 in B |
| LoraGetItem.GetRowsCommutes | llama.cpp/convert_lora_to_gguf.py:74-75 | on a matrix a single slice selects rows, always rightly |
| LoraEllipsis.EllipsisExpands | llama.cpp/convert_lora_to_gguf.py:80-95 | an ellipsis before the end is expanded by the number of the other entries, not of the missing dimensions, then padded; beyond the dimensions it is an error |
| LoraEllipsis.EllipsisExactly | llama.cpp/convert_lora_to_gguf.py:76-111 | over all pairs of given shapes for which the tuple returns, the result stands for the product indexed by what the ellipsis means exactly when the items written can index a pair and, unless the result is empty or the rank 0, select in every dimension the entries that the items meant select |
| LoraEllipsis.SameResultsIndex | llama.cpp/convert_lora_to_gguf.py:80-95 | items that select the same entries in every dimension, and leave the same shape, index the product alike, integers standing for slices of one entry and the other way round |
| LoraEllipsis.SomeDiffers | llama.cpp/convert_lora_to_gguf.py:80-95 | items that do not are told apart by the product of some pair of the same shapes |
| LoraEllipsis.EllipsisFails | llama.cpp/convert_lora_to_gguf.py:80-95 | an input for which the result is wrong: p[..., 0:1] in four dimensions selects from the second dimension instead of the last |
| LoraEllipsis.TrailingEllipsis | llama.cpp/convert_lora_to_gguf.py:78-79 | an ellipsis at the end changes nothing, and the result stands for the product indexed by the items and full slices exactly when those can index a pair |
| LoraCat.CatExactly | llama.cpp/convert_lora_to_gguf.py:209-213 | joining two or more pairs above two dimensions gives the joined product if every A and B share the first size; without empty B the result has a product only then |
| LoraCat.CatFits | llama.cpp/convert_lora_to_gguf.py:209-213 | the result has a product exactly when A's first sizes add up to 1 or to what B's add up to |
| LoraCat.CatFails | llama.cpp/convert_lora_to_gguf.py:209-213 | an input for which it has none: two pairs with first sizes 1 in A and 2 in B |
| LoraCat.CatMisplaces | llama.cpp/convert_lora_to_gguf.py:209-213 | with an empty B an input for which it has one, and not the joined one |
| LoraCat.CatCommutes | llama.cpp/convert_lora_to_gguf.py:209-213 | the same for any number of pairs that share their first sizes, empty ones included |
| LoraCat.CatRowsCommutes | llama.cpp/convert_lora_to_gguf.py:214-219 | joining matrices, whenever it returns, joins the rows of the products |
| LoraCat.StackCommutes | llama.cpp/convert_lora_to_gguf.py:197-204 | stacking, whenever it returns, stacks the products |
| LoraReturns.PermuteReturns | llama.cpp/convert_lora_to_gguf.py:161-172 | permute returns exactly if the last axis stays and A is shared, or for the transposition of a matrix |
| LoraReturns.ReshapeReturns | llama.cpp/convert_lora_to_gguf.py:129-153 | reshape returns exactly if the row size stays and, unless the rank is 0, the rows are as many as before and A is shared or its rows are empty |
| LoraReturns.ExpandReturns | llama.cpp/convert_lora_to_gguf.py:138-143 | one -1 is filled in exactly if the given dimensions divide the elements, and then none are lost |
| LoraReturns.GetItemsReturns | llama.cpp/convert_lora_to_gguf.py:97-111 | a tuple with sliced rows and columns returns exactly if every item fits its dimension |
| LoraReturns.GetOneReturns | llama.cpp/convert_lora_to_gguf.py:66-75 | a single item returns exactly if it fits the first dimension of both parts; on a matrix only slices do |
| LoraReturns.CatDeepReturns | llama.cpp/convert_lora_to_gguf.py:209-213 | cat above two dimensions returns exactly if both parts agree in all dimensions but the first |
| LoraReturns.CatMatricesReturns | llama.cpp/convert_lora_to_gguf.py:214-221 | cat of matrices returns exactly if all share A |
| LoraReturns.StackReturns | llama.cpp/convert_lora_to_gguf.py:197-204 | stack returns exactly if all A have one shape and all B have one |
| LoraCat.Cat2High | llama.cpp/convert_lora_to_gguf.py:205-213 | beyond the join an element of the joined tensor is that of the second part |
| HeadLayout.PermuteHeadsOk | llama.cpp/convert_hf_to_gguf.py:1923-1929 | the re-layout goes through exactly when the rows divide evenly into two halves per head |
| HeadLayout.LlamaPermuteHeads | llama.cpp/convert_hf_to_gguf.py:1923-1929 | the number of key and value heads, where given, replaces that of the query heads |
| HeadLayout.PermuteHeadsRow | llama.cpp/convert_hf_to_gguf.py:1923-1929 | row k of half t of a head moves to row t of pair k of that head, with all its columns |
| HeadLayout.HeadRows | llama.cpp/convert_hf_to_gguf.py:1923-1929 | those rows in numbers: h * hd + t * (hd / 2) + k and h * hd + 2 k + t |
| HeadLayout.RowUnique | llama.cpp/convert_hf_to_gguf.py:1923-1929 | a row number determines head, part and row, so the move is one to one |
| HeadLayout.PermuteHeadsUndone | llama.cpp/convert_hf_to_gguf.py:1923-1929 | the re-layout with halves and pairs exchanged restores every tensor |
| HeadLayout.PermuteHeadsPairCommutes | llama.cpp/convert_hf_to_gguf.py:1923-1929 | applied to a LoRA pair it stands for the re-layout of the product exactly when the rank is positive, or there are no elements, or the heads split the rows evenly |
| HeadLayout.PermuteHeadsPairOk | llama.cpp/convert_hf_to_gguf.py:1923-1929 | on the pair of a matrix it goes through exactly for the head counts that split the rows evenly, and at rank 0 for any positive one |
| QkvLayout.FalconRegroups | llama.cpp/convert_hf_to_gguf.py:1673-1682 | with as many groups as n_head_kv says, or one if it is missing or 0, every row of the result is the whole source row that belongs there |
| QkvLayout.NeoXWeightRegroups | llama.cpp/convert_hf_to_gguf.py:1279-1291 | the same for GPT-NeoX weights |
| QkvLayout.NeoXBiasRegroups | llama.cpp/convert_hf_to_gguf.py:1292-1303 | and for its biases |
| QkvLayout.RowsOnce | llama.cpp/convert_hf_to_gguf.py:1673-1682 | each source row is used exactly once, and all query rows come before all key rows before all value rows |
| QkvLayout.TargetOnto | llama.cpp/convert_hf_to_gguf.py:1673-1682 | every row of the result is the target of some source row |
| ExpertMerging.ArriveKnown | llama.cpp/convert_hf_to_gguf.py:1964-1988 | a block is stacked exactly when its last tensor arrives |
| ExpertMerging.RunKnown | llama.cpp/convert_hf_to_gguf.py:1956-1990 | in every order without repetitions the run goes through; a complete block has emitted its three stacks exactly once, slices in expert order, and has an empty buffer; an incomplete one has emitted nothing and holds what arrived |
| ExpertMerging.EmitsAtLast | llama.cpp/convert_hf_to_gguf.py:1966-1988 | what an arrival emits: the stacks of its block if it is the last, else nothing |
| ExpertMerging.OrderIndependent | llama.cpp/convert_hf_to_gguf.py:1956-1990 | two orders of the same tensors leave the same buffers and emit the same stacks for every block |
| ExpertMerging.LeftoverExactly | llama.cpp/convert_hf_to_gguf.py:2022-2029 | prepare_tensors raises exactly when some block received some of its tensors but not all |
| ExpertMerging.ExpertBuffer.TakeWeight | llama.cpp/convert_hf_to_gguf.py:1973-1978 | takes one weight of every expert out of the buffer in order, or stops at a missing one |
| ExpertMerging.ExpertBuffer.ModifyTensors | llama.cpp/convert_hf_to_gguf.py:1956-1990 | the dictionary updates, the count test, lookups and deletions do what one arrival is specified to do, errors included |
| ExpertMerging.ExpertBuffer.PrepareTensors | llama.cpp/convert_hf_to_gguf.py:2022-2029 | fails exactly when some buffer is not empty |
| BpeMerge.FindPair | llama.cpp/convert_hf_to_gguf.py:2687-2692 | one round finds the leftmost of the adjacent pairs of lowest rank |
| BpeMerge.Tokenise | llama.cpp/convert_hf_to_gguf.py:2683-2698 | the loop terminates and computes the merge procedure |
| BpeMerge.BpeResult | llama.cpp/convert_hf_to_gguf.py:2683-2698 | the parts concatenate to the token, each is a single byte or was merged below the bound, and no adjacent pair has a rank below it |
| BpeMerge.BpeExactly | llama.cpp/convert_hf_to_gguf.py:2683-2698 | the result is exactly what merging, again and again, the leftmost of the pairs of lowest rank below the bound leads to from the single bytes |
| BpeMerge.RunResumes | llama.cpp/convert_hf_to_gguf.py:2693-2697 | running with a lower bound first and going on with a higher one is running with the higher one |
| BpeMerge.BpeResumes | llama.cpp/convert_hf_to_gguf.py:2693-2697 | the unbounded result is reached from any bounded one |
| BpeMerge.OwnRank | llama.cpp/convert_hf_to_gguf.py:2683-2698 | bounded by its own rank a token of two or more bytes is left in at least two parts |
| GgmlRoundTrip.LoadRoundTrip | llama.cpp/convert_llama_ggml_to_gguf.py:180-200 | loading a serialised well-formed model of any of the three formats recovers header, hyperparameters, vocabulary and tensor descriptions and consumes the file exactly, unless the feed-forward tensor of layer 0 is missing or flat |
| GgmlRoundTrip.LoadSucceeds | llama.cpp/convert_llama_ggml_to_gguf.py:53-57 | with that tensor present the load succeeds and n_ff is the second dimension of the last one of its name |
| GgmlRoundTrip.Names | llama.cpp/convert_llama_ggml_to_gguf.py:145-166 | the magics and the name of the feed-forward tensor as text |
| GgmlRoundTrip.FileTypes | llama.cpp/convert_llama_ggml_to_gguf.py:27-44 | the seventeen file types accepted, and no other |
| GgmlRoundTrip.FormatRules | llama.cpp/convert_llama_ggml_to_gguf.py:180-194 | only GGML has no scores, only GGJT is padded |
| GgmlRoundTrip.BlockSizes | llama.cpp/gguf-py/gguf/constants.py:2421-2453 | a block of a quantised type is its scales and its quants bit by bit |
| GgmlRoundTrip.TensorLoads | llama.cpp/convert_llama_ggml_to_gguf.py:110-131 | one stored tensor, padded to its absolute position or not |
| GgmlRoundTrip.PayloadsHeld | llama.cpp/convert_llama_ggml_to_gguf.py:126-131 | every description points at the payload of its tensor |
| GgmlRoundTrip.ItemsLoad | llama.cpp/convert_llama_ggml_to_gguf.py:84-98 | the vocabulary, with scores or without |
| GgmlRoundTrip.HeaderLoads | llama.cpp/convert_llama_ggml_to_gguf.py:145-166 | the three magics and their versions |
| GgmlRoundTrip.LoadSound | llama.cpp/convert_llama_ggml_to_gguf.py:180-200 | the converse: whatever loads begins with the serialisation of the header, hyperparameters and vocabulary that were loaded, all of them well formed and eligible |
| GgmlRoundTrip.HeaderSound | llama.cpp/convert_llama_ggml_to_gguf.py:145-166 | only the three headers are accepted |
| GgmlRoundTrip.ItemsSound | llama.cpp/convert_llama_ggml_to_gguf.py:84-98 | a vocabulary that ends inside the file is the serialisation of its entries |
| GgmlRoundTrip.TensorSound | llama.cpp/convert_llama_ggml_to_gguf.py:110-131 | a tensor whose header lies inside the file was read from the serialisation of its name, dimensions and type, and starts after the padding of its absolute position |
| GgmlRoundTrip.ModelRangesOrdered | llama.cpp/convert_llama_ggml_to_gguf.py:189-194 | in every serialised well-formed model the payload ranges increase without touching, each 32-byte aligned in GGJT |
| GgmlRoundTrip.RangesOrdered | llama.cpp/convert_llama_ggml_to_gguf.py:189-194 | so they do in any file that loads without wrapped byte counts |
| GgmlRoundTrip.StepAdvances | llama.cpp/convert_llama_ggml_to_gguf.py:110-131 | the loop advances past a tensor exactly when the 64-bit byte count of the dimensions and type in its header is greater than minus the length of the header, name and padding included, and does not make the offset wrap |
| GgmlRoundTrip.SmallAdvances | llama.cpp/convert_llama_ggml_to_gguf.py:126-131 | a header of a tensor below 2^62 bytes is advanced past, by its true size |
| GgmlRoundTrip.AdvancingEnds | llama.cpp/convert_llama_ggml_to_gguf.py:190-194 | if every header the loop reads advances, the loop ends or fails within as many steps as bytes are left |
| GgmlRoundTrip.SmallLoadEnds | llama.cpp/convert_llama_ggml_to_gguf.py:180-200 | if every tensor header the loop reads describes less than 2^62 bytes, the load ends, in success or an error |
| GgmlRoundTrip.RunsForeverIff | llama.cpp/convert_llama_ggml_to_gguf.py:190-194 | the loop runs for ever exactly when it comes back to an offset |
| GgmlRoundTrip.LoadFuelSuffices | llama.cpp/convert_llama_ggml_to_gguf.py:180-200 | a bound of more than twice the file length on the number of tensors gives the result of every larger bound |
| GgmlRoundTrip.StuckForever | llama.cpp/convert_llama_ggml_to_gguf.py:180-200 | a whole GGML file on which the load never ends: the element count of its tensor wraps to minus the size of its header |
| GgmlLoader.Hyperparameters.Load | llama.cpp/convert_llama_ggml_to_gguf.py:59-73 | fields and errors of the seven words |
| GgmlLoader.Hyperparameters.SetNFf | llama.cpp/convert_llama_ggml_to_gguf.py:53-57 | looks the feed-forward tensor up in the name map |
| GgmlLoader.Vocab.Load | llama.cpp/convert_llama_ggml_to_gguf.py:84-98 | appends the entries to the items and returns how far it read |
| GgmlLoader.Tensor.Load | llama.cpp/convert_llama_ggml_to_gguf.py:110-131 | sets name, dimensions, type, start and length, with every error |
| GgmlLoader.GGMLModel.ValidateHeader | llama.cpp/convert_llama_ggml_to_gguf.py:145-166 | format, version and size of the header, with every error |
| GgmlRoundTrip.EligibleExactly | llama.cpp/convert_llama_ggml_to_gguf.py:168-177 | a file is eligible exactly if the quantisation of its type has not changed since its version |
| GgmlLoader.GGMLModel.ValidateConversion | llama.cpp/convert_llama_ggml_to_gguf.py:168-177 | the two tests refuse exactly the files that are not eligible |
| GgmlLoader.GGMLModel.LoadTensors | llama.cpp/convert_llama_ggml_to_gguf.py:187-194 | descriptions in file order, and the map from each name to its last index |
| GgmlLoader.GGMLModel.Load | llama.cpp/convert_llama_ggml_to_gguf.py:180-200 | the whole load, and the error of the first step that fails |

## Left out

- The inflater rejects dynamic Huffman blocks, which the compressor never writes.
- Compressor and PNG writer: allocation failure, the headers of the stretchy buffer and the 32-bit `int` sizes of inputs
  of 2 GB and of a quality above 2^30 are not modelled; sizes are unbounded there except where stated.
- PNG: component counts outside 1 to 4; the absolute sums of rows of 2^24 bytes or more, which overflow an `int`, are
  unbounded here.
- JPEG: the DCT, quantisation, colour conversion and subsampling are floating point, and the frame header and
  quantisation tables belong to them; the model starts from 64 integer coefficients per unit. The shift
  `bitBuf <<= 8`, which overflows a signed `int`, is modelled modulo 2^32.
- HDR: the conversion of floats to RGBE and the text header; the model starts from RGBE bytes.
- BMP headers, file and callback plumbing of the image writer; the sink is a growing byte sequence.
- TGA: component counts above 4, for which the writer emits no channels, have no round trip.
- similarity: the final division is exact here and rounded to `float` in the source; row entries are unbounded.
- Component checks: loading YAML, printing, the checks of required fields and files, and Python's recursion limit.
- LoRA: element types and their conversion, tensors as indices, `None` in an index, and pairs whose B rather than
  A would have to be broadcast. Arithmetic is over the reals.
- torch.cat passes over empty one-dimensional tensors; the model treats them like any other.
- Names of tensors are abstracted: an expert tensor is its block, expert and weight, without the text around them.
- Regex token splitting, tokenizer files, name maps, metadata and everything that calls gguf, transformers or
  sentencepiece.
- GgmlLoader.GGMLModel.LoadTensors: takes a bound on the number of tensors, because the loop of the source need not end;
  `GgmlRoundTrip.LoadFuelSuffices` says that twice the file length loses nothing.
- GgmlLoader.GGMLModel.Load: takes the same bound.
- LoraCat.CatExactly: with an empty B among the pairs it does not say when the result, having a product, has the joined
  one; `LoraCat.CatMisplaces` is a case in which it has not.
- PngWrite.PngRoundTrip: stated for sizes, and a compressed size, that fit an `int`, as the header fields require.
- GGML vocabulary scores stay four bytes; the arithmetic before a payload is unbounded, from the payload on it wraps.
