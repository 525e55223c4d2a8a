# AutoBiz-AI WebAssembly modules, modelled in Dafny

AutoBiz-AI ships four Rust components compiled to WebAssembly. The host talks to
each of them through a flat byte buffer that the module owns. This project models:

- **The text processor** (`TextProcessing`, `Chunker`). It has a bump allocator with
  8-byte rounding and a record of the regions it handed out. It has codecs for
  NUL-terminated strings and for the 20-byte chunking configuration. Its chunker
  cuts a grapheme sequence into windows, pulls each window back to its last
  `[.!?]+\s+` sentence boundary, trims it if asked, and steps back by `overlap`.
  The chunk list it writes has a 16-byte header, 24-byte records and 16-byte
  metadata blocks. `ChunkList` reads that list back as the host does: the
  header, each record, and the text and metadata the record points at.
- **The ML inference module** (`Inference`). It has the same bump allocator;
  there, deallocation only zero-fills. It has:
  - the 28-byte model configuration with its precision code;
  - the header test that selects a model loader;
  - the `rank | dims | f32 payload` tensor layout;
  - the multi-tensor result layout written by `write_inference_results`;
  - NUL-terminated metadata strings.
- **The image preprocessing pipeline** (`Preprocessing`). Its stages run in this
  order: decode, resize, colour-space conversion, HWC→CHW array fill,
  normalisation, then the NCHW/NHWC layout. It also models each stage's errors.
- **The document processor's dispatcher** (`Document`). It has:
  - magic-byte type detection;
  - routing to the PDF, DOCX and image handlers;
  - the shape of the error and panic result records;
  - the `malloc`/`free` pair, which resizes one buffer and always returns its base.

Byte-level helpers (`Bytes`) are shared by all modules:
- little-endian 32- and 64-bit fields;
- the `(n + 7) & !7` rounding;
- splicing bytes into a buffer;
- C strings.

Floats are never computed on. An `f32` is its 32-bit pattern and an `f64` its
64-bit pattern. The work of outside libraries enters as parameters:
- image decoding, resizing and pixel conversion (`ImageLibrary`, with the laws in
  `Lawful`);
- float arithmetic (`FloatOps`);
- model loading and description (`Runtime`);
- the document handlers (`Handlers`);
- JSON serialisation (`encode`, `Runtime.toJson`);
- the clock (`now`);
- grapheme segmentation (the `g` argument).

`usize` is 32 bits wide on wasm32. An integer written as an `i32` field is written
as its value modulo 2^32, and reading one back gives its unsigned 32-bit value.

## Model

Source paths are relative to the repository root.

| member | source | states |
|---|---|---|
| Bytes.Round8 | src/core/wasm/modules/text-processing/rust/src/lib.rs:54 | `(size + 7) & !7` is the least multiple of 8 that is at least `size` |
| Bytes.U32RoundTrip | src/core/wasm/modules/text-processing/rust/src/lib.rs:144-150 | a 32-bit field reads back as the value written modulo 2^32 |
| Bytes.U32BytesOf | src/core/wasm/modules/text-processing/rust/src/lib.rs:144-150 | re-encoding a decoded field gives back its four bytes, so the codec is a bijection on 4-byte fields |
| Bytes.U32OfZero | src/core/wasm/modules/text-processing/rust/src/lib.rs:147-149 | a field is nonzero exactly when one of its bytes is nonzero, which is the flag test `!= 0` |
| Bytes.FlagBytes | src/core/wasm/modules/ml-inference/rust/src/lib.rs:26-35 | a flag is written as a 4-byte field that is all zero exactly when the flag is false |
| Bytes.U64RoundTrip | src/core/wasm/modules/text-processing/rust/src/lib.rs:197-200 | a `usize` stored into a `u64` slot reads back modulo 2^32 |
| Bytes.Bits64RoundTrip | src/core/wasm/modules/text-processing/rust/src/lib.rs:201 | the 64-bit pattern of `confidence.to_bits()` reads back unchanged |
| Bytes.U32SeqRoundTrip | src/core/wasm/modules/ml-inference/rust/src/lib.rs:392-398 | a run of 32-bit fields reads back as the values written |
| Bytes.Splice | src/core/wasm/modules/ml-inference/rust/src/lib.rs:277 | copying into a slice of the buffer never changes its length |
| Bytes.SpliceFacts | src/core/wasm/modules/text-processing/rust/src/lib.rs:183 | the copied bytes are in place and every byte outside the slice is unchanged |
| Bytes.AppendStored | src/core/wasm/modules/ml-inference/rust/src/lib.rs:384-407 | writing at the running offset over a zeroed allocation extends what was written and keeps the remaining zeros |
| Bytes.Padded | src/core/wasm/modules/ml-inference/rust/src/lib.rs:336-349 | a filled allocation is exactly `Round8` of its contents' length |
| Bytes.NulFrom | src/core/wasm/modules/text-processing/rust/src/lib.rs:129-132 | the scan stops at the first zero byte at or after `ptr`, or finds none inside the buffer |
| Bytes.CStringAt | src/core/wasm/modules/text-processing/rust/src/lib.rs:128-134 | the string read holds no zero byte and is followed by one; it is None exactly when no zero byte follows `ptr` (where the source faults) |
| Bytes.CStringRoundTrip | src/core/wasm/modules/text-processing/rust/src/lib.rs:128-134 | a NUL-free string stored with its terminator reads back unchanged |
| Bytes.StringReadsBack | src/core/wasm/modules/text-processing/rust/src/lib.rs:180-186 | a string written at the end of the buffer reads back from the returned offset |
| Bytes.StringImageSize | src/core/wasm/modules/text-processing/rust/src/lib.rs:182 | a string write appends `Round8(len + 1)` bytes |
| Chunker.SkipTerminals | src/core/wasm/modules/text-processing/rust/src/lib.rs:33 | `[.!?]+` is greedy: it stops at the first byte that is not a terminal |
| Chunker.SkipSpaces | src/core/wasm/modules/text-processing/rust/src/lib.rs:33 | `\s+` is greedy: it stops at the first byte that is not white space |
| Chunker.MatchEnds | src/core/wasm/modules/text-processing/rust/src/lib.rs:98-100 | every match end the regex iterator yields lies inside the window and after the search position |
| Chunker.MatchEndsAreBoundaries | src/core/wasm/modules/text-processing/rust/src/lib.rs:98-100 | the iterator's match ends increase and are exactly the reference sentence boundaries (a white-space run right after a terminal run) |
| Chunker.LastMatchEnd | src/core/wasm/modules/text-processing/rust/src/lib.rs:98-100 | `.last()` of the match ends lies in `(0, len]` |
| Chunker.LastMatchEndIsLastBoundary | src/core/wasm/modules/text-processing/rust/src/lib.rs:98-102 | the last match end is the largest reference boundary of the window, and None exactly when the window holds none |
| Chunker.SpaceRunStart | src/core/wasm/modules/text-processing/rust/src/lib.rs:33 | the start of the maximal white-space run ending at `e`, which the reference boundary is defined by |
| Chunker.BoundaryEndAtLeastTwo | src/core/wasm/modules/text-processing/rust/src/lib.rs:33 | a boundary covers at least a terminal and a white-space byte |
| Chunker.Trim | src/core/wasm/modules/text-processing/rust/src/lib.rs:106-107 | the trimmed text is a slice of the chunk, surrounded only by white space, and empty or non-space at both ends |
| Chunker.TrimIdempotent | src/core/wasm/modules/text-processing/rust/src/lib.rs:106-107 | trimming twice is trimming once |
| Chunker.ConcatOneByte | src/core/wasm/modules/text-processing/rust/src/lib.rs:98-99 | with one-byte graphemes, byte `k` of the concatenated window is grapheme `k`, so byte and grapheme offsets agree |
| Chunker.SnapEnd | src/core/wasm/modules/text-processing/rust/src/lib.rs:93-103 | the chunk end lies after the cursor and no later than the hard window end |
| Chunker.NextStart | src/core/wasm/modules/text-processing/rust/src/lib.rs:122 | the corrected cursor moves strictly forward and stays within the text |
| Chunker.ChunksFromUnfold | src/core/wasm/modules/text-processing/rust/src/lib.rs:92-123 | one turn of the loop: the chunk at the cursor, then the chunks from the next cursor |
| Chunker.FindChunkEnd | src/core/wasm/modules/text-processing/rust/src/lib.rs:93-103 | the method's window end and boundary pull-back equal `SnapEnd` |
| Chunker.NextChunk | src/core/wasm/modules/text-processing/rust/src/lib.rs:92-123 | one pass of the loop gives the chunk at the cursor and a later cursor, from which the remaining chunks follow |
| Chunker.ChunkTextImpl | src/core/wasm/modules/text-processing/rust/src/lib.rs:87-126 | the chunking loop, with the corrected step and a chunk size of 0 taken as 1 (`Effective`), produces exactly `ChunkText` for any configuration |
| Chunker.Effective | src/core/wasm/modules/text-processing/rust/src/lib.rs:93 | the configuration the corrected loop runs with: chunk size at least 1, unchanged when already positive, every other field kept |
| Chunker.AsWrittenZeroSizeStalls | src/core/wasm/modules/text-processing/rust/src/lib.rs:93-122 | with chunk size 0 the window is empty, no boundary is found, and the source's next cursor is at most the current one: equal to it with overlap 0, negative (an underflow) when the overlap exceeds it |
| Chunker.EffectiveChunkingCovers | src/core/wasm/modules/text-processing/rust/src/lib.rs:87-126 | for any configuration and non-empty text, the corrected chunking is non-empty, starts at 0, ends at the text's length, every chunk is non-empty, and with chunk size 0 every chunk is one grapheme |
| Chunker.SnapEndCuts | src/core/wasm/modules/text-processing/rust/src/lib.rs:93-120 | each chunk is well formed: within bounds, at most `chunk_size` long, cut at the last boundary or the hard end, with the (trimmed) window text and the default metadata |
| Chunker.ChunksFromValid | src/core/wasm/modules/text-processing/rust/src/lib.rs:92-123 | every chunk from a cursor on is well formed and consecutive chunks follow the step rule |
| Chunker.ChunkTextValid | src/core/wasm/modules/text-processing/rust/src/lib.rs:87-126 | every chunk is well formed, and the text has no chunks exactly when it is empty |
| Chunker.ChunkTextCovers | src/core/wasm/modules/text-processing/rust/src/lib.rs:90-123 | the first chunk starts at 0, the last ends at `len`, and starts increase without passing the previous end |
| Chunker.ChunkTextTiles | src/core/wasm/modules/text-processing/rust/src/lib.rs:122 | with no overlap each chunk starts where the previous one ended |
| Chunker.ChunkTextOverlaps | src/core/wasm/modules/text-processing/rust/src/lib.rs:122 | with a positive overlap each start is `end - overlap` (bounded below by one past the previous start) and lies before the previous end |
| Chunker.AsWrittenFinalChunkRepeats | src/core/wasm/modules/text-processing/rust/src/lib.rs:92-122 | once a window reaches the end of the text, the source's cursor `len - overlap` is a fixed point below `len` |
| Chunker.AsWrittenNeverEnds | src/core/wasm/modules/text-processing/rust/src/lib.rs:92-122 | "abc" with chunk size 5 and overlap 1: the cursor returns to 2 after every chunk |
| Chunker.AsWrittenStallsMidText | src/core/wasm/modules/text-processing/rust/src/lib.rs:122 | ten letters with chunk size 2 and overlap 2: the cursor goes back to 0 |
| Chunker.AsWrittenUnderflows | src/core/wasm/modules/text-processing/rust/src/lib.rs:122 | "abc" with chunk size 5 and overlap 4: `chunk_end - overlap` is negative |
| Chunker.CorrectedEndsOnWitnesses | src/core/wasm/modules/text-processing/rust/src/lib.rs:122 | the corrected step gives exactly one chunk on the same inputs |
| TextProcessing.FirstFit | src/core/wasm/modules/text-processing/rust/src/lib.rs:62 | `position` finds the first record with `p == ptr && s >= size`, and None means no record matches |
| TextProcessing.RemoveAt | src/core/wasm/modules/text-processing/rust/src/lib.rs:63 | `Vec::remove` drops exactly one element and keeps the others in order |
| TextProcessing.RemoveKeepsOrder | src/core/wasm/modules/text-processing/rust/src/lib.rs:61-65 | removing a record keeps the records aligned, inside the buffer, disjoint and increasing |
| TextProcessing.MetadataSlot | src/core/wasm/modules/text-processing/rust/src/lib.rs:197-200 | the language slot is one 8-byte field |
| TextProcessing.RecordFields | src/core/wasm/modules/text-processing/rust/src/lib.rs:216-219 | a record's four fields take 16 bytes |
| TextProcessing.RecordBytes | src/core/wasm/modules/text-processing/rust/src/lib.rs:207-219 | a record slot is 24 bytes: its fields and 8 untouched bytes |
| TextProcessing.RecordsImage | src/core/wasm/modules/text-processing/rust/src/lib.rs:207-221 | the record table takes 24 bytes per record |
| TextProcessing.ChunkBodies | src/core/wasm/modules/text-processing/rust/src/lib.rs:157-161 | one body per chunk written |
| TextProcessing.ChunkRecords | src/core/wasm/modules/text-processing/rust/src/lib.rs:157-161 | one record per chunk written |
| TextProcessing.HeaderFields | src/core/wasm/modules/text-processing/rust/src/lib.rs:173-175 | the header holds three 32-bit fields: count, 0, record table offset |
| TextProcessing.ImageSize | src/core/wasm/modules/text-processing/rust/src/lib.rs:157-161 | a body takes exactly the bytes its size says, so the offsets stored in the records are where the bytes land |
| TextProcessing.ImagesAppend | src/core/wasm/modules/text-processing/rust/src/lib.rs:157-161 | bodies written one after another are the concatenation of their bytes |
| TextProcessing.EncodeConfig | src/core/wasm/modules/text-processing/rust/src/lib.rs:24-30 | a configuration is five 4-byte fields, 20 bytes |
| TextProcessing.DecodeConfig | src/core/wasm/modules/text-processing/rust/src/lib.rs:136-151 | the sizes fit in 32 bits, and each flag is true exactly when its field is nonzero |
| TextProcessing.ConfigRoundTrip | src/core/wasm/modules/text-processing/rust/src/lib.rs:136-151 | a configuration whose sizes fit in 32 bits reads back as written |
| TextProcessing.TextProcessor.constructor | src/core/wasm/modules/text-processing/rust/src/lib.rs:46-51 | an empty buffer and no records |
| TextProcessing.TextProcessor.Allocate | src/core/wasm/modules/text-processing/rust/src/lib.rs:53-59 | returns the old length, which is 8-aligned; appends `Round8(size)` zero bytes and the record `(ptr, Round8(size))`; keeps the records ordered and disjoint |
| TextProcessing.TextProcessor.Deallocate | src/core/wasm/modules/text-processing/rust/src/lib.rs:61-65 | drops the first matching record, or nothing when none matches; memory is unchanged |
| TextProcessing.TextProcessor.Cleanup | src/core/wasm/modules/text-processing/rust/src/lib.rs:224-228 | empties the buffer and the records |
| TextProcessing.TextProcessor.ReadConfig | src/core/wasm/modules/text-processing/rust/src/lib.rs:136-151 | the five fields at `ptr`, or None exactly when they would run past the buffer |
| TextProcessing.TextProcessor.ChunkText | src/core/wasm/modules/text-processing/rust/src/lib.rs:80-85 | reads text and configuration (chunk size 0 taken as 1), and appends the chunk list of `ChunkText` at the returned offset; earlier allocations stay, and new regions start at that offset |
| TextProcessing.TextProcessor.ProcessText | src/core/wasm/modules/text-processing/rust/src/lib.rs:67-78 | chunks with size 1024, overlap 200 and trimming, and appends that chunk list at the returned offset; earlier allocations stay, and new regions start at that offset |
| TextProcessing.TextProcessor.ReadString | src/core/wasm/modules/text-processing/rust/src/lib.rs:128-134 | the scanning loop returns exactly `CStringAt` |
| TextProcessing.TextProcessor.WriteString | src/core/wasm/modules/text-processing/rust/src/lib.rs:180-186 | appends the string, its terminator and padding in a fresh region; a NUL-free string reads back from the returned offset |
| TextProcessing.TextProcessor.WriteMetadata | src/core/wasm/modules/text-processing/rust/src/lib.rs:188-204 | appends the 16-byte block (language offset or 0, confidence bits), then the language string if any; records the block's region, then the string's |
| TextProcessing.TextProcessor.StoreRecord | src/core/wasm/modules/text-processing/rust/src/lib.rs:209-219 | fills record `i` and no other byte |
| TextProcessing.TextProcessor.WriteChunkData | src/core/wasm/modules/text-processing/rust/src/lib.rs:206-222 | appends the record table, 24 bytes per record, with the last 8 of each zero, in one recorded region |
| TextProcessing.TextProcessor.WriteChunkBody | src/core/wasm/modules/text-processing/rust/src/lib.rs:158-160 | writes one chunk's text and metadata, and returns its record with their offsets; records the text's region, the block's, then the language string's if any |
| TextProcessing.TextProcessor.WriteChunkBodies | src/core/wasm/modules/text-processing/rust/src/lib.rs:157-161 | writes every chunk's body in order and collects their records; earlier allocations stay, and new regions start past the old end |
| TextProcessing.TextProcessor.WriteNextBody | src/core/wasm/modules/text-processing/rust/src/lib.rs:157-161 | chunk `i`'s body follows the earlier bodies, and its record extends the earlier records |
| TextProcessing.TextProcessor.WriteChunks | src/core/wasm/modules/text-processing/rust/src/lib.rs:153-178 | appends the header (count, 0, record table offset, padded to 16), the bodies and the record table, and returns the header's offset; the header's region comes first after the earlier allocations, which stay, and every new region starts at that offset |
| TextProcessing.MetadataStored | src/core/wasm/modules/text-processing/rust/src/lib.rs:189-201 | both slots land in the block allocated before the language string |
| TextProcessing.RecordStored | src/core/wasm/modules/text-processing/rust/src/lib.rs:209-219 | storing record `i` extends the table by one slot |
| TextProcessing.HeaderStored | src/core/wasm/modules/text-processing/rust/src/lib.rs:166-175 | the header fields land at the front of the zeroed 16-byte header block |
| TextProcessing.ChunkListParts | src/core/wasm/modules/text-processing/rust/src/lib.rs:153-178 | a chunk list is its header, padding, bodies and records |
| TextProcessing.BodiesNext | src/core/wasm/modules/text-processing/rust/src/lib.rs:157-161 | the next body starts where the earlier ones end |
| TextProcessing.RecordsSnoc | src/core/wasm/modules/text-processing/rust/src/lib.rs:160 | the next record carries the text offset, bounds and metadata offset of its chunk |
| ChunkList.RecordAt | src/core/wasm/modules/text-processing/rust/src/lib.rs:207-219 | record `i` of the table sits at `24 * i`: its four fields, then 8 zero bytes |
| ChunkList.RecordOf | src/core/wasm/modules/text-processing/rust/src/lib.rs:157-161 | record `i` carries chunk `i`'s start and end, the offset where its body begins, and a metadata offset just past its padded text |
| ChunkList.BodyOf | src/core/wasm/modules/text-processing/rust/src/lib.rs:157-161 | body `i` is chunk `i`'s text and metadata, written where the bodies of the earlier chunks end |
| ChunkList.ImagesAt | src/core/wasm/modules/text-processing/rust/src/lib.rs:157-161 | block `i` of a run of bodies sits at the total size of the blocks before it |
| ChunkList.BodyAt | src/core/wasm/modules/text-processing/rust/src/lib.rs:157-161 | chunk `i`'s body sits in the body area at the total size of the bodies before it |
| ChunkList.TextInBody | src/core/wasm/modules/text-processing/rust/src/lib.rs:180-186 | a body starts with the chunk's text and its terminator |
| ChunkList.SlotsInBody | src/core/wasm/modules/text-processing/rust/src/lib.rs:188-201 | the language slot and confidence bits follow the text, rounded up to 8 bytes |
| ChunkList.EntryLayout | src/core/wasm/modules/text-processing/rust/src/lib.rs:157-161 | chunk `i`'s body is in place and its record points at it |
| ChunkList.RecordReadBack | src/core/wasm/modules/text-processing/rust/src/lib.rs:206-221 | a host reading 24 bytes at `chunks_ptr + 24 * i` finds record `i`'s fields and 8 zero bytes |
| ChunkList.BodyReadBack | src/core/wasm/modules/text-processing/rust/src/lib.rs:180-204 | at a body's offset a host finds the chunk's text as a C string (when it holds no NUL), and the metadata slots after it |
| ChunkList.EntryReadBack | src/core/wasm/modules/text-processing/rust/src/lib.rs:157-161 | the record's text offset leads to the chunk's text, its metadata offset to the language slot and confidence bits |
| ChunkList.ChunkListReadBack | src/core/wasm/modules/text-processing/rust/src/lib.rs:153-222 | in the header, padding, bodies and table, a host finds the count, 0 and `chunks_ptr`; record `i` holds chunk `i`'s bounds; its offsets lead to the chunk's text and metadata |
| ChunkList.ChunkListImageReadBack | src/core/wasm/modules/text-processing/rust/src/lib.rs:153-178 | the same read-back, holding for the exact bytes `write_chunks` appends |
| Inference.PrecisionOf | src/core/wasm/modules/ml-inference/rust/src/lib.rs:204-208 | 1 selects fp16, 2 selects int8, anything else fp32 |
| Inference.EncodeModelConfig | src/core/wasm/modules/ml-inference/rust/src/lib.rs:26-35 | a configuration is seven 4-byte fields, 28 bytes |
| Inference.DecodeModelConfig | src/core/wasm/modules/ml-inference/rust/src/lib.rs:192-214 | counts and timeout are 32-bit values, flags are nonzero tests, precision comes from its code, and the optimisation level is the low byte |
| Inference.ModelConfigRoundTrip | src/core/wasm/modules/ml-inference/rust/src/lib.rs:192-214 | a configuration whose fields fit their widths reads back as written |
| Inference.DecodeFields | src/core/wasm/modules/ml-inference/rust/src/lib.rs:200-213 | seven fields, each read as one field of a configuration, decode to that configuration |
| Inference.FormatOf | src/core/wasm/modules/ml-inference/rust/src/lib.rs:86-92 | "ONNX" selects the ONNX loader and "TF" the TensorFlow loader; any other header selects none |
| Inference.TensorBytes | src/core/wasm/modules/ml-inference/rust/src/lib.rs:379-381 | a tensor's fields take `4 * (1 + rank) + 4 * n` bytes |
| Inference.WordsAt | src/core/wasm/modules/ml-inference/rust/src/lib.rs:222-227 | `n` words are read exactly when they lie inside the buffer |
| Inference.ReadTensor | src/core/wasm/modules/ml-inference/rust/src/lib.rs:216-265 | `OutOfBounds` exactly when a read of the header, the dims or the `∏ dims` payload words runs past the buffer; with every read in bounds, Ok exactly for ranks 1 to 4, with shape and data from the buffer, and "Unsupported tensor dimension" otherwise |
| Inference.TensorRoundTrip | src/core/wasm/modules/ml-inference/rust/src/lib.rs:216-265 | a tensor's fields anywhere in the buffer read back as the same shape and payload |
| Inference.WrittenTensorReadsBack | src/core/wasm/modules/ml-inference/rust/src/lib.rs:374-410 | after `write_tensor` returns `p`, reading at `p + 4 * (1 + rank)` with the shape at `p` gives the tensor back |
| Inference.ReadTensorOf | src/core/wasm/modules/ml-inference/rust/src/lib.rs:216-265 | a rank, dimensions and payload in place read as that tensor |
| Inference.WordsAtImage | src/core/wasm/modules/ml-inference/rust/src/lib.rs:222-227 | words stored in place read back |
| Inference.FirstError | src/core/wasm/modules/ml-inference/rust/src/lib.rs:286-291 | None exactly when every output holds `f32` data, otherwise the error of the first output that does not, every output before it holding `f32` data |
| Inference.ResultsSizeExact | src/core/wasm/modules/ml-inference/rust/src/lib.rs:283-334 | the size the first pass adds up is exactly the number of bytes the second pass writes |
| Inference.ResultsGrow | src/core/wasm/modules/ml-inference/rust/src/lib.rs:294-331 | every prefix of the written outputs fits in the precomputed size |
| Inference.MLInference.constructor | src/core/wasm/modules/ml-inference/rust/src/lib.rs:63-79 | no model, the default configuration, no metadata, an empty buffer |
| Inference.MLInference.Allocate | src/core/wasm/modules/ml-inference/rust/src/lib.rs:336-349 | returns the old length, which is 8-aligned, and appends `Round8(size)` zero bytes; nothing else changes |
| Inference.MLInference.Deallocate | src/core/wasm/modules/ml-inference/rust/src/lib.rs:351-359 | zero-fills `[ptr, ptr + Round8(size))` when it is inside the buffer, and otherwise changes nothing; the length never changes |
| Inference.MLInference.Cleanup | src/core/wasm/modules/ml-inference/rust/src/lib.rs:361-366 | an empty buffer, no model, no metadata; the configuration is kept |
| Inference.MLInference.ReadConfig | src/core/wasm/modules/ml-inference/rust/src/lib.rs:192-214 | the seven fields at `ptr`, or None exactly when they would run past the buffer |
| Inference.MLInference.WriteString | src/core/wasm/modules/ml-inference/rust/src/lib.rs:419-425 | appends the string, its terminator and padding; a NUL-free string reads back |
| Inference.MLInference.WriteMetadata | src/core/wasm/modules/ml-inference/rust/src/lib.rs:267-281 | "Metadata not available" when there is none, otherwise the JSON text is appended as a C string at the returned offset |
| Inference.MLInference.LoadModel | src/core/wasm/modules/ml-inference/rust/src/lib.rs:81-100 | the configuration is replaced first; an unknown header is "Unsupported model format" with the model unchanged; a loader error is passed on with model, metadata and memory unchanged; when describing the new model fails, its error is returned, the new model stays installed next to the old metadata and memory is unchanged; when the header is known and both the loader and describing succeed the load succeeds; on success the model and its metadata are installed and the metadata written |
| Inference.MLInference.StoreWords | src/core/wasm/modules/ml-inference/rust/src/lib.rs:386-398 | the rank and dimension fields are written in order at the running offset |
| Inference.MLInference.StoreTensor | src/core/wasm/modules/ml-inference/rust/src/lib.rs:384-407 | one tensor's fields are written at the running offset |
| Inference.MLInference.WriteTensor | src/core/wasm/modules/ml-inference/rust/src/lib.rs:374-410 | "Failed to get tensor data" unless the elements are contiguous; otherwise appends the tensor's fields, padded, at the returned offset |
| Inference.MLInference.Preprocess | src/core/wasm/modules/ml-inference/rust/src/lib.rs:119-128 | a pipeline error becomes its message with memory unchanged; a result is written as a tensor |
| Inference.MLInference.WriteInferenceResults | src/core/wasm/modules/ml-inference/rust/src/lib.rs:283-334 | fails with the first output's error when one holds no `f32` data and leaves memory unchanged; otherwise appends the count and every output's fields, padded |
| Inference.MLInference.StoreResults | src/core/wasm/modules/ml-inference/rust/src/lib.rs:302-331 | the second pass writes each output's rank, dimensions and payload back to back |
| Inference.TotalSize | src/core/wasm/modules/ml-inference/rust/src/lib.rs:285-291 | the first pass gives `4 + ResultsSize`, or the first output's error |
| Preprocessing.ResizeImage | src/core/wasm/modules/ml-inference/rust/src/preprocessing.rs:82-91 | "bilinear", "nearest" and "bicubic" select Triangle, Nearest and CatmullRom; the result has exactly the requested size; any other name is a format error |
| Preprocessing.ColorConverted | src/core/wasm/modules/ml-inference/rust/src/preprocessing.rs:93-109 | none leaves the image, RGB and GRAYSCALE convert, BGR reverses every pixel of the RGB image, and another name is a format error carrying it; sizes are kept |
| Preprocessing.ConvertColorSpace | src/core/wasm/modules/ml-inference/rust/src/preprocessing.rs:93-109 | the stage equals `ColorConverted` |
| Preprocessing.FillBgr | src/core/wasm/modules/ml-inference/rust/src/preprocessing.rs:96-104 | the nested loop puts every pixel with its channels reversed |
| Preprocessing.ByteToF32 | src/core/wasm/modules/ml-inference/rust/src/preprocessing.rs:120 | the `f32` pattern of a byte is zero exactly for zero |
| Preprocessing.ByteToF32Exact | src/core/wasm/modules/ml-inference/rust/src/preprocessing.rs:120 | every byte's pattern, decoded by sign, exponent and fraction as IEEE 754 single precision, has exactly that byte's value |
| Preprocessing.ByteToF32Ordered | src/core/wasm/modules/ml-inference/rust/src/preprocessing.rs:120 | the conversion is injective and order-preserving |
| Preprocessing.ArrayOf | src/core/wasm/modules/ml-inference/rust/src/preprocessing.rs:111-138 | RGB gives `(3, H, W)` and luma `(1, H, W)` with element `[c, y, x]` from the pixel at `(x, y)`; any other format is "Unsupported image format" |
| Preprocessing.ImageToArray | src/core/wasm/modules/ml-inference/rust/src/preprocessing.rs:111-138 | the stage equals `ArrayOf` |
| Preprocessing.FillRgb | src/core/wasm/modules/ml-inference/rust/src/preprocessing.rs:113-124 | the loops fill every element of the three planes from the pixels |
| Preprocessing.FillLuma | src/core/wasm/modules/ml-inference/rust/src/preprocessing.rs:126-134 | the loops fill every element of the single plane from the pixels |
| Preprocessing.MapPlane | src/core/wasm/modules/ml-inference/rust/src/preprocessing.rs:142-146 | `mapv` keeps the plane's shape and maps each element |
| Preprocessing.MapPlaneInPlace | src/core/wasm/modules/ml-inference/rust/src/preprocessing.rs:141-160 | `mapv_inplace` equals `MapPlane` |
| Preprocessing.Normalized | src/core/wasm/modules/ml-inference/rust/src/preprocessing.rs:140-163 | fails exactly when mean and std are both given and their lengths differ or differ from the channel count; otherwise scales, then standardises each channel when both are given; the shape is kept |
| Preprocessing.NormalizeArray | src/core/wasm/modules/ml-inference/rust/src/preprocessing.rs:140-163 | the stage equals `Normalized` |
| Preprocessing.Nhwc | src/core/wasm/modules/ml-inference/rust/src/preprocessing.rs:168 | element `[y][x][c]` of the channel-last view is the input's `[c][y][x]` |
| Preprocessing.Rank3 | src/core/wasm/modules/ml-inference/rust/src/preprocessing.rs:72-77 | with no layout option the result has rank 3, shape `(C, H, W)` |
| Preprocessing.ConvertLayoutAsWritten | src/core/wasm/modules/ml-inference/rust/src/preprocessing.rs:165-171 | NHWC has shape `(1, H, W, C)` and is in standard order exactly when the channel axis has length 1, or the plane has at most one pixel, or the array is empty |
| Preprocessing.NhwcAsWrittenHasNoSlice | src/core/wasm/modules/ml-inference/rust/src/lib.rs:374-377 | an RGB array of two or more pixels in the source's NHWC layout has no `as_slice` |
| Preprocessing.NhwcAsWrittenWitness | src/core/wasm/modules/ml-inference/rust/src/lib.rs:374-377 | a 2 by 2 RGB array shows it |
| Preprocessing.ConvertLayout | src/core/wasm/modules/ml-inference/rust/src/preprocessing.rs:165-171 | NCHW is `(1, C, H, W)` with elements in order; NHWC is `(1, H, W, C)` with element `[0, y, x, c]` the input's `[c, y, x]`; another name is "Invalid layout" |
| Preprocessing.Processed | src/core/wasm/modules/ml-inference/rust/src/preprocessing.rs:47-80 | decode, resize and colour errors come first in stage order; a result is contiguous, of rank 3 without a layout and rank 4 with one |
| Preprocessing.Process | src/core/wasm/modules/ml-inference/rust/src/preprocessing.rs:47-80 | the stage-by-stage method equals `Processed` |
| Preprocessing.ResizedRgbNchwShape | src/core/wasm/modules/ml-inference/rust/src/tests.rs:64-90 | a decoded image resized to 224 by 224, in RGB and NCHW, has shape `[1, 3, 224, 224]` |
| Preprocessing.OtherFormatRejected | src/core/wasm/modules/ml-inference/rust/src/preprocessing.rs:107 | with no colour space given, an image of another pixel format fails at the array stage |
| Document.DetectFileType | wasm/document-processor/src/lib.rs:161-171 | each known type exactly when the document starts with its signature, unknown exactly when with none |
| Document.SignaturesExclusive | wasm/document-processor/src/lib.rs:162-168 | no document starts with two signatures |
| Document.OrderIrrelevant | wasm/document-processor/src/lib.rs:161-171 | testing the signatures in any order finds the same type |
| Document.AnyPermutation | wasm/document-processor/src/lib.rs:161-171 | every permutation of the three tests classifies as the source's order does |
| Document.Attempt | wasm/document-processor/src/lib.rs:72-126 | the body panics exactly when the options do not parse or the handler panics |
| Document.DocumentResult | wasm/document-processor/src/lib.rs:87-157 | a handler result is passed through; a handler error or unknown type gives the document's size, no pages, "unknown" and the message; a panic gives size 0 and "Internal processing error" |
| Document.UnsupportedDocument | wasm/document-processor/src/lib.rs:87-109 | an unrecognised document is "Unsupported file type" with its own size |
| Document.Resized | wasm/document-processor/src/lib.rs:55 | `Vec::resize` gives exactly `size` bytes: the old prefix, then zeros |
| Document.ShrinkThenGrow | wasm/document-processor/src/lib.rs:53-57 | bytes cut by a smaller `malloc` come back as zeros |
| Document.ResizeSameLength | wasm/document-processor/src/lib.rs:55 | resizing to the current length changes nothing |
| Document.DocumentProcessor.constructor | wasm/document-processor/src/lib.rs:45-51 | an empty buffer |
| Document.DocumentProcessor.Malloc | wasm/document-processor/src/lib.rs:53-57 | the buffer becomes exactly `size` bytes and its base is returned |
| Document.DocumentProcessor.Free | wasm/document-processor/src/lib.rs:59-62 | the buffer is emptied |
| Document.DocumentProcessor.ProcessDocument | wasm/document-processor/src/lib.rs:64-158 | the buffer ends up holding exactly the serialised result record, at its base |

## Left out

- Floating point: `f32` and `f64` values are their bit patterns. Scaling and standardisation use the uninterpreted `FloatOps`. The `[-3, 3]` value bound the tests assert is not modelled.
- The image library: decoding, resize kernels and RGB or luma conversion are parameters. The model relies only on their size and pixel-format laws (`Lawful`).
- Model loading and execution: the ONNX and TensorFlow loaders, graph optimisation, `run_inference` and `update_metadata` are parameters (`Runtime`). The `Arc` around the model is not modelled.
- JSON: option parsing, metadata and result serialisation are parameters. A serialisation failure is not modelled.
- Clock: both timestamps of a record come from one `now` parameter.
- `read_buffer`, `read_preprocessing_options` and the `read_string` that `preprocess` calls are not defined in the ML module. `Inference.MLInference.Preprocess` takes the decoded bytes and the parsed options.
- Unicode: grapheme segmentation is given, and `Chunker` requires every grapheme to be one byte. Normalisation, the unused paragraph-boundary pattern, and UTF-8 lossy decoding in `read_string` are left out.
- Chunker.ChunkTextImpl: models the corrected cursor step, not the source's `chunk_end - overlap`, and takes a chunk size of 0 as 1 (`Chunker.Effective`); the source's step is `Chunker.NextStartAsWritten` and its zero-size stall is `Chunker.AsWrittenZeroSizeStalls` (see Findings).
- TextProcessing.TextProcessor.ChunkText: chunks with `Chunker.Effective` of the configuration read, so a chunk size of 0 is taken as 1 (see Findings).
- Inference.MLInference.Preprocess: with layout "NHWC", `Preprocessing.Processed` and `Preprocessing.Process` apply the corrected `Preprocessing.ConvertLayout`, so the tensor `Inference.MLInference.Preprocess` writes is in standard order; the source's layout is `Preprocessing.ConvertLayoutAsWritten` (see Findings).
- Raw reads past the end of the buffer: `read_tensor` and both `read_config`s read raw memory through `from_raw_parts` and can read beyond the buffer. They are modelled as bounds-checked and answer None or `OutOfBounds`. `read_string` uses checked indexing, so a missing terminator panics rather than reading past the buffer; the model answers None there.
- 32-bit overflow of `size + 7`, of the dimension product, and of the `usize` arithmetic on offsets is not modelled. Sizes are unbounded naturals, and only stored fields are reduced modulo 2^32.
- Capacity: the 1 MiB reservation of the text processor and the capacity check of the ML allocator affect capacity only. They are not modelled.
- TextProcessing.TextProcessor.ProcessText: runs the corrected chunker. With its fixed overlap of 200, the source's step `chunk_end - 200` (see Findings, lib.rs:122) is always below the text's length. So on a non-empty text the source's loop never ends with the cursor at the end. On a text of 200 or more graphemes, once a chunk reaches the end, the final chunk repeats forever. A chunk ending before grapheme 200, which always happens on a shorter text, makes the subtraction underflow: a panic in a debug build, a wrap-around that ends the loop in a release build.
- TextProcessing.TextProcessor.WriteMetadata: the source takes its slice over the block before `write_string` may reallocate the buffer, so its slot writes can land in freed storage. The model writes into the live buffer.
- `process` returns an `Array3` where an `ArrayD` is expected when no layout is given. The model reads this as `into_dyn`, a rank-3 array (`Preprocessing.Rank3`).
- `catch_unwind` over a closure holding `&mut self`: a panic is modelled as one alternative outcome of the options parse or of a handler. The PDF, DOCX and image handlers (pdf.rs, docx.rs, image.rs) are parameters.
- Inference.ModelConfigRoundTrip: requires each field to fit its wire width. The optimisation level keeps only its low byte (`as u8`).
- Inference.ReadTensor: requires nothing of the shape offset. The test code calls `read_tensor` with its arguments swapped; that call is not modelled.
- The text tests call `write_config` and `read_chunks`, which do not exist in the module. They are not modelled. Nor is the test's expectation of three sentence-aligned chunks, which the code does not produce.
- `console_error_panic_hook` and the raw copies at the wasm boundary are left out.

## Findings

| source | as written | input that shows it | evidently intended | confidence | as-written member | corrected member |
|---|---|---|---|---|---|---|
| src/core/wasm/modules/text-processing/rust/src/lib.rs:122 | `start = chunk_end - overlap` after every chunk, with the loop running while `start < len` | "abc" with chunk size 5 and overlap 1 (the cursor stays at 2 forever); ten letters with chunk size 2 and overlap 2 (back to 0); "abc" with overlap 4 (underflow: a panic in a debug build; in a release wasm build the subtraction wraps and the loop exits) | stop once a chunk reaches the end of the text, and otherwise step back by `overlap` but always past the previous start | not executed | Chunker.AsWrittenFinalChunkRepeats | Chunker.ChunkTextImpl |
| src/core/wasm/modules/text-processing/rust/src/lib.rs:93 | `end = (start + chunk_size).min(len)` with a chunk size read unchecked from the configuration (lib.rs:136-151) | "abc" with chunk size 0 and overlap 0 (an empty chunk at 0 is pushed forever); "abc" with chunk size 0 and overlap 1 (`0 - 1` underflows) | a chunk size of at least one, 0 taken as 1 | not executed | Chunker.AsWrittenZeroSizeStalls | Chunker.EffectiveChunkingCovers |
| src/core/wasm/modules/ml-inference/rust/src/preprocessing.rs:168 | `permuted_axes([1, 2, 0])` leaves the NHWC array non-contiguous, and `write_tensor` (lib.rs:376-377) then fails on `as_slice` | a 2 by 2 RGB image with layout "NHWC" | the NHWC array copied into standard order, so it can be written | not executed | Preprocessing.NhwcAsWrittenWitness | Preprocessing.ConvertLayout |
