/**
 * `TextProcessor`: a bump arena over a growable byte buffer, the codecs the
 * host uses to pass strings and chunking settings in, and the layout of the
 * chunk list handed back.
 *
 * Chunk-list layout, all offsets into the buffer:
 *   header (16 bytes): count, 0, chunks_ptr as 32-bit integers, 4 spare;
 *   per chunk, in order: its text (NUL-terminated, padded to 8) and its
 *   16-byte metadata block (language offset as u64, confidence as f64 bits);
 *   records (24 bytes each, at chunks_ptr): text_ptr, start, end,
 *   metadata_ptr as 32-bit integers, 8 spare bytes left zero.
 */
module TextProcessing {
  import opened Wrappers
  import opened Bytes
  import opened Chunker

  /** A recorded allocation: offset and rounded size. */
  datatype Region = Region(ptr: nat, size: nat)

  /**
   * Every recorded region is 8-aligned and lies inside the buffer, and the
   * regions are in increasing, non-overlapping order.
   */
  predicate RegionsOrdered(rs: seq<Region>, len: nat)
  {
    && (forall i :: 0 <= i < |rs| ==> rs[i].ptr % 8 == 0 && rs[i].size % 8 == 0 && rs[i].ptr + rs[i].size <= len)
    && (forall i, j :: 0 <= i < j < |rs| ==> rs[i].ptr + rs[i].size <= rs[j].ptr)
  }

  /**
   * `after` keeps the regions of `before` as its prefix, and every region
   * it adds starts at or after `from`.
   */
  predicate Grows(before: seq<Region>, after: seq<Region>, from: nat)
  {
    && |before| <= |after| && after[..|before|] == before
    && (forall k :: |before| <= k < |after| ==> from <= after[k].ptr)
  }

  lemma GrowsTrans(a: seq<Region>, b: seq<Region>, c: seq<Region>, from: nat, mid: nat)
    requires Grows(a, b, from) && Grows(b, c, mid) && from <= mid
    ensures Grows(a, c, from)
  {
    assert c[..|a|] == c[..|b|][..|a|];
  }

  /** The regions of `write_chunks`: its header region, those of the bodies, then the record table's. */
  lemma HeaderGrows(a0: seq<Region>, a1: seq<Region>, a2: seq<Region>, a3: seq<Region>, p: nat, q: nat)
    requires a1 == a0 + [Region(p, Round8(12))]
    requires Grows(a1, a2, p + Round8(12)) && p <= q
    requires |a3| == |a2| + 1 && a3[..|a2|] == a2 && a3[|a2|].ptr == q
    ensures Grows(a0, a3, p) && |a3| >= |a0| + 2 && a3[|a0|] == Region(p, Round8(12))
  {
    assert a3[..|a1|] == a2[..|a1|];
    assert a3[..|a0|] == a1[..|a0|];
  }

  /** The index of the first region `(p, s)` with `p == ptr && s >= size`. */
  function FirstFit(rs: seq<Region>, ptr: nat, size: nat): (r: Option<nat>)
    ensures r.Some? ==> r.value < |rs| && rs[r.value].ptr == ptr && rs[r.value].size >= size
    ensures r.Some? ==> forall k :: 0 <= k < r.value ==> !(rs[k].ptr == ptr && rs[k].size >= size)
    ensures r.None? ==> forall k :: 0 <= k < |rs| ==> !(rs[k].ptr == ptr && rs[k].size >= size)
  {
    if rs == [] then None
    else if rs[0].ptr == ptr && rs[0].size >= size then Some(0)
    else match FirstFit(rs[1..], ptr, size)
      case None => None
      case Some(k) => Some(k + 1)
  }

  /** `rs` without its element at `k`. */
  function RemoveAt<T>(rs: seq<T>, k: nat): (r: seq<T>)
    requires k < |rs|
    ensures |r| == |rs| - 1
    ensures forall i :: 0 <= i < k ==> r[i] == rs[i]
    ensures forall i :: k <= i < |r| ==> r[i] == rs[i + 1]
  {
    rs[..k] + rs[k + 1..]
  }

  lemma RemoveKeepsOrder(rs: seq<Region>, k: nat, len: nat)
    requires k < |rs| && RegionsOrdered(rs, len)
    ensures RegionsOrdered(RemoveAt(rs, k), len)
  {
    var r := RemoveAt(rs, k);
    forall i, j | 0 <= i < j < |r|
      ensures r[i].ptr + r[i].size <= r[j].ptr
    {
      var i' := if i < k then i else i + 1;
      var j' := if j < k then j else j + 1;
      assert r[i] == rs[i'] && r[j] == rs[j'];
    }
  }

  lemma Round8Exact(n: nat)
    requires n % 8 == 0
    ensures Round8(n) == n
  {
  }

  lemma Times24(n: nat)
    ensures (24 * n) % 8 == 0 && Round8(24 * n) == 24 * n
  {
    assert 24 * n == 8 * (3 * n);
    Round8Exact(24 * n);
  }

  /** The first slot of a metadata block at `at`: the language string's offset, or 0. */
  function MetadataSlot(at: nat, m: ChunkMetadata): (b: seq<byte>)
    ensures |b| == 8
  {
    match m.language
    case None => Zeros(8)
    case Some(_) => U64Bytes(at + 16)
  }

  /** What follows a metadata block: its language string, if any. */
  function MetadataTail(m: ChunkMetadata): seq<byte>
  {
    match m.language
    case None => []
    case Some(lang) => StringImage(lang)
  }

  /**
   * The bytes `write_metadata` appends when its block is at `at`: the
   * language offset and the confidence bits, then the language string.
   */
  function MetadataImage(at: nat, m: ChunkMetadata): seq<byte>
  {
    MetadataSlot(at, m) + Bits64Bytes(m.confidence) + MetadataTail(m)
  }

  /** What one record of the chunk table says about its chunk. */
  datatype ChunkRecord = ChunkRecord(textPtr: nat, start: nat, end: nat, metadataPtr: nat)

  /** The four fields `write_chunk_data` stores for a record. */
  function RecordFields(r: ChunkRecord): (b: seq<byte>)
    ensures |b| == 16
  {
    U32Bytes(r.textPtr) + U32Bytes(r.start) + U32Bytes(r.end) + U32Bytes(r.metadataPtr)
  }

  /** A record slot: its fields and 8 bytes left as allocated. */
  function RecordBytes(r: ChunkRecord): (b: seq<byte>)
    ensures |b| == 24
  {
    RecordFields(r) + Zeros(8)
  }

  function RecordsImage(rs: seq<ChunkRecord>): (b: seq<byte>)
    ensures |b| == 24 * |rs|
  {
    if rs == [] then [] else RecordsImage(rs[..|rs| - 1]) + RecordBytes(rs[|rs| - 1])
  }

  /** Bytes taken by a metadata block and its language string. */
  function MetadataSize(m: ChunkMetadata): nat
  {
    match m.language
    case None => 16
    case Some(lang) => 16 + Round8(|lang| + 1)
  }

  /**
   * A stretch of the chunk list's body area: a string as `write_string`
   * stores it, a metadata block as `write_metadata` stores it at offset `at`,
   * or several such stretches one after another.
   */
  datatype Block = Text(s: seq<byte>) | Metadata(at: nat, m: ChunkMetadata) | Group(parts: seq<Block>)

  /** The bytes of a block. */
  function Image(b: Block): seq<byte>
    decreases b, 1
  {
    match b
    case Text(s) => StringImage(s)
    case Metadata(at, m) => MetadataImage(at, m)
    case Group(parts) => Images(parts)
  }

  /** The bytes of `bs`, one block after another. */
  function Images(bs: seq<Block>): seq<byte>
    decreases bs, 0
  {
    if bs == [] then [] else Images(bs[..|bs| - 1]) + Image(bs[|bs| - 1])
  }

  /** The number of bytes a block takes, from its contents' lengths alone. */
  function BlockSize(b: Block): nat
    decreases b, 1
  {
    match b
    case Text(s) => Round8(|s| + 1)
    case Metadata(_, m) => MetadataSize(m)
    case Group(parts) => Size(parts)
  }

  function Size(bs: seq<Block>): nat
    decreases bs, 0
  {
    if bs == [] then 0 else Size(bs[..|bs| - 1]) + BlockSize(bs[|bs| - 1])
  }

  /** One chunk's text and, right after it, its metadata block, written from offset `at`. */
  function ChunkBody(at: nat, c: TextChunk): Block
  {
    Group([Text(c.text), Metadata(at + Round8(|c.text| + 1), c.metadata)])
  }

  /** The bodies of the first `n` of `chunks`, written one after another from offset `base` on. */
  function ChunkBodies(base: nat, chunks: seq<TextChunk>, n: nat): (r: seq<Block>)
    requires n <= |chunks|
    ensures |r| == n
  {
    if n == 0 then []
    else
      var prev := ChunkBodies(base, chunks, n - 1);
      prev + [ChunkBody(base + Size(prev), chunks[n - 1])]
  }

  /**
   * The records `write_chunks` collects for the first `n` of `chunks` when
   * their bodies are written from offset `base` on.
   */
  function ChunkRecords(base: nat, chunks: seq<TextChunk>, n: nat): (r: seq<ChunkRecord>)
    requires n <= |chunks|
    ensures |r| == n
  {
    if n == 0 then []
    else
      var c := chunks[n - 1];
      var textPtr := base + Size(ChunkBodies(base, chunks, n - 1));
      ChunkRecords(base, chunks, n - 1) + [ChunkRecord(textPtr, c.start, c.end, textPtr + Round8(|c.text| + 1))]
  }

  /** The three 32-bit header fields: chunk count, global metadata (always 0), record table offset. */
  function HeaderFields(count: nat, chunksPtr: nat): (b: seq<byte>)
    ensures |b| == 12
  {
    U32Bytes(count) + U32Bytes(0) + U32Bytes(chunksPtr)
  }

  /** Everything `write_chunks` appends to a buffer of length `base`. */
  function ChunkListImage(base: nat, chunks: seq<TextChunk>): seq<byte>
  {
    var bodyBase := base + Round8(12);
    var bodies := ChunkBodies(bodyBase, chunks, |chunks|);
    HeaderFields(|chunks|, bodyBase + Size(bodies)) + Zeros(Round8(12) - 12) + Images(bodies)
      + RecordsImage(ChunkRecords(bodyBase, chunks, |chunks|))
  }

  /** The 20 bytes of a chunking configuration: five little-endian 32-bit integers in field order. */
  function EncodeConfig(cfg: TextConfig): (b: seq<byte>)
    ensures |b| == 20
  {
    U32Bytes(cfg.chunkSize) + U32Bytes(cfg.overlap)
      + FlagBytes(cfg.preserveWhitespace) + FlagBytes(cfg.preserveNewlines) + FlagBytes(cfg.trimChunks)
  }

  /**
   * `read_config` on the five fields: the sizes are the fields' unsigned
   * 32-bit values (an `i32` cast to a 32-bit `usize`), and each flag is
   * true exactly when some byte of its field is nonzero.
   */
  function DecodeConfig(b: seq<byte>): (cfg: TextConfig)
    requires |b| == 20
    ensures cfg.chunkSize < TWO32 && cfg.overlap < TWO32
    ensures cfg.preserveWhitespace <==> b[8..12] != [0, 0, 0, 0]
    ensures cfg.preserveNewlines <==> b[12..16] != [0, 0, 0, 0]
    ensures cfg.trimChunks <==> b[16..20] != [0, 0, 0, 0]
  {
    U32OfZero(b[8..12]);
    U32OfZero(b[12..16]);
    U32OfZero(b[16..20]);
    TextConfig(U32Of(b[0..4]), U32Of(b[4..8]), U32Of(b[8..12]) != 0, U32Of(b[12..16]) != 0, U32Of(b[16..20]) != 0)
  }

  /** A configuration whose sizes fit in 32 bits reads back as written. */
  lemma {:induction false} ConfigRoundTrip(cfg: TextConfig)
    requires cfg.chunkSize < TWO32 && cfg.overlap < TWO32
    ensures DecodeConfig(EncodeConfig(cfg)) == cfg
  {
    var b := EncodeConfig(cfg);
    assert b[0..4] == U32Bytes(cfg.chunkSize);
    assert b[4..8] == U32Bytes(cfg.overlap);
    assert b[8..12] == FlagBytes(cfg.preserveWhitespace);
    assert b[12..16] == FlagBytes(cfg.preserveNewlines);
    assert b[16..20] == FlagBytes(cfg.trimChunks);
    U32OfFits(cfg.chunkSize);
    U32OfFits(cfg.overlap);
  }

  class TextProcessor {
    var memory: seq<byte>
    var allocations: seq<Region>

    predicate Valid()
      reads this
    {
      |memory| % 8 == 0 && RegionsOrdered(allocations, |memory|)
    }

    /** An empty arena (the 1 MiB reservation affects capacity only). */
    constructor()
      ensures Valid() && memory == [] && allocations == []
    {
      memory := [];
      allocations := [];
    }

    /**
     * Bump allocation: the new region starts at the old end of the buffer,
     * which grows by the size rounded up to 8 with zero bytes.
     */
    method Allocate(size: nat) returns (ptr: nat)
      requires Valid()
      modifies this
      ensures Valid()
      ensures ptr == old(|memory|) && ptr % 8 == 0
      ensures memory == old(memory) + Zeros(Round8(size))
      ensures allocations == old(allocations) + [Region(ptr, Round8(size))]
    {
      var alignedSize := Round8(size);
      ptr := |memory|;
      memory := memory + Zeros(alignedSize);
      allocations := allocations + [Region(ptr, alignedSize)];
    }

    /**
     * Forgets the first record `(p, s)` with `p == ptr && s >= size`, if
     * any; the buffer is never shrunk or cleared.
     */
    method Deallocate(ptr: nat, size: nat)
      requires Valid()
      modifies this
      ensures Valid() && memory == old(memory)
      ensures FirstFit(old(allocations), ptr, size).None? ==> allocations == old(allocations)
      ensures FirstFit(old(allocations), ptr, size).Some? ==>
        allocations == RemoveAt(old(allocations), FirstFit(old(allocations), ptr, size).value)
    {
      var index := 0;
      while index < |allocations| && !(allocations[index].ptr == ptr && allocations[index].size >= size)
        invariant 0 <= index <= |allocations|
        invariant forall k :: 0 <= k < index ==> !(allocations[k].ptr == ptr && allocations[k].size >= size)
      {
        index := index + 1;
      }
      if index < |allocations| {
        FirstFitIs(allocations, ptr, size, index);
        RemoveKeepsOrder(allocations, index, |memory|);
        allocations := RemoveAt(allocations, index);
      } else {
        FirstFitNone(allocations, ptr, size);
      }
    }

    /** Empties both the buffer and the allocation records. */
    method Cleanup()
      modifies this
      ensures Valid() && memory == [] && allocations == []
    {
      memory := [];
      allocations := [];
    }

    /** `read_config`: the five fields at `ptr`, or None where they would run past the buffer. */
    function ReadConfig(ptr: nat): (r: Option<TextConfig>)
      reads this
      ensures r.Some? <==> ptr + 20 <= |memory|
      ensures r.Some? ==> r.value.chunkSize < TWO32 && r.value.overlap < TWO32
    {
      if ptr + 20 <= |memory| then Some(DecodeConfig(memory[ptr..ptr + 20])) else None
    }

    /**
     * `chunk_text`: reads the text and the configuration, chunks the text
     * (given as its grapheme segmentation `g`) and writes the chunk list.
     */
    method ChunkText(textPtr: nat, configPtr: nat, g: seq<seq<byte>>) returns (resultPtr: nat)
      requires Valid() && OneByte(g)
      requires CStringAt(memory, textPtr) == Some(Chunker.Concat(g))
      requires ReadConfig(configPtr).Some?
      modifies this
      ensures Valid() && resultPtr == old(|memory|)
      ensures memory == old(memory) + ChunkListImage(resultPtr, Chunker.ChunkText(g, Effective(old(ReadConfig(configPtr)).value)))
      ensures Grows(old(allocations), allocations, resultPtr)
    {
      var text := ReadString(textPtr);
      assert text == Some(Chunker.Concat(g));
      var config := ReadConfig(configPtr).value;
      var chunks := ChunkTextImpl(g, config);
      resultPtr := WriteChunks(chunks);
    }

    /** `process_text`: chunks the text at `textPtr` with the fixed settings and writes the chunk list. */
    method ProcessText(textPtr: nat, g: seq<seq<byte>>) returns (resultPtr: nat)
      requires Valid() && OneByte(g)
      requires CStringAt(memory, textPtr) == Some(Chunker.Concat(g))
      modifies this
      ensures Valid() && resultPtr == old(|memory|)
      ensures memory == old(memory) + ChunkListImage(resultPtr, Chunker.ChunkText(g, PROCESS_TEXT_CONFIG))
      ensures Grows(old(allocations), allocations, resultPtr)
    {
      var text := ReadString(textPtr);
      assert text == Some(Chunker.Concat(g));
      var chunks := ChunkTextImpl(g, PROCESS_TEXT_CONFIG);
      resultPtr := WriteChunks(chunks);
    }

    /** Reads the NUL-terminated string at `ptr`; None where the scan would run off the buffer. */
    method ReadString(ptr: nat) returns (r: Option<seq<byte>>)
      ensures r == CStringAt(memory, ptr)
    {
      var len := 0;
      while true
        invariant forall j :: ptr <= j < ptr + len ==> j < |memory| && memory[j] != 0
        decreases |memory| - (ptr + len)
      {
        if ptr + len >= |memory| {
          return None;
        }
        if memory[ptr + len] == 0 {
          break;
        }
        len := len + 1;
      }
      assert NulFrom(memory, ptr) == Some(ptr + len) by {
        NulFromIs(memory, ptr, ptr + len);
      }
      r := Some(memory[ptr..ptr + len]);
    }

    /**
     * Copies `s` and a terminating zero into a fresh region; a string
     * without zero bytes reads back unchanged from the returned offset.
     */
    method WriteString(s: seq<byte>) returns (ptr: nat)
      requires Valid()
      modifies this
      ensures Valid()
      ensures ptr == old(|memory|) && memory == old(memory) + StringImage(s)
      ensures allocations == old(allocations) + [Region(ptr, Round8(|s| + 1))]
      ensures NoNul(s) ==> CStringAt(memory, ptr) == Some(s)
    {
      ptr := Allocate(|s| + 1);
      StringStored(old(memory), s, Round8(|s| + 1));
      memory := Splice(memory, ptr, s + [0]);
      if NoNul(s) {
        StringReadsBack(old(memory), s);
      }
    }

    /**
     * Writes a 16-byte metadata block: the language offset (0 for none) and
     * the confidence bits; a language string is written right after the block.
     */
    method WriteMetadata(m: ChunkMetadata) returns (ptr: nat)
      requires Valid()
      modifies this
      ensures Valid()
      ensures ptr == old(|memory|) && memory == old(memory) + MetadataImage(ptr, m)
      ensures allocations == old(allocations) + [Region(ptr, Round8(16))]
        + (if m.language.Some? then [Region(ptr + Round8(16), Round8(|m.language.value| + 1))] else [])
    {
      ptr := Allocate(16);
      ghost var block := memory;
      var slot0: seq<byte> := Zeros(8);
      if m.language.Some? {
        var langPtr := WriteString(m.language.value);
        slot0 := U64Bytes(langPtr);
      } else {
        assert memory == block + MetadataTail(m);
      }
      MetadataStored(old(memory), m, Round8(16));
      memory := Splice(memory, ptr, slot0 + Bits64Bytes(m.confidence));
    }

    /** Fills the first 16 bytes of record slot `i`, the slot at `offset`. */
    method StoreRecord(data: seq<ChunkRecord>, i: nat, offset: nat, ghost base: seq<byte>, ghost rest: nat)
      requires i < |data| && rest == 24 * (|data| - i) && offset == |base| + 24 * i
      requires memory == base + RecordsImage(data[..i]) + Zeros(rest)
      modifies this
      ensures memory == base + RecordsImage(data[..i + 1]) + Zeros(rest - 24)
      ensures allocations == old(allocations) && |memory| == old(|memory|)
    {
      RecordStored(base, data, i, rest);
      memory := Splice(memory, offset, RecordFields(data[i]));
    }

    /** Allocates 24 bytes per record and fills the first 16 of each. */
    method WriteChunkData(data: seq<ChunkRecord>) returns (ptr: nat)
      requires Valid()
      modifies this
      ensures Valid()
      ensures ptr == old(|memory|) && memory == old(memory) + RecordsImage(data)
      ensures allocations == old(allocations) + [Region(ptr, Round8(24 * |data|))]
    {
      ptr := Allocate(24 * |data|);
      Times24(|data|);
      ghost var base := old(memory);
      ghost var rest := Round8(24 * |data|);
      assert memory == base + RecordsImage(data[..0]) + Zeros(rest);
      var i := 0;
      while i < |data|
        invariant 0 <= i <= |data| && ptr == |base|
        invariant Valid()
        invariant rest == 24 * (|data| - i)
        invariant memory == base + RecordsImage(data[..i]) + Zeros(rest)
        invariant allocations == old(allocations) + [Region(ptr, Round8(24 * |data|))]
      {
        StoreRecord(data, i, ptr + 24 * i, base, rest);
        rest := rest - 24;
        i := i + 1;
      }
      assert data[..|data|] == data;
    }

    /** Writes one chunk's text and then its metadata, and returns the chunk's record. */
    method WriteChunkBody(c: TextChunk) returns (r: ChunkRecord)
      requires Valid()
      modifies this
      ensures Valid()
      ensures r == ChunkRecord(old(|memory|), c.start, c.end, old(|memory|) + Round8(|c.text| + 1))
      ensures memory == old(memory) + Image(ChunkBody(old(|memory|), c))
      ensures allocations == old(allocations) + [Region(r.textPtr, Round8(|c.text| + 1)), Region(r.metadataPtr, Round8(16))]
        + (if c.metadata.language.Some? then [Region(r.metadataPtr + Round8(16), Round8(|c.metadata.language.value| + 1))] else [])
      ensures Grows(old(allocations), allocations, old(|memory|))
    {
      StringImageSize(c.text);
      var textPtr := WriteString(c.text);
      var metadataPtr := WriteMetadata(c.metadata);
      PairStored(old(memory), memory, Text(c.text), Metadata(metadataPtr, c.metadata));
      r := ChunkRecord(textPtr, c.start, c.end, metadataPtr);
    }

    /**
     * Writes the chunk list: the header, then each chunk's text and
     * metadata, then the record table, and returns the header's offset.
     */
    method WriteChunks(chunks: seq<TextChunk>) returns (resultPtr: nat)
      requires Valid()
      modifies this
      ensures Valid()
      ensures resultPtr == old(|memory|)
      ensures memory == old(memory) + ChunkListImage(resultPtr, chunks)
      ensures Grows(old(allocations), allocations, resultPtr) && |allocations| >= |old(allocations)| + 2
      ensures allocations[|old(allocations)|] == Region(resultPtr, Round8(12))
    {
      resultPtr := Allocate(12);
      ghost var header := allocations;
      var data := WriteChunkBodies(chunks);
      ghost var bodied := allocations;
      var chunksPtr := WriteChunkData(data);
      HeaderGrows(old(allocations), header, bodied, allocations, resultPtr, chunksPtr);
      ghost var bodyBase := resultPtr + Round8(12);
      ghost var bodies := Images(ChunkBodies(bodyBase, chunks, |chunks|));
      ghost var records := RecordsImage(data);
      HeaderStored(old(memory), resultPtr, HeaderFields(|chunks|, chunksPtr), bodies, records);
      ImagesSize(ChunkBodies(bodyBase, chunks, |chunks|));
      ChunkListParts(resultPtr, chunks, bodies, records, chunksPtr);
      memory := Splice(memory, resultPtr, HeaderFields(|chunks|, chunksPtr));
    }

    /** The loop of `write_chunks`: each chunk's text and metadata, collecting the records. */
    method WriteChunkBodies(chunks: seq<TextChunk>) returns (data: seq<ChunkRecord>)
      requires Valid()
      modifies this
      ensures Valid()
      ensures memory == old(memory) + Images(ChunkBodies(old(|memory|), chunks, |chunks|))
      ensures data == ChunkRecords(old(|memory|), chunks, |chunks|)
      ensures Grows(old(allocations), allocations, old(|memory|))
    {
      ghost var base := |memory|;
      data := [];
      var i := 0;
      while i < |chunks|
        invariant 0 <= i <= |chunks|
        invariant Valid()
        invariant memory == old(memory) + Images(ChunkBodies(base, chunks, i))
        invariant data == ChunkRecords(base, chunks, i)
        invariant base <= |memory| && Grows(old(allocations), allocations, base)
      {
        ghost var before := allocations;
        ghost var mid := |memory|;
        var r := WriteNextBody(chunks, i, old(memory), base);
        GrowsTrans(old(allocations), before, allocations, base, mid);
        data := data + [r];
        i := i + 1;
      }
    }

    /** One turn of the loop of `write_chunks`: chunk `i`'s body goes after those of the chunks before it. */
    method WriteNextBody(chunks: seq<TextChunk>, i: nat, ghost start: seq<byte>, ghost base: nat) returns (r: ChunkRecord)
      requires Valid() && i < |chunks| && base == |start|
      requires memory == start + Images(ChunkBodies(base, chunks, i))
      modifies this
      ensures Valid()
      ensures memory == start + Images(ChunkBodies(base, chunks, i + 1))
      ensures ChunkRecords(base, chunks, i) + [r] == ChunkRecords(base, chunks, i + 1)
      ensures Grows(old(allocations), allocations, old(|memory|))
    {
      ghost var mem := memory;
      ghost var prev := ChunkBodies(base, chunks, i);
      ImagesSize(prev);
      r := WriteChunkBody(chunks[i]);
      BodiesNext(base, chunks, i);
      ImagesSnoc(start, mem, prev, ChunkBody(base + Size(prev), chunks[i]), ChunkBodies(base, chunks, i + 1));
      RecordsSnoc(base, chunks, i, r);
    }
  }

  lemma {:induction false} MetadataStored(prefix: seq<byte>, m: ChunkMetadata, n: nat)
    requires n == 16
    ensures Splice(prefix + Zeros(n) + MetadataTail(m), |prefix|, MetadataSlot(|prefix|, m) + Bits64Bytes(m.confidence))
      == prefix + MetadataImage(|prefix|, m)
  {
    var d := MetadataSlot(|prefix|, m) + Bits64Bytes(m.confidence);
    SpliceInside(prefix, Zeros(n), d, MetadataTail(m));
    Assoc(prefix, d, MetadataTail(m));
  }

  lemma {:induction false} RecordStored(base: seq<byte>, data: seq<ChunkRecord>, i: nat, rest: nat)
    requires i < |data| && rest == 24 * (|data| - i)
    ensures Splice(base + RecordsImage(data[..i]) + Zeros(rest), |base| + 24 * i, RecordFields(data[i]))
      == base + RecordsImage(data[..i + 1]) + Zeros(rest - 24)
  {
    var p := base + RecordsImage(data[..i]);
    var f := RecordFields(data[i]);
    SpliceOverZeros(p, f, rest);
    ZerosSplit(8, rest - 24);
    assert data[..i + 1][..i] == data[..i];
    assert p + (f + Zeros(rest - 16)) == base + (RecordsImage(data[..i]) + (f + Zeros(8))) + Zeros(rest - 24);
  }

  /** The 12 header bytes land at the front of the zeroed, 16-byte header block. */
  lemma {:induction false} HeaderStored(prefix: seq<byte>, base: nat, fields: seq<byte>, bodies: seq<byte>, records: seq<byte>)
    requires base == |prefix| && |fields| == 12
    ensures Splice(prefix + Zeros(Round8(12)) + bodies + records, base, fields)
      == prefix + (fields + Zeros(Round8(12) - 12) + bodies + records)
  {
    ZerosCut(Round8(12), 12);
    var pad := Zeros(Round8(12) - 12);
    Regroup(prefix, Zeros(12), pad, bodies, records);
    SpliceInside(prefix, Zeros(12), fields, pad + bodies + records);
    Regroup(prefix, fields, pad, bodies, records);
  }

  /** A chunk list is its header, its padding, its bodies and its records, once their bytes are known. */
  lemma {:induction false} ChunkListParts(base: nat, chunks: seq<TextChunk>, bodies: seq<byte>, records: seq<byte>, chunksPtr: nat)
    requires bodies == Images(ChunkBodies(base + Round8(12), chunks, |chunks|))
    requires records == RecordsImage(ChunkRecords(base + Round8(12), chunks, |chunks|))
    requires chunksPtr == base + Round8(12) + Size(ChunkBodies(base + Round8(12), chunks, |chunks|))
    ensures ChunkListImage(base, chunks) == HeaderFields(|chunks|, chunksPtr) + Zeros(Round8(12) - 12) + bodies + records
  {
  }

  /** Re-bracketing a five-part concatenation around its second part. */
  lemma {:induction false} Regroup(p: seq<byte>, a: seq<byte>, b: seq<byte>, c: seq<byte>, d: seq<byte>)
    ensures p + (a + b) + c + d == p + a + (b + c + d)
    ensures p + a + (b + c + d) == p + (a + b + c + d)
  {
  }

  lemma {:induction false} MetadataImageSize(at: nat, m: ChunkMetadata)
    ensures |MetadataImage(at, m)| == MetadataSize(m)
  {
  }

  /** Every block takes exactly the bytes its size says: the offsets the records carry are where the bytes land. */
  lemma {:induction false} ImageSize(b: Block)
    ensures |Image(b)| == BlockSize(b)
    decreases b, 1
  {
    match b
    case Text(s) => StringImageSize(s);
    case Metadata(at, m) => MetadataImageSize(at, m);
    case Group(parts) => ImagesSize(parts);
  }

  lemma {:induction false} ImagesSize(bs: seq<Block>)
    ensures |Images(bs)| == Size(bs)
    decreases bs, 0
  {
    if bs != [] {
      ImagesSize(bs[..|bs| - 1]);
      ImageSize(bs[|bs| - 1]);
    }
  }

  /** The bytes of two runs of blocks, one after the other. */
  lemma {:induction false} ImagesAppend(a: seq<Block>, b: seq<Block>)
    ensures Images(a + b) == Images(a) + Images(b)
    decreases |b|
  {
    if b == [] {
      assert a + b == a;
    } else {
      var b' := b[..|b| - 1];
      assert (a + b)[..|a + b| - 1] == a + b';
      assert (a + b)[|a + b| - 1] == b[|b| - 1];
      ImagesAppend(a, b');
      Assoc(Images(a), Images(b'), Image(b[|b| - 1]));
    }
  }

  /** A group of two blocks is the first block's bytes followed by the second's. */
  lemma {:induction false} PairImage(x: Block, y: Block)
    ensures Image(Group([x, y])) == Image(x) + Image(y)
  {
    ImagesOne(x);
    ImagesOne(y);
    ImagesAppend([x], [y]);
    assert [x] + [y] == [x, y];
  }

  lemma {:induction false} PairStored(prefix: seq<byte>, mem: seq<byte>, x: Block, y: Block)
    requires mem == prefix + Image(x) + Image(y)
    ensures mem == prefix + Image(Group([x, y]))
  {
    PairImage(x, y);
    Assoc(prefix, Image(x), Image(y));
  }

  lemma {:induction false} ImagesOne(x: Block)
    ensures Images([x]) == Image(x)
  {
    assert [x][..0] == [];
  }

  /** Block `x` written after the blocks `p` already in memory. */
  lemma {:induction false} ImagesSnoc(start: seq<byte>, mem: seq<byte>, p: seq<Block>, x: Block, r: seq<Block>)
    requires mem == start + Images(p) && r == p + [x]
    ensures mem + Image(x) == start + Images(r)
  {
    ImagesAppend(p, [x]);
    ImagesOne(x);
    Assoc(start, Images(p), Image(x));
  }

  /** One more chunk written: its body follows the earlier ones, at the offset they end at. */
  lemma {:induction false} BodiesNext(base: nat, chunks: seq<TextChunk>, i: nat)
    requires i < |chunks|
    ensures ChunkBodies(base, chunks, i + 1)
      == ChunkBodies(base, chunks, i) + [ChunkBody(base + Size(ChunkBodies(base, chunks, i)), chunks[i])]
  {
  }

  /** One more chunk written: its record follows the earlier ones. */
  lemma {:induction false} RecordsSnoc(base: nat, chunks: seq<TextChunk>, i: nat, r: ChunkRecord)
    requires i < |chunks|
    requires r.textPtr == base + Size(ChunkBodies(base, chunks, i)) && r.metadataPtr == r.textPtr + Round8(|chunks[i].text| + 1)
    requires r.start == chunks[i].start && r.end == chunks[i].end
    ensures ChunkRecords(base, chunks, i) + [r] == ChunkRecords(base, chunks, i + 1)
  {
  }

  lemma FirstFitIs(rs: seq<Region>, ptr: nat, size: nat, k: nat)
    requires k < |rs| && rs[k].ptr == ptr && rs[k].size >= size
    requires forall j :: 0 <= j < k ==> !(rs[j].ptr == ptr && rs[j].size >= size)
    ensures FirstFit(rs, ptr, size) == Some(k)
  {
  }

  lemma FirstFitNone(rs: seq<Region>, ptr: nat, size: nat)
    requires forall j :: 0 <= j < |rs| ==> !(rs[j].ptr == ptr && rs[j].size >= size)
    ensures FirstFit(rs, ptr, size) == None
  {
  }

  lemma NulFromIs(mem: seq<byte>, i: nat, j: nat)
    requires i <= j < |mem| && mem[j] == 0
    requires forall k :: i <= k < j ==> mem[k] != 0
    ensures NulFrom(mem, i) == Some(j)
    decreases j - i
  {
    if i < j {
      NulFromIs(mem, i + 1, j);
    }
  }

}
