/**
 * The chunk list read back: where a reader of the buffer finds the header,
 * each 24-byte record, each chunk's text and each metadata block, once
 * `write_chunks` has appended the list.
 */
module ChunkList {
  import opened Wrappers
  import opened Bytes
  import opened Chunker
  import opened TextProcessing

  /** Bytes in place inside a part of the buffer are in place in the whole buffer. */
  lemma {:induction false} AtWithin(p: seq<byte>, x: seq<byte>, q: seq<byte>, off: nat, d: seq<byte>)
    requires At(x, off, d)
    ensures At(p + x + q, |p| + off, d)
  {
    assert (p + x + q)[|p| + off..|p| + off + |d|] == x[off..off + |d|];
  }

  /** Record `i` of a table sits at `24 * i`: its four fields, then 8 zero bytes. */
  lemma {:induction false} RecordAt(rs: seq<ChunkRecord>, i: nat)
    requires i < |rs|
    ensures At(RecordsImage(rs), 24 * i, RecordFields(rs[i]) + Zeros(8))
  {
    var init := rs[..|rs| - 1];
    assert RecordsImage(rs) == RecordsImage(init) + RecordBytes(rs[|rs| - 1]);
    if i == |rs| - 1 {
      AtSuffix(RecordsImage(init), RecordBytes(rs[i]));
    } else {
      RecordAt(init, i);
      assert init[i] == rs[i];
      AtAppend(RecordsImage(init), 24 * i, RecordFields(rs[i]) + Zeros(8), RecordBytes(rs[|rs| - 1]));
    }
  }

  /** The first `i` records of a longer run are the records of the first `i` chunks. */
  lemma {:induction false} RecordsPrefix(base: nat, chunks: seq<TextChunk>, i: nat, n: nat)
    requires i <= n <= |chunks|
    ensures ChunkRecords(base, chunks, n)[..i] == ChunkRecords(base, chunks, i)
  {
    if i < n {
      RecordsPrefix(base, chunks, i, n - 1);
      assert ChunkRecords(base, chunks, n)[..n - 1] == ChunkRecords(base, chunks, n - 1);
    }
  }

  /**
   * Record `i` carries chunk `i`'s bounds, the offset `at` its body starts
   * at, and the offset of its metadata block right after its text.
   */
  lemma {:induction false} RecordOf(base: nat, chunks: seq<TextChunk>, n: nat, i: nat, rs: seq<ChunkRecord>, at: nat)
    requires i < n <= |chunks|
    requires rs == ChunkRecords(base, chunks, n)
    requires at == base + Size(ChunkBodies(base, chunks, i))
    ensures i < |rs| && rs[i] == ChunkRecord(at, chunks[i].start, chunks[i].end, at + Round8(|chunks[i].text| + 1))
  {
    var r := ChunkRecord(at, chunks[i].start, chunks[i].end, at + Round8(|chunks[i].text| + 1));
    var prev := ChunkRecords(base, chunks, i);
    var next := ChunkRecords(base, chunks, i + 1);
    RecordsPrefix(base, chunks, i + 1, n);
    RecordsSnoc(base, chunks, i, r);
    assert next == prev + [r];
    assert rs[i] == next[i];
  }

  /** The first `i` bodies of a longer run are the bodies of the first `i` chunks. */
  lemma {:induction false} BodiesPrefix(base: nat, chunks: seq<TextChunk>, i: nat, n: nat)
    requires i <= n <= |chunks|
    ensures ChunkBodies(base, chunks, n)[..i] == ChunkBodies(base, chunks, i)
  {
    if i < n {
      BodiesPrefix(base, chunks, i, n - 1);
      assert ChunkBodies(base, chunks, n)[..n - 1] == ChunkBodies(base, chunks, n - 1);
    }
  }

  /** Body `i` is chunk `i`'s text and metadata, written at `at`, where the bodies before it end. */
  lemma {:induction false} BodyOf(base: nat, chunks: seq<TextChunk>, n: nat, i: nat, bs: seq<Block>, at: nat)
    requires i < n <= |chunks|
    requires bs == ChunkBodies(base, chunks, n)
    requires at == base + Size(ChunkBodies(base, chunks, i))
    ensures bs[i] == ChunkBody(at, chunks[i])
  {
    var prev := ChunkBodies(base, chunks, i);
    var next := ChunkBodies(base, chunks, i + 1);
    BodiesPrefix(base, chunks, i + 1, n);
    BodiesNext(base, chunks, i);
    assert next == prev + [ChunkBody(at, chunks[i])];
    assert bs[i] == next[i];
  }

  /** Block `i` of a run sits in the run's bytes at the total size of the blocks before it. */
  lemma {:induction false} ImagesAt(bs: seq<Block>, i: nat)
    requires i < |bs|
    ensures At(Images(bs), Size(bs[..i]), Image(bs[i]))
  {
    var init := bs[..|bs| - 1];
    var last := bs[|bs| - 1];
    assert Images(bs) == Images(init) + Image(last);
    if i == |bs| - 1 {
      ImagesSize(init);
      assert bs[..i] == init;
      AtSuffix(Images(init), Image(last));
    } else {
      ImagesAt(init, i);
      assert init[..i] == bs[..i];
      assert init[i] == bs[i];
      AtAppend(Images(init), Size(bs[..i]), Image(bs[i]), Image(last));
    }
  }

  /** Chunk `i`'s body sits in the body area at the total size of the bodies before it. */
  lemma {:induction false} BodyAt(base: nat, chunks: seq<TextChunk>, i: nat, all: seq<Block>, before: nat, at: nat)
    requires i < |chunks|
    requires all == ChunkBodies(base, chunks, |chunks|)
    requires before == Size(ChunkBodies(base, chunks, i))
    requires at == base + before
    ensures At(Images(all), before, Image(ChunkBody(at, chunks[i])))
  {
    ImagesAt(all, i);
    BodiesPrefix(base, chunks, i, |chunks|);
    BodyOf(base, chunks, |chunks|, i, all, at);
    assert Size(all[..i]) == before;
  }

  /** The bytes at the front of a concatenation. */
  lemma {:induction false} AtFront(a: seq<byte>, b: seq<byte>)
    ensures At(a + b, 0, a)
  {
    assert (a + b)[..|a|] == a;
  }

  /** A chunk's body starts with its text as a C string. */
  lemma {:induction false} TextInBody(at: nat, c: TextChunk)
    ensures At(Image(ChunkBody(at, c)), 0, c.text + [0])
  {
    var metaAt := at + Round8(|c.text| + 1);
    PairImage(Text(c.text), Metadata(metaAt, c.metadata));
    var t := c.text + [0];
    var s := StringImage(c.text);
    var pad := Zeros(Round8(|c.text| + 1) - |t|);
    var m := MetadataImage(metaAt, c.metadata);
    assert s == t + pad;
    AtFront(s, m);
    AtSplit(s + m, 0, t, pad);
  }

  /** A chunk's metadata slots follow its text, at the text's length rounded up to 8. */
  lemma {:induction false} SlotsInBody(at: nat, c: TextChunk)
    ensures At(Image(ChunkBody(at, c)), Round8(|c.text| + 1),
               MetadataSlot(at + Round8(|c.text| + 1), c.metadata) + Bits64Bytes(c.metadata.confidence))
  {
    var metaAt := at + Round8(|c.text| + 1);
    PairImage(Text(c.text), Metadata(metaAt, c.metadata));
    StringImageSize(c.text);
    var s := StringImage(c.text);
    var slots := MetadataSlot(metaAt, c.metadata) + Bits64Bytes(c.metadata.confidence);
    var m := MetadataImage(metaAt, c.metadata);
    assert m == slots + MetadataTail(c.metadata);
    AtSuffix(s, m);
    AtSplit(s + m, |s|, slots, MetadataTail(c.metadata));
  }

  /** Bytes in place inside a part in place are in place in the whole. */
  lemma {:induction false} AtNested(area: seq<byte>, off: nat, body: seq<byte>, k: nat, d: seq<byte>)
    requires At(area, off, body) && At(body, k, d)
    ensures At(area, off + k, d)
  {
    forall j | 0 <= j < |d|
      ensures area[off + k + j] == d[j]
    {
      assert area[off..off + |body|][k + j] == body[k + j];
      assert body[k..k + |d|][j] == body[k + j];
    }
    assert area[off + k..off + k + |d|] == d;
  }

  /** The header sits at the start of the list. */
  lemma {:induction false} InHeader(prefix: seq<byte>, list: seq<byte>, h: seq<byte>, z: seq<byte>, area: seq<byte>, table: seq<byte>)
    requires list == h + z + area + table
    ensures At(prefix + list, |prefix|, h)
  {
    assert (prefix + list)[|prefix|..|prefix| + |h|] == h;
  }

  /** Bytes in place in a body in place in the body area, in place in the buffer at `at`. */
  lemma {:induction false} InArea(prefix: seq<byte>, list: seq<byte>, h: seq<byte>, z: seq<byte>, area: seq<byte>, table: seq<byte>,
               off: nat, body: seq<byte>, k: nat, d: seq<byte>, at: nat)
    requires list == h + z + area + table
    requires At(area, off, body) && At(body, k, d)
    requires at == |prefix| + |h| + |z| + off + k
    ensures At(prefix + list, at, d)
  {
    AtNested(area, off, body, k, d);
    assert (prefix + list)[at..at + |d|] == area[off + k..off + k + |d|];
  }

  /** Bytes in place in the record table, in place in the buffer at `at`. */
  lemma {:induction false} InTable(prefix: seq<byte>, list: seq<byte>, h: seq<byte>, z: seq<byte>, area: seq<byte>, table: seq<byte>,
                off: nat, d: seq<byte>, at: nat)
    requires list == h + z + area + table
    requires At(table, off, d)
    requires at == |prefix| + |h| + |z| + |area| + off
    ensures At(prefix + list, at, d)
  {
    assert (prefix + list)[at..at + |d|] == table[off..off + |d|];
  }

  /**
   * Record `i` of the table as a reader finds it: 24 bytes per record on
   * from the table's offset, its four fields and then 8 zero bytes.
   */
  lemma {:induction false} RecordReadBack(prefix: seq<byte>, list: seq<byte>, h: seq<byte>, z: seq<byte>, area: seq<byte>,
                       records: seq<ChunkRecord>, chunksPtr: nat, i: nat)
    requires list == h + z + area + RecordsImage(records)
    requires chunksPtr == |prefix| + |h| + |z| + |area|
    requires i < |records|
    ensures At(prefix + list, chunksPtr + 24 * i, RecordFields(records[i]) + Zeros(8))
  {
    RecordAt(records, i);
    InTable(prefix, list, h, z, area, RecordsImage(records), 24 * i, RecordFields(records[i]) + Zeros(8), chunksPtr + 24 * i);
  }

  /**
   * A chunk's body as a reader finds it, when the body sits in the body
   * area at `at`: its text (when it holds no zero byte) as a C string at
   * `at`, and its language slot and confidence bits after the text,
   * rounded up to 8 bytes.
   */
  lemma {:induction false} BodyReadBack(prefix: seq<byte>, list: seq<byte>, h: seq<byte>, z: seq<byte>, bodies: seq<Block>, table: seq<byte>,
                     before: nat, at: nat, c: TextChunk)
    requires list == h + z + Images(bodies) + table
    requires At(Images(bodies), before, Image(ChunkBody(at, c)))
    requires at == |prefix| + |h| + |z| + before
    ensures NoNul(c.text) ==> CStringAt(prefix + list, at) == Some(c.text)
    ensures var metadataPtr := at + Round8(|c.text| + 1);
      At(prefix + list, metadataPtr, MetadataSlot(metadataPtr, c.metadata) + Bits64Bytes(c.metadata.confidence))
  {
    var area := Images(bodies);
    var body := Image(ChunkBody(at, c));
    var metadataPtr := at + Round8(|c.text| + 1);
    TextInBody(at, c);
    SlotsInBody(at, c);
    InArea(prefix, list, h, z, area, table, before, body, 0, c.text + [0], at);
    InArea(prefix, list, h, z, area, table, before, body, Round8(|c.text| + 1),
           MetadataSlot(metadataPtr, c.metadata) + Bits64Bytes(c.metadata.confidence), metadataPtr);
    if NoNul(c.text) {
      CStringRoundTrip(prefix + list, at, c.text);
    }
  }

  /**
   * Chunk `i` in the body area and in the record table: its body sits
   * where the bodies before it end, and its record points at that body.
   */
  lemma {:induction false} EntryLayout(base: nat, chunks: seq<TextChunk>, i: nat,
                                       bodies: seq<Block>, records: seq<ChunkRecord>, before: nat, at: nat)
    requires i < |chunks|
    requires bodies == ChunkBodies(base, chunks, |chunks|)
    requires records == ChunkRecords(base, chunks, |chunks|)
    requires before == Size(ChunkBodies(base, chunks, i))
    requires at == base + before
    ensures At(Images(bodies), before, Image(ChunkBody(at, chunks[i])))
    ensures i < |records| && records[i] == ChunkRecord(at, chunks[i].start, chunks[i].end, at + Round8(|chunks[i].text| + 1))
  {
    RecordOf(base, chunks, |chunks|, i, records, at);
    BodyAt(base, chunks, i, bodies, before, at);
  }

  /**
   * The body behind a record as a reader finds it, when the record points
   * at a body written for `c`: the text behind its text offset and the
   * metadata behind its metadata offset.
   */
  lemma {:induction false} EntryReadBack(prefix: seq<byte>, list: seq<byte>, h: seq<byte>, z: seq<byte>,
                                         bodies: seq<Block>, table: seq<byte>,
                                         before: nat, at: nat, c: TextChunk, r: ChunkRecord)
    requires list == h + z + Images(bodies) + table
    requires at == |prefix| + |h| + |z| + before
    requires At(Images(bodies), before, Image(ChunkBody(at, c)))
    requires r == ChunkRecord(at, c.start, c.end, at + Round8(|c.text| + 1))
    ensures NoNul(c.text) ==> CStringAt(prefix + list, r.textPtr) == Some(c.text)
    ensures At(prefix + list, r.metadataPtr, MetadataSlot(r.metadataPtr, c.metadata) + Bits64Bytes(c.metadata.confidence))
  {
    BodyReadBack(prefix, list, h, z, bodies, table, before, at, c);
  }

  /**
   * The chunk list as a reader finds it, once its bytes `list` sit after
   * `prefix`; `ChunkListParts` splits `ChunkListImage` into exactly the
   * parts this lemma takes. The header at the list's offset holds the
   * count, 0 and the record table's offset; record `i` of the table holds
   * chunk `i`'s text offset, bounds and metadata offset, and its last 8
   * bytes are zero; the text offset leads to the chunk's text (when it
   * holds no zero byte) and the metadata offset to the language slot and
   * the confidence bits.
   */
  lemma {:induction false} ChunkListReadBack(prefix: seq<byte>, chunks: seq<TextChunk>, i: nat, list: seq<byte>,
                          bodies: seq<Block>, records: seq<ChunkRecord>, chunksPtr: nat)
    requires i < |chunks|
    requires bodies == ChunkBodies(|prefix| + Round8(12), chunks, |chunks|)
    requires records == ChunkRecords(|prefix| + Round8(12), chunks, |chunks|)
    requires chunksPtr == |prefix| + Round8(12) + Size(bodies)
    requires list == HeaderFields(|chunks|, chunksPtr) + Zeros(Round8(12) - 12) + Images(bodies) + RecordsImage(records)
    ensures var mem := prefix + list;
      var r := records[i];
      At(mem, |prefix|, HeaderFields(|chunks|, chunksPtr))
      && At(mem, chunksPtr + 24 * i, RecordFields(r) + Zeros(8))
      && r.start == chunks[i].start && r.end == chunks[i].end
      && (NoNul(chunks[i].text) ==> CStringAt(mem, r.textPtr) == Some(chunks[i].text))
      && At(mem, r.metadataPtr, MetadataSlot(r.metadataPtr, chunks[i].metadata) + Bits64Bytes(chunks[i].metadata.confidence))
  {
    var bodyBase := |prefix| + Round8(12);
    var h := HeaderFields(|chunks|, chunksPtr);
    var z := Zeros(Round8(12) - 12);
    var before := Size(ChunkBodies(bodyBase, chunks, i));
    ImagesSize(bodies);
    InHeader(prefix, list, h, z, Images(bodies), RecordsImage(records));
    var at := bodyBase + before;
    EntryLayout(bodyBase, chunks, i, bodies, records, before, at);
    assert |h| + |z| == Round8(12);
    assert list == h + z + Images(bodies) + RecordsImage(records);
    assert chunksPtr == |prefix| + |h| + |z| + |Images(bodies)|;
    assert i < |records|;
    assert at == |prefix| + |h| + |z| + before;
    assert At(Images(bodies), before, Image(ChunkBody(at, chunks[i])));
    assert records[i] == ChunkRecord(at, chunks[i].start, chunks[i].end, at + Round8(|chunks[i].text| + 1));
    RecordReadBack(prefix, list, h, z, Images(bodies), records, chunksPtr, i);
    EntryReadBack(prefix, list, h, z, bodies, RecordsImage(records), before, at, chunks[i], records[i]);
  }

  /**
   * The same read-back stated on the chunk list `write_chunks` appends:
   * the bytes of `ChunkListImage` after `prefix`.
   */
  lemma {:induction false} ChunkListImageReadBack(prefix: seq<byte>, chunks: seq<TextChunk>, i: nat, list: seq<byte>,
                                                  bodies: seq<Block>, records: seq<ChunkRecord>, chunksPtr: nat)
    requires i < |chunks|
    requires list == ChunkListImage(|prefix|, chunks)
    requires bodies == ChunkBodies(|prefix| + Round8(12), chunks, |chunks|)
    requires records == ChunkRecords(|prefix| + Round8(12), chunks, |chunks|)
    requires chunksPtr == |prefix| + Round8(12) + Size(bodies)
    ensures var mem := prefix + list;
      var r := records[i];
      At(mem, |prefix|, HeaderFields(|chunks|, chunksPtr))
      && At(mem, chunksPtr + 24 * i, RecordFields(r) + Zeros(8))
      && r.start == chunks[i].start && r.end == chunks[i].end
      && (NoNul(chunks[i].text) ==> CStringAt(mem, r.textPtr) == Some(chunks[i].text))
      && At(mem, r.metadataPtr, MetadataSlot(r.metadataPtr, chunks[i].metadata) + Bits64Bytes(chunks[i].metadata.confidence))
  {
    ChunkListParts(|prefix|, chunks, Images(bodies), RecordsImage(records), chunksPtr);
    ChunkListReadBack(prefix, chunks, i, list, bodies, records, chunksPtr);
  }
}
